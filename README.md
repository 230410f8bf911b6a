# Internal pricing web app — a Dafny model of its core

The application is a front end for pricing construction budgets. An estimator
opens an order and walks a three-step page: upload a budget, price it, export
it. On the pricing step a table of budget rows is priced. Each item row's
final unit price is its delivery price less a percentage discount ("rabat")
plus its assembly price; its line total is that price times the quantity; the
footer sums the line totals. Section header rows show only their title; any
item row can be replaced by a product chosen in a catalogue search dialog,
reset to its seeded values, or edited cell by cell.
A separate data page keeps the catalogue items and the source documents they
were imported from; deleting a document deletes its items too. An order list
filters the orders by a search term.

This project models that core in Dafny and proves what it promises:

- `Text`: ASCII lower-casing, substring search, number printing, and the
  part of a file name before its first dot.
- `Common`: an `Option` type and an order-preserving `Filter`, with its
  membership, subsequence and concatenation lemmas.
- `Confidence`: the green/yellow/red band and the rounded percentage of a
  match score.
- `Orders`: the order list filter and the status badge.
- `PricingWorkflow`: the three-step page (`PricingPage` class) and its
  stepper.
- `CatalogueSearch`: the catalogue search dialog (`CatalogueDialog` class),
  its results panel and its candidates.
- `PricingRows`: the pricing engine (`CalculateRow`, `GrandTotal`), the row
  operations as functions on the row sequence, and the component state
  (`PricingTable` class).
- `CatalogueData`: the data page's filters, delete cascade and upload, and
  its state (`CataloguePage` class).

Component state that the code updates in place is a class. Each React state
setter becomes an assignment in a method whose `ensures` gives the whole new
state. A `setTimeout` becomes two methods: one schedules the work, the other
runs it when the timer fires. Timers scheduled and not yet fired are counted,
or, for the data page's delete, queued with the values the callback captured.
Amounts are exact reals.

Three behaviours of the code are easy to miss, and the model keeps them:

- A second recalculation can start while one is in flight. Only the
  Recalculate button is disabled while one runs; choosing a catalogue item
  calls the recalculation unconditionally, so
  `PricingTable.CatalogueSelect` can schedule a second timer while one is
  pending.
- The dialog's Search button is disabled while a search runs, but the Enter
  key in the search box still starts one. `CatalogueDialog.StartSearch`
  therefore has no "not searching" precondition.
- The page's order effect sets the step from the order's status whenever the
  order it is given changes, and status `new` sets step 1.
  `PricingPage.ReceiveOrder` models that effect as written. The application
  mounts the pricing page afresh each time the pricing tab is shown, so in
  practice an order always reaches a page that is still at step 1, and the
  effect never moves a page back from a later step.

## Model

| member | source | states |
|---|---|---|
| Text.Lower | src/app/pages/Orders.tsx:52-57 | lower-casing keeps the length and maps each character on its own, A-Z to a-z and every other character to itself |
| Text.ContainsAt | src/app/pages/Orders.tsx:52-57 | the substring test holds exactly when the needle occurs at some position of the haystack |
| Text.ContainsEmpty | src/app/pages/Data.tsx:63-72 | the empty search term is contained in every text, so an empty search box matches everything |
| Text.NatToStringValue | src/app/pages/Data.tsx:118 | the printed item number is a string of decimal digits that reads back as the number |
| Text.BeforeFirstDot | src/app/pages/Data.tsx:118 | the base name is a prefix of the file name without any dot, and a dot follows it whenever it is shorter |
| Confidence.BandOf | src/app/components/pricing/PricingStep2.tsx:199-201 | green exactly from 0.8, yellow exactly on [0.7, 0.8), red exactly below 0.7 |
| Confidence.BandMonotone | src/app/components/pricing/CatalogueModal.tsx:224-226 | a higher score never gets a worse band |
| Confidence.Round | src/app/components/pricing/PricingStep2.tsx:205 | rounding gives the integer within half a unit, halves rounded up |
| Confidence.PercentLabel | src/app/components/pricing/CatalogueModal.tsx:228 | a score in [0, 1] shows a percentage between 0 and 100 |
| Confidence.PercentLabelMonotone | src/app/components/pricing/CatalogueModal.tsx:228 | the shown percentage never falls as the score rises |
| Confidence.BandAgreesWithLabel | src/app/components/pricing/PricingStep2.tsx:199-205 | a green badge reads at least 80 and a red one at most 70 |
| Confidence.ShownScore | src/app/components/pricing/PricingStep2.tsx:200-205 | a row without a match score is shown as score 0 |
| Orders.FilteredOrders | src/app/pages/Orders.tsx:52-57 | every listed order is in the list and matches the term on name, code or customer |
| Orders.FilteredOrdersMembership | src/app/pages/Orders.tsx:52-57 | an order is listed if and only if it is in the list and matches, and a matching order is listed as many times as it occurs |
| Orders.FilteredOrdersKeepOrder | src/app/pages/Orders.tsx:52-57 | the listing keeps the list's order |
| Orders.FilteredOrdersEmptyTerm | src/app/pages/Orders.tsx:52-57 | an empty search lists every order |
| Orders.EmptyStateExactlyWhenNoMatch | src/app/pages/Orders.tsx:91 | "No orders found" shows exactly when no order matches |
| Orders.StatusVariant | src/app/pages/Orders.tsx:137-144 | the badge variant is success exactly for completed, warning exactly for in progress and secondary exactly for new |
| Orders.StatusLabel | src/app/pages/Orders.tsx:146 | the badge texts "In Progress", "New" and "Completed" |
| Orders.StatusBadgeInjective | src/app/pages/Orders.tsx:137-146 | different statuses never share a badge text or a colour |
| PricingWorkflow.StepForStatus | src/app/pages/Pricing.tsx:18-29 | in progress opens Pricing, completed opens Export, new opens Upload |
| PricingWorkflow.SeedOrdersOpenEveryStep | src/app/pages/Orders.tsx:22-47 | the three seeded orders open the pricing page at Pricing, Upload and Export respectively |
| PricingWorkflow.StepStateOf | src/app/pages/Pricing.tsx:56-62 | a stepper entry is done exactly before the current step, current exactly at it, pending exactly after it |
| PricingWorkflow.ExactlyOneCurrent | src/app/pages/Pricing.tsx:49-77 | on a valid step exactly one of the three entries is current |
| PricingWorkflow.ShownFileName | src/app/pages/Pricing.tsx:87-88 | the shown name is never empty; it is the uploaded file's name whenever that is non-empty, and "Pelhřimov_Budget_v1.xlsx" when there is no file or its name is empty |
| PricingWorkflow.ViewOf | src/app/pages/Pricing.tsx:86-88 | steps 1, 2 and 3 show Upload, Pricing and Export, the last two with the shown file name; any other step shows nothing |
| PricingWorkflow.PricingPage.constructor | src/app/pages/Pricing.tsx:12-13 | the page starts at step 1 with no file |
| PricingWorkflow.PricingPage.ReceiveOrder | src/app/pages/Pricing.tsx:18-29 | a supplied order sets the step from its status; no order leaves the step; the file is kept |
| PricingWorkflow.PricingPage.StartUpload | src/app/pages/Pricing.tsx:31-34 | the file is recorded at once, the step is unchanged and one timer is scheduled |
| PricingWorkflow.PricingPage.CompleteUpload | src/app/pages/Pricing.tsx:34-36 | when the timer fires the page is at Pricing with the file kept |
| PricingWorkflow.PricingPage.PricingComplete | src/app/pages/Pricing.tsx:39-41 | proceeding moves to Export and keeps the file |
| PricingWorkflow.PricingPage.CurrentView | src/app/pages/Pricing.tsx:86-88 | the page always shows one of the three steps |
| PricingWorkflow.UploadThenExport | src/app/pages/Pricing.tsx:31-41 | upload, timer and proceed take a fresh page to Export showing the uploaded name |
| CatalogueSearch.MockResultsWellFormed | src/app/components/pricing/CatalogueModal.tsx:14-25 | the ten candidates have scores in [0, 1] and non-negative prices |
| CatalogueSearch.CandidateBadgesInRange | src/app/components/pricing/CatalogueModal.tsx:224-228 | every candidate's badge reads a percentage between 0 and 100 |
| CatalogueSearch.PanelOf | src/app/components/pricing/CatalogueModal.tsx:192-220 | spinner exactly while searching; "no results" exactly after a search with nothing; the prompt exactly before any search; otherwise the result list |
| CatalogueSearch.BadgeOf | src/app/components/pricing/CatalogueModal.tsx:224-228 | a result's badge is green exactly from 0.8, yellow exactly on [0.7, 0.8), red exactly below 0.7, and reads the rounded percentage, which lies in 0..100 for a score in [0, 1] |
| CatalogueSearch.CatalogueDialog.constructor | src/app/components/pricing/CatalogueModal.tsx:28-31 | empty term, not searching, no results, not yet searched |
| CatalogueSearch.CatalogueDialog.Open | src/app/components/pricing/CatalogueModal.tsx:43-60 | opening on a row copies its description into the term; any opening shows the full candidate list as searched; closing changes nothing |
| CatalogueSearch.CatalogueDialog.SetSearchTerm | src/app/components/pricing/CatalogueModal.tsx:129 | typing changes the term only |
| CatalogueSearch.CatalogueDialog.StartSearch | src/app/components/pricing/CatalogueModal.tsx:62-66 | a search clears the results, shows the spinner, disables the Search button, hides the count and schedules one timer |
| CatalogueSearch.CatalogueDialog.CompleteSearch | src/app/components/pricing/CatalogueModal.tsx:67-71 | when the timer fires the full candidate list is shown as searched, the Search button is enabled again and the count reads 10 |
| CatalogueSearch.CatalogueDialog.Panel | src/app/components/pricing/CatalogueModal.tsx:192-220 | the "not searched" prompt only shows with no results |
| CatalogueSearch.CatalogueDialog.MatchCount | src/app/components/pricing/CatalogueModal.tsx:173-175 | the count agrees with the panel: none while the spinner or the prompt shows, 0 exactly with "no results", otherwise the length of the list on show |
| CatalogueSearch.OpenAndSearch | src/app/components/pricing/CatalogueModal.tsx:43-72 | opening on a row and searching again ends with the ten candidates listed and "10 matches" |
| PricingRows.CalculateRow | src/app/components/pricing/PricingStep2.tsx:52-70 | a header is returned as it is; an item row keeps every input and gets the four amounts of the pricing rule |
| PricingRows.PricedIsCalculated | src/app/components/pricing/PricingStep2.tsx:52-70 | the amounts are determined by the inputs: a priced item row is its own calculation |
| PricingRows.CalculateRowIdempotent | src/app/components/pricing/PricingStep2.tsx:73-83 | recalculating an already calculated row changes nothing |
| PricingRows.LineTotalSplit | src/app/components/pricing/PricingStep2.tsx:55-61 | the line total is the discounted delivery total plus the assembly total; the discount never touches the delivery total itself |
| PricingRows.DiscountLowersLineTotal | src/app/components/pricing/PricingStep2.tsx:58-61 | with non-negative quantity and delivery price, a larger discount never raises the line total |
| PricingRows.SeedRowOnePrices | src/app/components/pricing/PricingStep2.tsx:36 | seed row 1 prices to delivery total 45000, assembly total 3500, unit price 41750 and line total 41750 |
| PricingRows.GrandTotal | src/app/components/pricing/PricingStep2.tsx:303 | rows without a line total add nothing, and non-negative line totals give a non-negative footer |
| PricingRows.GrandTotalAppend | src/app/components/pricing/PricingStep2.tsx:303 | the footer total of two row blocks is the sum of their totals |
| PricingRows.GrandTotalPointwise | src/app/components/pricing/PricingStep2.tsx:303 | tables whose rows agree on their line totals have the same footer |
| PricingRows.RecalculateAll | src/app/components/pricing/PricingStep2.tsx:74 | recalculation keeps every row's id and inputs, leaves headers alone and prices every item row |
| PricingRows.RecalculatedGrandTotal | src/app/components/pricing/PricingStep2.tsx:303 | after a recalculation the footer equals the pricing rule summed over the item rows; headers add nothing |
| PricingRows.SeedRuleTotal | src/app/components/pricing/PricingStep2.tsx:34-43 | the pricing rule over the seed rows sums to 111475 |
| PricingRows.SeedGrandTotal | src/app/components/pricing/PricingStep2.tsx:73-75 | the seeded table, once calculated, shows a footer of 111475 |
| PricingRows.UpdateWhere | src/app/components/pricing/PricingStep2.tsx:86-91 | every row with the id is rewritten, every other row kept, the length unchanged |
| PricingRows.EditRow | src/app/components/pricing/PricingStep2.tsx:85-92 | the edited column takes the new value; every other column, the id and the four amounts are unchanged |
| PricingRows.ApplyEdit | src/app/components/pricing/PricingStep2.tsx:85-92 | rows with the id are edited, every other row is unchanged |
| PricingRows.EditKeepsGrandTotal | src/app/components/pricing/PricingStep2.tsx:85-92 | an edit leaves the footer as it was until the next recalculation |
| Common.Find | src/app/components/pricing/PricingStep2.tsx:95 | the result is the first element that passes, and there is none exactly when no element passes |
| PricingRows.FindById | src/app/components/pricing/PricingStep2.tsx:95 | the result is the first row with the id, and there is none exactly when no row has it |
| PricingRows.ResetRow | src/app/components/pricing/PricingStep2.tsx:94-104 | a row whose id is seeded becomes its calculated seed row; other rows, and everything when the id is not seeded, stay |
| PricingRows.SeedHeadersUnpriced | src/app/components/pricing/PricingStep2.tsx:34-43 | the seeded headers carry no line total, so resetting to a seeded header adds nothing to the footer |
| PricingRows.ResetThenRecalculate | src/app/components/pricing/PricingStep2.tsx:94-104 | a reset row survives the next recalculation as its calculated seed row |
| PricingRows.ReplaceFromCatalogue | src/app/components/pricing/PricingStep2.tsx:114-124 | the row takes the item's description, manufacturer, unit and prices with score 1; id, index, position, quantity, discount and amounts stay |
| PricingRows.ReplacedRowPricing | src/app/components/pricing/PricingStep2.tsx:111-131 | a replaced item row prices to the item's prices with its own quantity and discount, and shows a green 100 |
| PricingRows.MatchBadge | src/app/components/pricing/PricingStep2.tsx:199-201 | a row's Match badge is green exactly from score 0.8, yellow exactly on [0.7, 0.8), and red below 0.7 or when the row has no score |
| PricingRows.PricingTable.constructor | src/app/components/pricing/PricingStep2.tsx:46-49 | the table starts with the seed rows, no recalculation, dialog closed, nothing selected |
| PricingRows.PricingTable.InitialCalculation | src/app/components/pricing/PricingStep2.tsx:73-75 | the mount effect recalculates every row, the footer then equals the pricing rule summed over the item rows, and nothing else changes |
| PricingRows.PricingTable.StartRecalculate | src/app/components/pricing/PricingStep2.tsx:77-79 | the spinner shows, the Recalculate button is disabled and one timer is scheduled; the rows are untouched |
| PricingRows.PricingTable.CompleteRecalculate | src/app/components/pricing/PricingStep2.tsx:79-82 | when the timer fires every row is recalculated, the footer equals the pricing rule summed over the item rows, the spinner goes and the button is enabled again |
| PricingRows.PricingTable.InputChange | src/app/components/pricing/PricingStep2.tsx:85-92 | the edit is applied to the rows and nothing else changes |
| PricingRows.PricingTable.SearchReset | src/app/components/pricing/PricingStep2.tsx:94-104 | the row is reset and nothing else changes |
| PricingRows.PricingTable.OpenCatalogue | src/app/components/pricing/PricingStep2.tsx:106-109 | the row is selected and the dialog opens |
| PricingRows.PricingTable.CloseCatalogue | src/app/components/pricing/PricingStep2.tsx:314 | the dialog closes; rows and selection stay |
| PricingRows.PricingTable.SelectedRow | src/app/components/pricing/PricingStep2.tsx:133 | with a selection, the dialog's row is the first table row with the selected id, and there is none exactly when no row has it; without a selection there is none |
| PricingRows.PricingTable.CatalogueSelect | src/app/components/pricing/PricingStep2.tsx:111-131 | with a non-empty selection the rows with that id are replaced, the dialog closes and a recalculation is scheduled even if one is pending; otherwise nothing changes |
| PricingRows.SelectThenRecalculate | src/app/components/pricing/PricingStep2.tsx:111-131 | after a selection and its recalculation the target item rows are priced from the item with their own quantity and discount, and every other row is simply recalculated |
| CatalogueData.FilteredItems | src/app/pages/Data.tsx:63-68 | every listed item is an item that matches the search on description or manufacturer and, under an active filter, comes from that source |
| CatalogueData.FilteredDocuments | src/app/pages/Data.tsx:70-72 | every listed document is a document whose name matches the search |
| CatalogueData.FilteredItemsExact | src/app/pages/Data.tsx:63-68 | an item is listed if and only if it matches both tests, as many times as it occurs; the list keeps the items' order |
| CatalogueData.FilteredDocumentsExact | src/app/pages/Data.tsx:70-72 | a document is listed if and only if its name matches, as many times as it occurs; the list keeps the documents' order |
| CatalogueData.NothingListedExactlyWhenNoMatch | src/app/pages/Data.tsx:63-72 | a tab's list is empty exactly when none of its entries passes the search (and, for items, the source filter) |
| CatalogueData.EmptySearchShowsAll | src/app/pages/Data.tsx:63-72 | with an empty search and no (or an empty) source filter both tabs list everything |
| CatalogueData.WithoutItem | src/app/pages/Data.tsx:83 | an item remains exactly when its id is not the one deleted; deleting with no id removes nothing |
| CatalogueData.WithoutItemExact | src/app/pages/Data.tsx:83 | exactly the items with the deleted id go, every copy of the others stays, and they keep their order |
| CatalogueData.WithoutDocument | src/app/pages/Data.tsx:86 | a document remains exactly when its id is not the one deleted |
| CatalogueData.WithoutDocumentExact | src/app/pages/Data.tsx:86 | exactly the documents with the deleted id go, every copy of the others stays, and they keep their order |
| CatalogueData.WithoutSource | src/app/pages/Data.tsx:89 | an item remains exactly when it does not come from the deleted document |
| CatalogueData.WithoutSourceExact | src/app/pages/Data.tsx:88-89 | exactly the items from the deleted document go, every copy of the others stays, and they keep their order |
| CatalogueData.FindDocument | src/app/pages/Data.tsx:85 | a found document is the first document with the id; nothing is found exactly when no document has it |
| CatalogueData.ItemsAfterDelete | src/app/pages/Data.tsx:82-90 | an item delete drops exactly the items with the id; a document delete drops exactly the items of the document found, and keeps every item when none was found |
| CatalogueData.DocumentsAfterDelete | src/app/pages/Data.tsx:82-90 | an item delete keeps every document; a document delete drops exactly the documents with the id |
| CatalogueData.DocumentDeleteCascades | src/app/pages/Data.tsx:78-95 | deleting a document removes it and exactly the items imported from it; every other document and item stays, in order |
| CatalogueData.ImportedItem | src/app/pages/Data.tsx:116-124 | a generated item has the drawn id, comes from the uploaded file, and has the fixed manufacturer and template |
| CatalogueData.ImportedItems | src/app/pages/Data.tsx:116-124 | one generated item per drawn id, in order, with the drawn prices, all from the uploaded file |
| CatalogueData.UploadedItemsOnShow | src/app/pages/Data.tsx:101-138 | after an upload the filtered items tab lists the earlier items of that file name followed by every imported item |
| CatalogueData.CataloguePage.constructor | src/app/pages/Data.tsx:50-61 | the page starts on the items tab with the seed items and documents, no search, no filter and nothing to delete |
| CatalogueData.CataloguePage.ShowsEmptyState | src/app/pages/Data.tsx:354 | "No results found" shows exactly when no entry of the active tab passes the search (and, for items, the source filter) |
| CatalogueData.CataloguePage.SetActiveTab | src/app/pages/Data.tsx:180-191 | a tab button switches the tab and nothing else |
| CatalogueData.CataloguePage.SetSearchTerm | src/app/pages/Data.tsx:217 | typing changes the term only |
| CatalogueData.CataloguePage.SelectSource | src/app/pages/Data.tsx:229 | choosing "All Documents" clears the filter; any other choice sets it |
| CatalogueData.CataloguePage.ViewSource | src/app/pages/Data.tsx:332-336 | "View Detail" filters by the document, clears the search and shows the items tab |
| CatalogueData.CataloguePage.FilterBySource | src/app/pages/Data.tsx:288 | an item's source link sets the filter only |
| CatalogueData.CataloguePage.DeleteClick | src/app/pages/Data.tsx:74-76 | the id is marked for deletion and the dialog opens for any non-empty id |
| CatalogueData.CataloguePage.CancelDelete | src/app/pages/Data.tsx:370 | closing the dialog clears the id and deletes nothing |
| CatalogueData.CataloguePage.ConfirmDelete | src/app/pages/Data.tsx:78-81 | the spinner shows and a delete of the current tab, id and matching document is queued |
| CatalogueData.CataloguePage.CompleteDelete | src/app/pages/Data.tsx:81-94 | the oldest queued delete runs on the current lists, the spinner goes and the dialog closes; after a document delete neither the document nor any of its items remains |
| CatalogueData.CataloguePage.FileChange | src/app/pages/Data.tsx:101-138 | no file changes nothing; a file puts its document first, appends its items, filters by it, clears the search and shows the items tab |

## Left out

- Rendering, styling and layout: the JSX, the CSS classes, the icons, the body
  scroll lock of the catalogue dialog and the resetting of the file input.
- Number and date formatting (`formatCurrency`, `formatDate`, `cn`): the
  shared utilities file is not part of this model. Dates are kept as ISO text.
- Timing: a timer's delay is not modelled. A timer is a pair of methods, and
  any interleaving of the two is allowed.
- Randomness and the clock: the upload's document id, date, item count, item
  ids and prices are parameters. `FileChange` requires them to lie in the
  ranges the page draws them from.
- Floating point: amounts are exact reals. Rounding error, and the `NaN` that
  parsing an empty or non-numeric number cell produces, are not modelled. A
  number-column edit carries a real.
- Unicode case folding: lower-casing maps only A-Z. Non-ASCII capitals (for
  example Czech letters with diacritics) are left as they are.
- The generic field parameter of the cell-edit handler is limited to the seven
  columns the table's inputs actually edit.
- The catalogue dialog's limit and threshold settings and its `mounted` flag:
  the search never reads the settings, and the flag only delays the first
  render.
- The delete confirmation dialog component is not part of this model. Its
  title and description texts are presentation only.
- The upload step, the export step, the settings, login, layout and routing
  pages are not part of this model.
