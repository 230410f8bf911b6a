/** The catalogue data page: catalogue items and the source documents they
    were imported from, with search, source filter, delete (a document delete
    cascades to its items) and upload. */
module CatalogueData {
  import opened Common
  import opened Text

  datatype Tab = Items | Documents

  /** A catalogue item; `source` is the name of the document it came from. */
  datatype CatalogueEntry = CatalogueEntry(
    id: string, description: string, price: real, manufacturer: string,
    assembly: real, template: string, source: string)

  /** An imported source document; `date` is its ISO upload date. */
  datatype SourceDocument = SourceDocument(id: string, name: string, date: string, itemCount: int)

  function MockItems(): seq<CatalogueEntry> {
    [ CatalogueEntry("1", "Klimatizační jednotka 3.5kW", 12500.0, "Daikin", 2500.0, "Standard", "Ceník 2025.xlsx"),
      CatalogueEntry("2", "CU potrubí 6/10", 280.0, "", 120.0, "Materiál", "Skladové zásoby.csv"),
      CatalogueEntry("3", "Konzole nástěnná 450mm", 450.0, "Klimafix", 350.0, "Příslušenství", "Ceník 2025.xlsx"),
      CatalogueEntry("4", "Čerpadlo kondenzátu", 2100.0, "Aspen", 800.0, "Standard", "Import_v2.xlsx"),
      CatalogueEntry("5", "Kabel CYKY-J 3x1.5", 18.0, "Prakab", 25.0, "Elektro", "Skladové zásoby.csv") ]
  }

  function MockDocuments(): seq<SourceDocument> {
    [ SourceDocument("1", "Ceník 2025.xlsx", "2025-01-10", 1450),
      SourceDocument("2", "Skladové zásoby.csv", "2025-02-01", 320),
      SourceDocument("3", "Import_v2.xlsx", "2025-02-08", 85) ]
  }

  // ---------------------------------------------------------------------
  // Filters

  /** An absent or empty source filter shows every source. */
  predicate FilterActive(sourceFilter: Option<string>) {
    sourceFilter.Some? && sourceFilter.value != ""
  }

  /** The search term matches description or manufacturer, case-insensitively. */
  predicate MatchesSearch(term: string, item: CatalogueEntry) {
    Contains(Lower(item.description), Lower(term)) || Contains(Lower(item.manufacturer), Lower(term))
  }

  predicate ItemVisible(term: string, sourceFilter: Option<string>, item: CatalogueEntry) {
    MatchesSearch(term, item) && (!FilterActive(sourceFilter) || item.source == sourceFilter.value)
  }

  /** The items the items tab lists. */
  function FilteredItems(items: seq<CatalogueEntry>, term: string, sourceFilter: Option<string>): (r: seq<CatalogueEntry>)
    ensures forall x :: x in r ==> x in items && ItemVisible(term, sourceFilter, x)
  {
    Filter((x: CatalogueEntry) => ItemVisible(term, sourceFilter, x), items)
  }

  /** The documents the documents tab lists: the search term against the name. */
  function FilteredDocuments(docs: seq<SourceDocument>, term: string): (r: seq<SourceDocument>)
    ensures forall d :: d in r ==> d in docs && Contains(Lower(d.name), Lower(term))
  {
    Filter((d: SourceDocument) => Contains(Lower(d.name), Lower(term)), docs)
  }

  /** An item is listed exactly when it matches the search and the source
      filter, as often as it occurs; the listing keeps the items' order. */
  lemma FilteredItemsExact(items: seq<CatalogueEntry>, term: string, sourceFilter: Option<string>, x: CatalogueEntry)
    ensures x in FilteredItems(items, term, sourceFilter) <==>
      x in items && MatchesSearch(term, x) && (!FilterActive(sourceFilter) || x.source == sourceFilter.value)
    ensures multiset(FilteredItems(items, term, sourceFilter))[x] ==
      if ItemVisible(term, sourceFilter, x) then multiset(items)[x] else 0
    ensures IsSubsequence(FilteredItems(items, term, sourceFilter), items)
  {
    FilterMembership((x: CatalogueEntry) => ItemVisible(term, sourceFilter, x), items, x);
    FilterCount((x: CatalogueEntry) => ItemVisible(term, sourceFilter, x), items, x);
    FilterIsSubsequence((x: CatalogueEntry) => ItemVisible(term, sourceFilter, x), items);
  }

  /** A document is listed exactly when its name matches, as often as it
      occurs; order is kept. */
  lemma FilteredDocumentsExact(docs: seq<SourceDocument>, term: string, d: SourceDocument)
    ensures d in FilteredDocuments(docs, term) <==> d in docs && Contains(Lower(d.name), Lower(term))
    ensures multiset(FilteredDocuments(docs, term))[d] ==
      if Contains(Lower(d.name), Lower(term)) then multiset(docs)[d] else 0
    ensures IsSubsequence(FilteredDocuments(docs, term), docs)
  {
    FilterMembership((d: SourceDocument) => Contains(Lower(d.name), Lower(term)), docs, d);
    FilterCount((d: SourceDocument) => Contains(Lower(d.name), Lower(term)), docs, d);
    FilterIsSubsequence((d: SourceDocument) => Contains(Lower(d.name), Lower(term)), docs);
  }

  /** A tab's list is empty exactly when none of its entries passes. */
  lemma NothingListedExactlyWhenNoMatch(items: seq<CatalogueEntry>, docs: seq<SourceDocument>,
                                        term: string, sourceFilter: Option<string>)
    ensures FilteredItems(items, term, sourceFilter) == [] <==>
      forall i :: 0 <= i < |items| ==> !ItemVisible(term, sourceFilter, items[i])
    ensures FilteredDocuments(docs, term) == [] <==>
      forall i :: 0 <= i < |docs| ==> !Contains(Lower(docs[i].name), Lower(term))
  {
    FilterEmpty((x: CatalogueEntry) => ItemVisible(term, sourceFilter, x), items);
    FilterEmpty((d: SourceDocument) => Contains(Lower(d.name), Lower(term)), docs);
  }

  /** With no search term and no source filter both tabs list everything. */
  lemma EmptySearchShowsAll(items: seq<CatalogueEntry>, docs: seq<SourceDocument>, sourceFilter: Option<string>)
    requires !FilterActive(sourceFilter)
    ensures FilteredItems(items, "", sourceFilter) == items
    ensures FilteredDocuments(docs, "") == docs
  {
    forall i | 0 <= i < |items| ensures ItemVisible("", sourceFilter, items[i]) {
      ContainsEmpty(Lower(items[i].description));
    }
    FilterKeepsAll((x: CatalogueEntry) => ItemVisible("", sourceFilter, x), items);
    forall i | 0 <= i < |docs| ensures Contains(Lower(docs[i].name), Lower("")) {
      ContainsEmpty(Lower(docs[i].name));
    }
    FilterKeepsAll((d: SourceDocument) => Contains(Lower(d.name), Lower("")), docs);
  }

  // ---------------------------------------------------------------------
  // Delete

  /** The items without the one whose id is being deleted; no id removes nothing. */
  function WithoutItem(items: seq<CatalogueEntry>, deleteId: Option<string>): (r: seq<CatalogueEntry>)
    ensures forall x :: x in r <==> x in items && Some(x.id) != deleteId
    ensures deleteId.None? ==> r == items
  {
    var keep := (x: CatalogueEntry) => Some(x.id) != deleteId;
    FilterMembershipAll(keep, items);
    assert deleteId.None? ==> Filter(keep, items) == items by {
      if deleteId.None? {
        FilterKeepsAll(keep, items);
      }
    }
    Filter(keep, items)
  }

  /** Exactly the items with the deleted id go, every other copy stays, and
      the rest keep their order. */
  lemma WithoutItemExact(items: seq<CatalogueEntry>, id: string, x: CatalogueEntry)
    ensures x in WithoutItem(items, Some(id)) <==> x in items && x.id != id
    ensures multiset(WithoutItem(items, Some(id)))[x] == if x.id != id then multiset(items)[x] else 0
    ensures IsSubsequence(WithoutItem(items, Some(id)), items)
  {
    FilterCount((x: CatalogueEntry) => Some(x.id) != Some(id), items, x);
    FilterIsSubsequence((x: CatalogueEntry) => Some(x.id) != Some(id), items);
  }

  /** The documents without the one whose id is being deleted. */
  function WithoutDocument(docs: seq<SourceDocument>, deleteId: Option<string>): (r: seq<SourceDocument>)
    ensures forall d :: d in r <==> d in docs && Some(d.id) != deleteId
  {
    FilterMembershipAll((d: SourceDocument) => Some(d.id) != deleteId, docs);
    Filter((d: SourceDocument) => Some(d.id) != deleteId, docs)
  }

  /** Exactly the documents with the deleted id go, every other copy stays,
      and the rest keep their order. */
  lemma WithoutDocumentExact(docs: seq<SourceDocument>, id: string, d: SourceDocument)
    ensures d in WithoutDocument(docs, Some(id)) <==> d in docs && d.id != id
    ensures multiset(WithoutDocument(docs, Some(id)))[d] == if d.id != id then multiset(docs)[d] else 0
    ensures IsSubsequence(WithoutDocument(docs, Some(id)), docs)
  {
    FilterCount((d: SourceDocument) => Some(d.id) != Some(id), docs, d);
    FilterIsSubsequence((d: SourceDocument) => Some(d.id) != Some(id), docs);
  }

  /** The items not imported from document `name`: the cascade of a document delete. */
  function WithoutSource(items: seq<CatalogueEntry>, name: string): (r: seq<CatalogueEntry>)
    ensures forall x :: x in r <==> x in items && x.source != name
  {
    FilterMembershipAll((x: CatalogueEntry) => x.source != name, items);
    Filter((x: CatalogueEntry) => x.source != name, items)
  }

  /** The cascade removes exactly the items imported from the document,
      keeps every copy of the others, and keeps their order. */
  lemma WithoutSourceExact(items: seq<CatalogueEntry>, name: string, x: CatalogueEntry)
    ensures x in WithoutSource(items, name) <==> x in items && x.source != name
    ensures multiset(WithoutSource(items, name))[x] == if x.source != name then multiset(items)[x] else 0
    ensures IsSubsequence(WithoutSource(items, name), items)
  {
    FilterCount((x: CatalogueEntry) => x.source != name, items, x);
    FilterIsSubsequence((x: CatalogueEntry) => x.source != name, items);
  }

  /** The test `documents.find` applies: the document has the id being deleted. */
  function HasDocumentId(deleteId: Option<string>): SourceDocument -> bool {
    (d: SourceDocument) => Some(d.id) == deleteId
  }

  /** Document `i` is the first document whose id is the one being deleted. */
  predicate FirstDocumentWithId(docs: seq<SourceDocument>, deleteId: Option<string>, i: int) {
    IsFirst(HasDocumentId(deleteId), docs, i)
  }

  /** The first document with the id being deleted. */
  function FindDocument(docs: seq<SourceDocument>, deleteId: Option<string>): (found: Option<SourceDocument>)
    ensures found.None? <==> forall i :: 0 <= i < |docs| ==> Some(docs[i].id) != deleteId
    ensures found.Some? ==> exists i :: FirstDocumentWithId(docs, deleteId, i) && docs[i] == found.value
  {
    Find(HasDocumentId(deleteId), docs)
  }

  /** What the delete timer's callback saw when Delete was confirmed: the
      tab, the id and the document it found among the documents of that
      moment. */
  datatype DeleteRequest = DeleteRequest(tab: Tab, target: Option<string>, document: Option<SourceDocument>)

  /** The item list after a delete request runs: an item delete drops the
      items with the id, a document delete the items from the document found,
      and a document delete that found nothing keeps every item. */
  function ItemsAfterDelete(items: seq<CatalogueEntry>, req: DeleteRequest): (r: seq<CatalogueEntry>)
    ensures req.tab == Items ==> forall x :: x in r <==> x in items && Some(x.id) != req.target
    ensures req.tab == Documents && req.document.Some? ==>
      forall x :: x in r <==> x in items && x.source != req.document.value.name
    ensures req.tab == Documents && req.document.None? ==> r == items
  {
    if req.tab == Items then WithoutItem(items, req.target)
    else if req.document.Some? then WithoutSource(items, req.document.value.name)
    else items
  }

  /** The document list after a delete request runs: an item delete keeps
      every document, a document delete drops the documents with the id. */
  function DocumentsAfterDelete(docs: seq<SourceDocument>, req: DeleteRequest): (r: seq<SourceDocument>)
    ensures req.tab == Items ==> r == docs
    ensures req.tab == Documents ==> forall d :: d in r <==> d in docs && Some(d.id) != req.target
  {
    if req.tab == Items then docs else WithoutDocument(docs, req.target)
  }

  /** A document delete removes that document and exactly the items
      imported from it; every other document and item stays, in order. */
  lemma DocumentDeleteCascades(items: seq<CatalogueEntry>, docs: seq<SourceDocument>, id: string,
                               x: CatalogueEntry, d: SourceDocument)
    requires FindDocument(docs, Some(id)).Some?
    ensures var req := DeleteRequest(Documents, Some(id), FindDocument(docs, Some(id)));
      (x in ItemsAfterDelete(items, req) <==> x in items && x.source != FindDocument(docs, Some(id)).value.name) &&
      IsSubsequence(ItemsAfterDelete(items, req), items) &&
      (d in DocumentsAfterDelete(docs, req) <==> d in docs && d.id != id) &&
      IsSubsequence(DocumentsAfterDelete(docs, req), docs) &&
      FindDocument(DocumentsAfterDelete(docs, req), Some(id)).None?
  {
    WithoutSourceExact(items, FindDocument(docs, Some(id)).value.name, x);
    WithoutDocumentExact(docs, id, d);
  }

  // ---------------------------------------------------------------------
  // Upload

  /** Item `k` (from 0) generated for an uploaded file. */
  function ImportedItem(fileName: string, k: nat, id: string, price: int, assembly: int): (x: CatalogueEntry)
    ensures x.source == fileName && x.id == id && x.manufacturer == "Imported Brand" && x.template == "Standard"
  {
    CatalogueEntry(id, "Imported Item " + NatToString(k + 1) + " (" + BeforeFirstDot(fileName) + ")",
                   price as real, "Imported Brand", assembly as real, "Standard", fileName)
  }

  /** The generated items of an upload, one per id, in order. */
  function ImportedItems(fileName: string, ids: seq<string>, prices: seq<int>, assemblies: seq<int>): (r: seq<CatalogueEntry>)
    requires |ids| == |prices| == |assemblies|
    ensures |r| == |ids|
    ensures forall k :: 0 <= k < |r| ==> r[k].source == fileName && r[k].id == ids[k]
    ensures forall k :: 0 <= k < |r| ==> r[k].price == prices[k] as real && r[k].assembly == assemblies[k] as real
  {
    seq(|ids|, k requires 0 <= k < |ids| => ImportedItem(fileName, k, ids[k], prices[k], assemblies[k]))
  }

  /** Right after an upload the items tab, filtered by the new document and
      with an empty search, lists the earlier items of that name followed by
      every imported item. */
  lemma UploadedItemsOnShow(items: seq<CatalogueEntry>, fileName: string, ids: seq<string>, prices: seq<int>, assemblies: seq<int>)
    requires |ids| == |prices| == |assemblies|
    requires fileName != ""
    ensures FilteredItems(items + ImportedItems(fileName, ids, prices, assemblies), "", Some(fileName)) ==
      Filter((x: CatalogueEntry) => x.source == fileName, items) + ImportedItems(fileName, ids, prices, assemblies)
  {
    var imported := ImportedItems(fileName, ids, prices, assemblies);
    var visible := (x: CatalogueEntry) => ItemVisible("", Some(fileName), x);
    FilterAppend(visible, items, imported);
    forall k | 0 <= k < |imported| ensures visible(imported[k]) {
      ContainsEmpty(Lower(imported[k].description));
    }
    FilterKeepsAll(visible, imported);
    FilterSameTest(visible, (x: CatalogueEntry) => x.source == fileName, items);
  }

  /** Two tests that agree on every element filter alike. */
  lemma {:induction false} FilterSameTest(p: CatalogueEntry -> bool, q: CatalogueEntry -> bool, s: seq<CatalogueEntry>)
    requires forall x :: x in s ==> (p(x) <==> q(x))
    ensures Filter(p, s) == Filter(q, s)
  {
    if s != [] {
      FilterSameTest(p, q, s[1..]);
    }
  }

  // ---------------------------------------------------------------------
  // The page state

  class CataloguePage {
    var activeTab: Tab
    var items: seq<CatalogueEntry>
    var documents: seq<SourceDocument>
    var searchTerm: string
    var sourceFilter: Option<string>
    var deleteId: Option<string>
    var isDeleting: bool
    /** Delete timers scheduled and not yet fired, oldest first. */
    var pendingDeletes: seq<DeleteRequest>

    /** The spinner implies a pending delete, and a queued document was
        found under the id it was queued with. */
    ghost predicate Valid()
      reads this
    {
      (isDeleting ==> pendingDeletes != []) &&
      forall k :: 0 <= k < |pendingDeletes| && pendingDeletes[k].document.Some? ==>
        Some(pendingDeletes[k].document.value.id) == pendingDeletes[k].target
    }

    constructor()
      ensures Valid()
      ensures activeTab == Items && items == MockItems() && documents == MockDocuments()
      ensures searchTerm == "" && sourceFilter == None && deleteId == None
      ensures !isDeleting && pendingDeletes == []
    {
      activeTab := Items;
      items := MockItems();
      documents := MockDocuments();
      searchTerm := "";
      sourceFilter := None;
      deleteId := None;
      isDeleting := false;
      pendingDeletes := [];
    }

    function VisibleItems(): seq<CatalogueEntry>
      reads this
    {
      FilteredItems(items, searchTerm, sourceFilter)
    }

    function VisibleDocuments(): seq<SourceDocument>
      reads this
    {
      FilteredDocuments(documents, searchTerm)
    }

    /** The "No results found" panel of the active tab shows exactly when no
        entry of that tab passes the search (and, for items, the source filter). */
    function ShowsEmptyState(): (empty: bool)
      reads this
      ensures activeTab == Items ==>
        (empty <==> forall i :: 0 <= i < |items| ==> !ItemVisible(searchTerm, sourceFilter, items[i]))
      ensures activeTab == Documents ==>
        (empty <==> forall i :: 0 <= i < |documents| ==> !Contains(Lower(documents[i].name), Lower(searchTerm)))
    {
      NothingListedExactlyWhenNoMatch(items, documents, searchTerm, sourceFilter);
      if activeTab == Items then |VisibleItems()| == 0 else |VisibleDocuments()| == 0
    }

    method SetActiveTab(tab: Tab)
      requires Valid()
      modifies this
      ensures Valid()
      ensures activeTab == tab
      ensures items == old(items) && documents == old(documents) && searchTerm == old(searchTerm)
      ensures sourceFilter == old(sourceFilter) && deleteId == old(deleteId)
      ensures isDeleting == old(isDeleting) && pendingDeletes == old(pendingDeletes)
    {
      activeTab := tab;
    }

    method SetSearchTerm(term: string)
      requires Valid()
      modifies this
      ensures Valid()
      ensures searchTerm == term
      ensures activeTab == old(activeTab) && items == old(items) && documents == old(documents)
      ensures sourceFilter == old(sourceFilter) && deleteId == old(deleteId)
      ensures isDeleting == old(isDeleting) && pendingDeletes == old(pendingDeletes)
    {
      searchTerm := term;
    }

    /** The source drop-down: "All Documents" has the empty value, stored as null. */
    method SelectSource(value: string)
      requires Valid()
      modifies this
      ensures Valid()
      ensures sourceFilter == if value == "" then None else Some(value)
      ensures activeTab == old(activeTab) && items == old(items) && documents == old(documents)
      ensures searchTerm == old(searchTerm) && deleteId == old(deleteId)
      ensures isDeleting == old(isDeleting) && pendingDeletes == old(pendingDeletes)
    {
      sourceFilter := if value == "" then None else Some(value);
    }

    /** A document's "View Detail" button: show the items of that document. */
    method ViewSource(name: string)
      requires Valid()
      modifies this
      ensures Valid()
      ensures sourceFilter == Some(name) && searchTerm == "" && activeTab == Items
      ensures items == old(items) && documents == old(documents) && deleteId == old(deleteId)
      ensures isDeleting == old(isDeleting) && pendingDeletes == old(pendingDeletes)
    {
      sourceFilter := Some(name);
      searchTerm := "";
      activeTab := Items;
    }

    /** An item's source link: filter by that item's source, nothing else. */
    method FilterBySource(source: string)
      requires Valid()
      modifies this
      ensures Valid()
      ensures sourceFilter == Some(source)
      ensures activeTab == old(activeTab) && items == old(items) && documents == old(documents)
      ensures searchTerm == old(searchTerm) && deleteId == old(deleteId)
      ensures isDeleting == old(isDeleting) && pendingDeletes == old(pendingDeletes)
    {
      sourceFilter := Some(source);
    }

    /** The confirmation dialog is open while a non-empty id awaits deletion. */
    predicate DeleteDialogOpen()
      reads this
    {
      deleteId.Some? && deleteId.value != ""
    }

    /** A row's delete button: opens the confirmation dialog. */
    method DeleteClick(id: string)
      requires Valid()
      modifies this
      ensures Valid()
      ensures deleteId == Some(id) && (DeleteDialogOpen() <==> id != "")
      ensures activeTab == old(activeTab) && items == old(items) && documents == old(documents)
      ensures searchTerm == old(searchTerm) && sourceFilter == old(sourceFilter)
      ensures isDeleting == old(isDeleting) && pendingDeletes == old(pendingDeletes)
    {
      deleteId := Some(id);
    }

    /** The confirmation dialog's close: nothing is deleted. */
    method CancelDelete()
      requires Valid()
      modifies this
      ensures Valid()
      ensures deleteId == None && !DeleteDialogOpen()
      ensures activeTab == old(activeTab) && items == old(items) && documents == old(documents)
      ensures searchTerm == old(searchTerm) && sourceFilter == old(sourceFilter)
      ensures isDeleting == old(isDeleting) && pendingDeletes == old(pendingDeletes)
    {
      deleteId := None;
    }

    /** Confirming the dialog: the spinner shows and a delete of what is
        selected now is scheduled. */
    method ConfirmDelete()
      requires Valid()
      modifies this
      ensures Valid()
      ensures isDeleting
      ensures pendingDeletes == old(pendingDeletes) + [DeleteRequest(activeTab, deleteId, FindDocument(documents, deleteId))]
      ensures activeTab == old(activeTab) && items == old(items) && documents == old(documents)
      ensures searchTerm == old(searchTerm) && sourceFilter == old(sourceFilter) && deleteId == old(deleteId)
    {
      isDeleting := true;
      pendingDeletes := pendingDeletes + [DeleteRequest(activeTab, deleteId, FindDocument(documents, deleteId))];
    }

    /** The oldest delete timer fires. */
    method CompleteDelete()
      requires Valid() && pendingDeletes != []
      modifies this
      ensures Valid()
      ensures items == ItemsAfterDelete(old(items), old(pendingDeletes)[0])
      ensures documents == DocumentsAfterDelete(old(documents), old(pendingDeletes)[0])
      ensures !isDeleting && deleteId == None && !DeleteDialogOpen() && pendingDeletes == old(pendingDeletes)[1..]
      ensures var req := old(pendingDeletes)[0];
        req.tab == Documents && req.document.Some? ==>
          (forall i :: 0 <= i < |documents| ==> documents[i].id != req.document.value.id) &&
          (forall i :: 0 <= i < |items| ==> items[i].source != req.document.value.name)
      ensures activeTab == old(activeTab) && searchTerm == old(searchTerm) && sourceFilter == old(sourceFilter)
    {
      var req := pendingDeletes[0];
      items := ItemsAfterDelete(items, req);
      documents := DocumentsAfterDelete(documents, req);
      isDeleting := false;
      deleteId := None;
      pendingDeletes := pendingDeletes[1..];
    }

    /** A file chosen in the upload input. `file` is the chosen file's name, if any; the
        document id, the date and the generated ids, count and prices are
        the values the page draws at random, in the ranges it draws them. */
    method FileChange(file: Option<string>, docId: string, today: string, itemCount: int,
                      ids: seq<string>, prices: seq<int>, assemblies: seq<int>)
      requires Valid()
      requires 5 <= itemCount <= 24 && |ids| == itemCount && |prices| == itemCount && |assemblies| == itemCount
      requires forall k :: 0 <= k < itemCount ==> 100 <= prices[k] <= 5099 && 0 <= assemblies[k] <= 999
      modifies this
      ensures Valid()
      ensures file.None? ==>
        activeTab == old(activeTab) && items == old(items) && documents == old(documents) &&
        searchTerm == old(searchTerm) && sourceFilter == old(sourceFilter)
      ensures file.Some? ==>
        documents == [SourceDocument(docId, file.value, today, itemCount)] + old(documents) &&
        items == old(items) + ImportedItems(file.value, ids, prices, assemblies) &&
        sourceFilter == Some(file.value) && searchTerm == "" && activeTab == Items
      ensures deleteId == old(deleteId) && isDeleting == old(isDeleting) && pendingDeletes == old(pendingDeletes)
    {
      if file.Some? {
        var doc := SourceDocument(docId, file.value, today, itemCount);
        documents := [doc] + documents;
        var newItems := ImportedItems(doc.name, ids, prices, assemblies);
        items := items + newItems;
        sourceFilter := Some(doc.name);
        searchTerm := "";
        activeTab := Items;
      }
    }
  }
}
