/** The pricing table of step 2: the row pricing engine, the grand total and
    the row store with its edit, reset, catalogue-replacement and
    recalculation operations. Amounts are exact reals. */
module PricingRows {
  import opened Common
  import opened CatalogueSearch
  import Confidence

  /** One budget line: a section header or a priced item. The four derived
      amounts are absent until the row is first calculated. */
  datatype PricingRow = PricingRow(
    id: string, isHeader: bool, matchProbability: Option<real>,
    index: string, supplier: string, discount: real, position: string,
    description: string, unit: string,
    quantity: real, deliveryPrice: real, assemblyPrice: real,
    deliveryTotal: Option<real>, assemblyTotal: Option<real>,
    finalPriceUnit: Option<real>, lineTotal: Option<real>)

  /** A row with its derived amounts dropped: everything a user or the seed
      data supplies. */
  function Inputs(r: PricingRow): PricingRow {
    r.(deliveryTotal := None, assemblyTotal := None, finalPriceUnit := None, lineTotal := None)
  }

  /** The pricing rule: the discount ("rabat", in percent) is taken off the
      delivery price only; the delivery total is on the undiscounted price. */
  ghost predicate Priced(r: PricingRow) {
    r.finalPriceUnit.Some? && r.deliveryTotal.Some? && r.assemblyTotal.Some? && r.lineTotal.Some? &&
    r.finalPriceUnit.value == r.deliveryPrice - r.deliveryPrice * r.discount / 100.0 + r.assemblyPrice &&
    r.deliveryTotal.value == r.deliveryPrice * r.quantity &&
    r.assemblyTotal.value == r.assemblyPrice * r.quantity &&
    r.lineTotal.value == r.finalPriceUnit.value * r.quantity
  }

  /** `calculateRow`: prices one row. */
  function CalculateRow(row: PricingRow): (r: PricingRow)
    ensures row.isHeader ==> r == row
    ensures !row.isHeader ==> Inputs(r) == Inputs(row) && Priced(r)
  {
    if row.isHeader then row
    else
      var deliveryTotal := row.deliveryPrice * row.quantity;
      var discountedDelivery := row.deliveryPrice * (1.0 - row.discount / 100.0);
      var finalPriceUnit := discountedDelivery + row.assemblyPrice;
      var assemblyTotal := row.assemblyPrice * row.quantity;
      var lineTotal := finalPriceUnit * row.quantity;
      row.(deliveryTotal := Some(deliveryTotal), assemblyTotal := Some(assemblyTotal),
           finalPriceUnit := Some(finalPriceUnit), lineTotal := Some(lineTotal))
  }

  /** The derived amounts are a function of the inputs: a priced row is the
      calculated form of its own inputs. */
  lemma PricedIsCalculated(r: PricingRow)
    requires !r.isHeader && Priced(r)
    ensures CalculateRow(r) == r
  {
    var c := CalculateRow(r);
    assert c.finalPriceUnit.value == r.finalPriceUnit.value;
    assert c.deliveryTotal.value == r.deliveryTotal.value;
    assert c.assemblyTotal.value == r.assemblyTotal.value;
    assert c.lineTotal.value == r.lineTotal.value;
  }

  /** Calculating twice is calculating once. */
  lemma CalculateRowIdempotent(row: PricingRow)
    ensures CalculateRow(CalculateRow(row)) == CalculateRow(row)
  {
    if !row.isHeader {
      PricedIsCalculated(CalculateRow(row));
    }
  }

  /** The line total is the delivery total less the discount, plus the
      assembly total: the asymmetry between the two delivery figures. */
  lemma LineTotalSplit(row: PricingRow)
    requires !row.isHeader
    ensures CalculateRow(row).lineTotal.value ==
      CalculateRow(row).deliveryTotal.value * (1.0 - row.discount / 100.0) + CalculateRow(row).assemblyTotal.value
  {
  }

  /** A larger discount never raises the line total of a row with
      non-negative quantity and delivery price. */
  lemma DiscountLowersLineTotal(row: PricingRow, higher: real)
    requires !row.isHeader && row.quantity >= 0.0 && row.deliveryPrice >= 0.0
    requires row.discount <= higher
    ensures CalculateRow(row.(discount := higher)).lineTotal.value <= CalculateRow(row).lineTotal.value
  {
    var cut := row.deliveryPrice * (higher - row.discount) / 100.0;
    assert cut >= 0.0;
    assert CalculateRow(row.(discount := higher)).finalPriceUnit.value == CalculateRow(row).finalPriceUnit.value - cut;
    assert cut * row.quantity >= 0.0;
  }

  /** An item row as the seed data writes it: no derived amounts yet. */
  function SeedItem(id: string, score: real, index: string, supplier: string, discount: real, position: string,
                    description: string, unit: string, quantity: real, deliveryPrice: real, assemblyPrice: real): PricingRow
  {
    PricingRow(id, false, Some(score), index, supplier, discount, position, description, unit,
               quantity, deliveryPrice, assemblyPrice, None, None, None, None)
  }

  /** A section header as the seed data writes it. */
  function SeedHeader(id: string, description: string): PricingRow {
    PricingRow(id, true, None, "", "", 0.0, "", description, "", 0.0, 0.0, 0.0, None, None, None, None)
  }

  /** The seed table, before the mount effect calculates it. */
  function MockData(): seq<PricingRow> {
    [ SeedHeader("h1", "Chlazení - Multisplit"),
      SeedItem("1", 0.95, "1.1", "Daikin", 15.0, "K1", "Venkovní jednotka 3MXM52N", "ks", 1.0, 45000.0, 3500.0),
      SeedItem("2", 0.85, "1.2", "Daikin", 15.0, "K1.1", "Vnitřní jednotka FTXM25N", "ks", 2.0, 12500.0, 2500.0),
      SeedItem("3", 0.65, "1.3", "Daikin", 15.0, "K1.2", "Vnitřní jednotka FTXM35N", "ks", 1.0, 14500.0, 2500.0),
      SeedHeader("h2", "Rozvody chladu"),
      SeedItem("4", 0.45, "2.1", "Generic", 0.0, "", "CU potrubí 6/10 izolované", "m", 45.0, 280.0, 120.0),
      SeedItem("5", 0.9, "2.2", "Generic", 0.0, "", "Kabel CYKY-J 3x1.5", "m", 60.0, 18.0, 25.0),
      SeedItem("6", 0.75, "2.3", "Aspen", 10.0, "", "Čerpadlo kondenzátu Mini Orange", "ks", 3.0, 2100.0, 800.0) ]
  }

  /** The worked example: seed row '1' prices to 45000 / 3500 / 41750. */
  lemma SeedRowOnePrices()
    ensures Priced(CalculateRow(MockData()[1]))
    ensures CalculateRow(MockData()[1]).deliveryTotal.value == 45000.0
    ensures CalculateRow(MockData()[1]).assemblyTotal.value == 3500.0
    ensures CalculateRow(MockData()[1]).finalPriceUnit.value == 41750.0
    ensures CalculateRow(MockData()[1]).lineTotal.value == 41750.0
  {
    var row := MockData()[1];
    assert row.deliveryPrice == 45000.0 && row.discount == 15.0 && row.assemblyPrice == 3500.0 && row.quantity == 1.0;
  }

  // ---------------------------------------------------------------------
  // Grand total

  /** A row's contribution to the footer: its line total, or 0 when it has none. */
  function LineOf(r: PricingRow): real {
    r.lineTotal.GetOr(0.0)
  }

  /** The footer's grand total, summed from the left. Rows without a line
      total add nothing, and non-negative line totals give a non-negative
      footer. */
  function GrandTotal(rows: seq<PricingRow>): (t: real)
    ensures (forall i :: 0 <= i < |rows| ==> rows[i].lineTotal.None?) ==> t == 0.0
    ensures (forall i :: 0 <= i < |rows| ==> LineOf(rows[i]) >= 0.0) ==> t >= 0.0
  {
    if rows == [] then 0.0 else GrandTotal(rows[..|rows| - 1]) + LineOf(rows[|rows| - 1])
  }

  /** The total of a concatenation is the sum of the totals. */
  lemma {:induction false} GrandTotalAppend(a: seq<PricingRow>, b: seq<PricingRow>)
    ensures GrandTotal(a + b) == GrandTotal(a) + GrandTotal(b)
  {
    if b == [] {
      assert a + b == a;
    } else {
      assert (a + b)[..|a + b| - 1] == a + b[..|b| - 1];
      GrandTotalAppend(a, b[..|b| - 1]);
    }
  }

  /** Rows that agree on their line totals have the same grand total. */
  lemma {:induction false} GrandTotalPointwise(a: seq<PricingRow>, b: seq<PricingRow>)
    requires |a| == |b|
    requires forall i :: 0 <= i < |a| ==> LineOf(a[i]) == LineOf(b[i])
    ensures GrandTotal(a) == GrandTotal(b)
  {
    if a != [] {
      GrandTotalPointwise(a[..|a| - 1], b[..|b| - 1]);
    }
  }

  /** The amount a row should contribute by the pricing rule: nothing for a
      header, final unit price times quantity otherwise. */
  function RuleAmount(r: PricingRow): real {
    if r.isHeader then 0.0
    else (r.deliveryPrice - r.deliveryPrice * r.discount / 100.0 + r.assemblyPrice) * r.quantity
  }

  /** The sum of the pricing rule over the non-header rows. */
  function RuleTotal(rows: seq<PricingRow>): real {
    if rows == [] then 0.0 else RuleAmount(rows[0]) + RuleTotal(rows[1..])
  }

  // ---------------------------------------------------------------------
  // The row store as operations on the row sequence

  /** Every row priced, in place. */
  function RecalculateAll(rows: seq<PricingRow>): (r: seq<PricingRow>)
    ensures |r| == |rows|
    ensures forall i :: 0 <= i < |rows| ==> r[i].id == rows[i].id && Inputs(r[i]) == Inputs(rows[i])
    ensures forall i :: 0 <= i < |rows| ==> r[i].isHeader ==> r[i] == rows[i]
    ensures forall i :: 0 <= i < |rows| ==> !r[i].isHeader ==> Priced(r[i])
  {
    seq(|rows|, i requires 0 <= i < |rows| => CalculateRow(rows[i]))
  }

  /** Headers the engine has never priced carry no line total. */
  predicate HeadersUnpriced(rows: seq<PricingRow>) {
    forall i :: 0 <= i < |rows| ==> rows[i].isHeader ==> rows[i].lineTotal.None?
  }

  /** After a recalculation the footer shows exactly the pricing rule summed
      over the item rows; headers contribute nothing. */
  lemma {:induction false} RecalculatedGrandTotal(rows: seq<PricingRow>)
    requires HeadersUnpriced(rows)
    ensures GrandTotal(RecalculateAll(rows)) == RuleTotal(rows)
  {
    if rows != [] {
      RecalculatedGrandTotal(rows[1..]);
      var head := CalculateRow(rows[0]);
      RecalculateAllCons(rows);
      GrandTotalAppend([head], RecalculateAll(rows[1..]));
      GrandTotalSingle(head);
    }
  }

  /** Recalculating a table is calculating its first row, then the rest. */
  lemma RecalculateAllCons(rows: seq<PricingRow>)
    requires rows != []
    ensures RecalculateAll(rows) == [CalculateRow(rows[0])] + RecalculateAll(rows[1..])
  {
  }

  /** The footer of one row is its line total. */
  lemma GrandTotalSingle(r: PricingRow)
    ensures GrandTotal([r]) == LineOf(r)
  {
    assert [r][..0] == [];
  }

  /** The seed rows' amounts by the pricing rule, and their sum. */
  lemma {:induction false} SeedRuleTotal()
    ensures RuleTotal(MockData()) == 111475.0
  {
    var d := MockData();
    assert RuleAmount(d[7]) == 8070.0;
    assert RuleAmount(d[6]) == 2580.0;
    assert RuleAmount(d[5]) == 18000.0;
    assert RuleAmount(d[3]) == 14825.0;
    assert RuleAmount(d[2]) == 26250.0;
    assert RuleAmount(d[1]) == 41750.0;
    assert RuleTotal(d[8..]) == 0.0;
    assert RuleTotal(d[7..]) == 8070.0 by { assert d[7..][1..] == d[8..]; }
    assert RuleTotal(d[6..]) == 10650.0 by { assert d[6..][1..] == d[7..]; }
    assert RuleTotal(d[5..]) == 28650.0 by { assert d[5..][1..] == d[6..]; }
    assert RuleTotal(d[4..]) == 28650.0 by { assert d[4..][1..] == d[5..]; }
    assert RuleTotal(d[3..]) == 43475.0 by { assert d[3..][1..] == d[4..]; }
    assert RuleTotal(d[2..]) == 69725.0 by { assert d[2..][1..] == d[3..]; }
    assert RuleTotal(d[1..]) == 111475.0 by { assert d[1..][1..] == d[2..]; }
    assert d[0..] == d;
  }

  /** The seeded table, once calculated, totals 111475. */
  lemma SeedGrandTotal()
    ensures GrandTotal(RecalculateAll(MockData())) == 111475.0
  {
    var d := MockData();
    assert HeadersUnpriced(d);
    RecalculatedGrandTotal(d);
    SeedRuleTotal();
  }

  /** `f` applied to every row with id `id`; the other rows are kept. */
  function UpdateWhere(rows: seq<PricingRow>, id: string, f: PricingRow -> PricingRow): (r: seq<PricingRow>)
    ensures |r| == |rows|
    ensures forall i :: 0 <= i < |rows| ==> r[i] == if rows[i].id == id then f(rows[i]) else rows[i]
  {
    seq(|rows|, i requires 0 <= i < |rows| => if rows[i].id == id then f(rows[i]) else rows[i])
  }

  /** The editable columns of the table. */
  datatype Field = Description | Supplier | Discount | Unit | Quantity | DeliveryPrice | AssemblyPrice

  datatype Value = Text(text: string) | Number(number: real)

  /** The value a row holds in an editable column. */
  function FieldValue(r: PricingRow, f: Field): Value {
    match f
    case Description => Text(r.description)
    case Supplier => Text(r.supplier)
    case Discount => Number(r.discount)
    case Unit => Text(r.unit)
    case Quantity => Number(r.quantity)
    case DeliveryPrice => Number(r.deliveryPrice)
    case AssemblyPrice => Number(r.assemblyPrice)
  }

  /** One cell edit as the table's inputs issue it: text columns receive the
      typed text, number columns the parsed number. */
  datatype Edit = Edit(field: Field, value: Value)

  predicate WellTyped(e: Edit) {
    match e.field
    case Description => e.value.Text?
    case Supplier => e.value.Text?
    case Unit => e.value.Text?
    case _ => e.value.Number?
  }

  /** The row with one field overwritten. */
  function EditRow(row: PricingRow, e: Edit): (r: PricingRow)
    requires WellTyped(e)
    ensures FieldValue(r, e.field) == e.value
    ensures forall f :: f != e.field ==> FieldValue(r, f) == FieldValue(row, f)
    ensures r.id == row.id && r.isHeader == row.isHeader && r.matchProbability == row.matchProbability
    ensures r.index == row.index && r.position == row.position
    ensures r.deliveryTotal == row.deliveryTotal && r.assemblyTotal == row.assemblyTotal
    ensures r.finalPriceUnit == row.finalPriceUnit && r.lineTotal == row.lineTotal
  {
    match e.field
    case Description => row.(description := e.value.text)
    case Supplier => row.(supplier := e.value.text)
    case Discount => row.(discount := e.value.number)
    case Unit => row.(unit := e.value.text)
    case Quantity => row.(quantity := e.value.number)
    case DeliveryPrice => row.(deliveryPrice := e.value.number)
    case AssemblyPrice => row.(assemblyPrice := e.value.number)
  }

  /** `handleInputChange`'s update of the row list. */
  function ApplyEdit(rows: seq<PricingRow>, id: string, e: Edit): (r: seq<PricingRow>)
    requires WellTyped(e)
    ensures |r| == |rows|
    ensures forall i :: 0 <= i < |rows| ==> r[i].id == rows[i].id
    ensures forall i :: 0 <= i < |rows| && rows[i].id != id ==> r[i] == rows[i]
    ensures forall i :: 0 <= i < |rows| && rows[i].id == id ==> r[i] == EditRow(rows[i], e)
  {
    UpdateWhere(rows, id, row => EditRow(row, e))
  }

  /** An edit leaves the footer as it was until the next recalculation. */
  lemma EditKeepsGrandTotal(rows: seq<PricingRow>, id: string, e: Edit)
    requires WellTyped(e)
    ensures GrandTotal(ApplyEdit(rows, id, e)) == GrandTotal(rows)
  {
    GrandTotalPointwise(ApplyEdit(rows, id, e), rows);
  }

  /** The test `rows.find` applies: the row has id `id`. */
  function HasId(id: string): PricingRow -> bool {
    (r: PricingRow) => r.id == id
  }

  /** Row `i` is the first row whose id is `id`. */
  predicate FirstWithId(rows: seq<PricingRow>, id: string, i: int) {
    IsFirst(HasId(id), rows, i)
  }

  /** The first row with that id. */
  function FindById(rows: seq<PricingRow>, id: string): (found: Option<PricingRow>)
    ensures found.None? <==> forall i :: 0 <= i < |rows| ==> rows[i].id != id
    ensures found.Some? ==> exists i :: FirstWithId(rows, id, i) && rows[i] == found.value
  {
    Find(HasId(id), rows)
  }

  /** `handleSearchReset`: a row whose id is in the seed table gets the
      calculated seed row back; otherwise nothing changes. */
  function ResetRow(rows: seq<PricingRow>, id: string): (r: seq<PricingRow>)
    ensures FindById(MockData(), id).None? ==> r == rows
    ensures |r| == |rows|
    ensures forall i :: 0 <= i < |rows| && rows[i].id != id ==> r[i] == rows[i]
    ensures FindById(MockData(), id).Some? ==> forall i :: 0 <= i < |rows| && rows[i].id == id ==>
      r[i] == CalculateRow(FindById(MockData(), id).value)
  {
    var original := FindById(MockData(), id);
    if original.Some? then UpdateWhere(rows, id, _ => CalculateRow(original.value)) else rows
  }

  /** The seed table's headers carry no line total, and neither does any
      row of the seed table once calculated if it is a header. */
  lemma SeedHeadersUnpriced()
    ensures HeadersUnpriced(MockData())
    ensures forall id :: FindById(MockData(), id).Some? && FindById(MockData(), id).value.isHeader ==>
      CalculateRow(FindById(MockData(), id).value).lineTotal.None?
  {
    var d := MockData();
    assert HeadersUnpriced(d);
    forall id | FindById(d, id).Some? && FindById(d, id).value.isHeader
      ensures CalculateRow(FindById(d, id).value).lineTotal.None?
    {
      var i :| FirstWithId(d, id, i) && d[i] == FindById(d, id).value;
    }
  }

  /** Resetting a row and then recalculating reproduces the seeded row's
      calculated values. */
  lemma ResetThenRecalculate(rows: seq<PricingRow>, id: string, i: int)
    requires 0 <= i < |rows| && rows[i].id == id
    requires FindById(MockData(), id).Some?
    ensures RecalculateAll(ResetRow(rows, id))[i] == CalculateRow(FindById(MockData(), id).value)
  {
    CalculateRowIdempotent(FindById(MockData(), id).value);
  }

  /** The part of `handleCatalogueSelect` that rewrites one row. */
  function ReplaceFromCatalogue(row: PricingRow, item: CatalogueItem): (r: PricingRow)
    ensures r.description == item.description && r.supplier == item.manufacturer && r.unit == item.unit
    ensures r.deliveryPrice == item.price && r.assemblyPrice == item.assembly
    ensures r.matchProbability == Some(1.0)
    ensures r.id == row.id && r.isHeader == row.isHeader && r.index == row.index && r.position == row.position
    ensures r.quantity == row.quantity && r.discount == row.discount
    ensures r.deliveryTotal == row.deliveryTotal && r.assemblyTotal == row.assemblyTotal
    ensures r.finalPriceUnit == row.finalPriceUnit && r.lineTotal == row.lineTotal
  {
    row.(description := item.description, supplier := item.manufacturer,
         deliveryPrice := item.price, assemblyPrice := item.assembly,
         matchProbability := Some(1.0), unit := item.unit)
  }

  /** A replaced item row, once recalculated, is priced from the catalogue
      prices with its own quantity and discount, and shows a green 100. */
  lemma ReplacedRowPricing(row: PricingRow, item: CatalogueItem)
    requires !row.isHeader
    ensures Priced(CalculateRow(ReplaceFromCatalogue(row, item)))
    ensures CalculateRow(ReplaceFromCatalogue(row, item)).lineTotal.value ==
      (item.price * (1.0 - row.discount / 100.0) + item.assembly) * row.quantity
    ensures Confidence.BandOf(Confidence.ShownScore(ReplaceFromCatalogue(row, item).matchProbability)) == Confidence.Green
    ensures Confidence.PercentLabel(Confidence.ShownScore(ReplaceFromCatalogue(row, item).matchProbability)) == 100
  {
    assert Confidence.Round(100.0) == 100;
  }

  /** The Match badge of a row; a row without a score is red. */
  function MatchBadge(row: PricingRow): (b: Confidence.Band)
    ensures b == Confidence.Green <==> row.matchProbability.Some? && row.matchProbability.value >= 0.8
    ensures b == Confidence.Yellow <==> row.matchProbability.Some? && 0.7 <= row.matchProbability.value < 0.8
    ensures b == Confidence.Red <==> row.matchProbability.None? || row.matchProbability.value < 0.7
  {
    Confidence.BandOf(Confidence.ShownScore(row.matchProbability))
  }

  // ---------------------------------------------------------------------
  // The step-2 component state

  /** The pricing table's state. `pendingRecalcs` counts recalculation timers
      scheduled and not yet fired. */
  class PricingTable {
    var rows: seq<PricingRow>
    var isRecalculating: bool
    var pendingRecalcs: nat
    var modalOpen: bool
    var selectedRowId: Option<string>

    /** The spinner implies a pending timer, and no section header ever
        carries a line total, so the footer counts item rows only. */
    ghost predicate Valid()
      reads this
    {
      (isRecalculating ==> pendingRecalcs > 0) && HeadersUnpriced(rows)
    }

    /** The initial state, before the mount effect. */
    constructor()
      ensures Valid()
      ensures rows == MockData() && !isRecalculating && pendingRecalcs == 0
      ensures !modalOpen && selectedRowId == None
    {
      SeedHeadersUnpriced();
      rows := MockData();
      isRecalculating := false;
      pendingRecalcs := 0;
      modalOpen := false;
      selectedRowId := None;
    }

    /** The mount effect: every row is calculated once. */
    method InitialCalculation()
      requires Valid()
      modifies this
      ensures Valid()
      ensures rows == RecalculateAll(old(rows)) && Total() == RuleTotal(old(rows))
      ensures isRecalculating == old(isRecalculating) && pendingRecalcs == old(pendingRecalcs)
      ensures modalOpen == old(modalOpen) && selectedRowId == old(selectedRowId)
    {
      RecalculatedGrandTotal(rows);
      rows := RecalculateAll(rows);
    }

    /** The footer total. */
    function Total(): real
      reads this
    {
      GrandTotal(rows)
    }

    /** The Recalculate button is disabled while a recalculation runs. */
    predicate RecalculateEnabled()
      reads this
    {
      !isRecalculating
    }

    /** `handleRecalculate`: show the spinner and schedule the recalculation. */
    method StartRecalculate()
      requires Valid()
      modifies this
      ensures Valid()
      ensures isRecalculating && pendingRecalcs == old(pendingRecalcs) + 1 && !RecalculateEnabled()
      ensures rows == old(rows) && modalOpen == old(modalOpen) && selectedRowId == old(selectedRowId)
    {
      isRecalculating := true;
      pendingRecalcs := pendingRecalcs + 1;
    }

    /** The recalculation timer fires. */
    method CompleteRecalculate()
      requires Valid() && pendingRecalcs > 0
      modifies this
      ensures Valid()
      ensures rows == RecalculateAll(old(rows)) && Total() == RuleTotal(old(rows))
      ensures !isRecalculating && pendingRecalcs == old(pendingRecalcs) - 1 && RecalculateEnabled()
      ensures modalOpen == old(modalOpen) && selectedRowId == old(selectedRowId)
    {
      RecalculatedGrandTotal(rows);
      rows := RecalculateAll(rows);
      isRecalculating := false;
      pendingRecalcs := pendingRecalcs - 1;
    }

    /** `handleInputChange`. */
    method InputChange(id: string, e: Edit)
      requires Valid() && WellTyped(e)
      modifies this
      ensures Valid()
      ensures rows == ApplyEdit(old(rows), id, e)
      ensures isRecalculating == old(isRecalculating) && pendingRecalcs == old(pendingRecalcs)
      ensures modalOpen == old(modalOpen) && selectedRowId == old(selectedRowId)
    {
      rows := ApplyEdit(rows, id, e);
    }

    /** `handleSearchReset`. */
    method SearchReset(id: string)
      requires Valid()
      modifies this
      ensures Valid()
      ensures rows == ResetRow(old(rows), id)
      ensures isRecalculating == old(isRecalculating) && pendingRecalcs == old(pendingRecalcs)
      ensures modalOpen == old(modalOpen) && selectedRowId == old(selectedRowId)
    {
      SeedHeadersUnpriced();
      rows := ResetRow(rows, id);
    }

    /** `openCatalogueModal`. */
    method OpenCatalogue(id: string)
      requires Valid()
      modifies this
      ensures Valid()
      ensures selectedRowId == Some(id) && modalOpen
      ensures rows == old(rows) && isRecalculating == old(isRecalculating) && pendingRecalcs == old(pendingRecalcs)
    {
      selectedRowId := Some(id);
      modalOpen := true;
    }

    /** The dialog's Cancel button or backdrop: only the dialog closes. */
    method CloseCatalogue()
      requires Valid()
      modifies this
      ensures Valid()
      ensures !modalOpen
      ensures rows == old(rows) && selectedRowId == old(selectedRowId)
      ensures isRecalculating == old(isRecalculating) && pendingRecalcs == old(pendingRecalcs)
    {
      modalOpen := false;
    }

    /** The row the dialog is replacing: the first with the selected id. */
    function SelectedRow(): (found: Option<PricingRow>)
      reads this
      ensures selectedRowId.None? ==> found.None?
      ensures selectedRowId.Some? ==> (found.None? <==> forall i :: 0 <= i < |rows| ==> rows[i].id != selectedRowId.value)
      ensures found.Some? ==> exists i :: FirstWithId(rows, selectedRowId.value, i) && rows[i] == found.value
    {
      if selectedRowId.None? then None else FindById(rows, selectedRowId.value)
    }

    /** `handleCatalogueSelect`: with a (non-empty) selected id, the matching
        rows take the item's data, the dialog closes and a recalculation is
        scheduled, whether or not one is already running. */
    method CatalogueSelect(item: CatalogueItem)
      requires Valid()
      modifies this
      ensures Valid()
      ensures selectedRowId == old(selectedRowId)
      ensures old(selectedRowId).None? || old(selectedRowId).value == "" ==>
        rows == old(rows) && modalOpen == old(modalOpen) &&
        isRecalculating == old(isRecalculating) && pendingRecalcs == old(pendingRecalcs)
      ensures old(selectedRowId).Some? && old(selectedRowId).value != "" ==>
        rows == UpdateWhere(old(rows), old(selectedRowId).value, row => ReplaceFromCatalogue(row, item)) &&
        !modalOpen && isRecalculating && pendingRecalcs == old(pendingRecalcs) + 1
    {
      if selectedRowId.Some? && selectedRowId.value != "" {
        var target := selectedRowId.value;
        rows := UpdateWhere(rows, target, row => ReplaceFromCatalogue(row, item));
        modalOpen := false;
        StartRecalculate();
      }
    }
  }

  /** Selecting a catalogue item and letting the scheduled recalculation
      finish: the target item rows are priced from the catalogue prices with
      their own quantity and discount, every other row is just recalculated. */
  lemma SelectThenRecalculate(rows: seq<PricingRow>, id: string, item: CatalogueItem, i: int)
    requires 0 <= i < |rows|
    ensures var after := RecalculateAll(UpdateWhere(rows, id, row => ReplaceFromCatalogue(row, item)));
      |after| == |rows| &&
      (rows[i].id != id ==> after[i] == CalculateRow(rows[i])) &&
      (rows[i].id == id && !rows[i].isHeader ==>
        Priced(after[i]) && after[i].matchProbability == Some(1.0) &&
        after[i].quantity == rows[i].quantity && after[i].discount == rows[i].discount &&
        after[i].lineTotal.value == (item.price * (1.0 - rows[i].discount / 100.0) + item.assembly) * rows[i].quantity)
  {
    if rows[i].id == id && !rows[i].isHeader {
      ReplacedRowPricing(rows[i], item);
    }
  }
}
