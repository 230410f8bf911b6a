/** The order list page: the `Order` record, the search filter over the
    fixed order list, and the status badge. */
module Orders {
  import opened Common
  import opened Text

  datatype Status = New | InProgress | Completed

  /** An order; `date` is the ISO calendar date it was created. */
  datatype Order = Order(id: string, name: string, code: string, customer: string, date: string, status: Status)

  /** The three orders the page lists. */
  function MockOrders(): seq<Order> {
    [ Order("1", "Pelhřimov SPŠ a SOU Křemešnická", "088N", "Stavební firma s.r.o.", "2026-02-09", InProgress),
      Order("2", "Bytový dům Praha 5", "089N", "Development Group", "2026-02-08", New),
      Order("3", "Rekonstrukce kanceláří Brno", "085N", "Office Parks a.s.", "2026-01-25", Completed) ]
  }

  /** Case-insensitive match of the search term against name, code or customer. */
  predicate OrderMatches(term: string, o: Order) {
    Contains(Lower(o.name), Lower(term)) ||
    Contains(Lower(o.code), Lower(term)) ||
    Contains(Lower(o.customer), Lower(term))
  }

  /** The orders the table lists for a search term. */
  function FilteredOrders(orders: seq<Order>, term: string): (r: seq<Order>)
    ensures forall o :: o in r ==> o in orders && OrderMatches(term, o)
  {
    Filter(o => OrderMatches(term, o), orders)
  }

  /** An order is listed exactly when it is in the list and matches, and a
      matching order is listed as often as it occurs. */
  lemma FilteredOrdersMembership(orders: seq<Order>, term: string, o: Order)
    ensures o in FilteredOrders(orders, term) <==> o in orders && OrderMatches(term, o)
    ensures multiset(FilteredOrders(orders, term))[o] == if OrderMatches(term, o) then multiset(orders)[o] else 0
  {
    FilterMembership(o => OrderMatches(term, o), orders, o);
    FilterCount(o => OrderMatches(term, o), orders, o);
  }

  /** The listed orders keep the order of the full list. */
  lemma FilteredOrdersKeepOrder(orders: seq<Order>, term: string)
    ensures IsSubsequence(FilteredOrders(orders, term), orders)
  {
    FilterIsSubsequence(o => OrderMatches(term, o), orders);
  }

  /** With an empty search box every order is listed. */
  lemma FilteredOrdersEmptyTerm(orders: seq<Order>)
    ensures FilteredOrders(orders, "") == orders
  {
    forall i | 0 <= i < |orders| ensures OrderMatches("", orders[i]) {
      ContainsEmpty(Lower(orders[i].name));
    }
    FilterKeepsAll(o => OrderMatches("", o), orders);
  }

  /** The "No orders found" panel replaces the table. */
  predicate ShowsEmptyState(orders: seq<Order>, term: string) {
    |FilteredOrders(orders, term)| == 0
  }

  /** The empty state is shown exactly when no order matches the term. */
  lemma EmptyStateExactlyWhenNoMatch(orders: seq<Order>, term: string)
    ensures ShowsEmptyState(orders, term) <==> forall i :: 0 <= i < |orders| ==> !OrderMatches(term, orders[i])
  {
    FilterEmpty(o => OrderMatches(term, o), orders);
  }

  datatype BadgeVariant = Success | Warning | Secondary

  /** The badge colour of a status. */
  function StatusVariant(s: Status): (v: BadgeVariant)
    ensures v == Success <==> s == Completed
    ensures v == Warning <==> s == InProgress
    ensures v == Secondary <==> s == New
  {
    match s
    case Completed => Success
    case InProgress => Warning
    case New => Secondary
  }

  /** The badge text of a status. */
  function StatusLabel(s: Status): (l: string)
    ensures s == InProgress ==> l == "In Progress"
    ensures s == New ==> l == "New"
    ensures s == Completed ==> l == "Completed"
  {
    match s
    case InProgress => "In Progress"
    case New => "New"
    case Completed => "Completed"
  }

  /** Different statuses never share a label or a colour. */
  lemma StatusBadgeInjective(s: Status, t: Status)
    requires s != t
    ensures StatusLabel(s) != StatusLabel(t)
    ensures StatusVariant(s) != StatusVariant(t)
  {
  }
}
