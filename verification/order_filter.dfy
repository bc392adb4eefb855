/**
 * The admin orders list's filter effect: a text search over id, customer
 * name and payer email, a status filter, and a date range, applied one
 * after the other.
 */
module OrderFilter {
  import opened Wrappers
  import opened Seqs
  import opened Text
  import opened Js
  import opened OrderStatus
  import opened OrderStats

  /** `field.toLowerCase().includes(search.toLowerCase())`. */
  predicate MatchesText(field: string, search: string) {
    Includes(ToLower(field), ToLower(search))
  }

  /** The search test: the id, or a present name, or a present payer email contains the text. */
  predicate MatchesSearch(o: Order, search: string) {
    || MatchesText(o.id, search)
    || (Truthy(o.customerName) && MatchesText(o.customerName.value, search))
    || (Truthy(o.payerEmail) && MatchesText(o.payerEmail.value, search))
  }

  /** The range picker's value: null, or a pair whose ends may be missing. */
  type DateRange = Option<(Option<int>, Option<int>)>

  /** The range filter applies only when both ends are set. */
  predicate RangeActive(range: DateRange) {
    range.Some? && range.value.0.Some? && range.value.1.Some?
  }

  predicate InRange(o: Order, range: DateRange) {
    RangeActive(range) && range.value.0.value <= o.createdAt <= range.value.1.value
  }

  /** The value of the "All Statuses" option. */
  const AllStatuses: Status := Some("all")

  /** Whether one order survives every active filter. */
  predicate Passes(o: Order, search: string, status: Status, range: DateRange) {
    && (search == "" || MatchesSearch(o, search))
    && (status == AllStatuses || o.status == status)
    && (!RangeActive(range) || InRange(o, range))
  }

  /** `if (active) result = result.filter(p)`. */
  function KeepWhen(xs: seq<Order>, active: bool, p: Order -> bool): seq<Order> {
    if active then Keep(xs, p) else xs
  }

  /** A filter applied only when active is a filter by "inactive or passes". */
  lemma KeepWhenIsKeep(xs: seq<Order>, active: bool, p: Order -> bool, q: Order -> bool)
    requires forall o :: q(o) == (!active || p(o))
    ensures KeepWhen(xs, active, p) == Keep(xs, q)
  {
    if active {
      KeepCongruent(xs, p, q);
    } else {
      KeepAll(xs, q);
    }
  }

  // The tests as values, so that each is one term wherever it appears.
  function SearchTest(search: string): Order -> bool { (o: Order) => MatchesSearch(o, search) }
  function StatusTest(status: Status): Order -> bool { (o: Order) => o.status == status }
  function RangeTest(range: DateRange): Order -> bool { (o: Order) => InRange(o, range) }
  function SearchStage(search: string): Order -> bool { (o: Order) => search == "" || MatchesSearch(o, search) }
  function StatusStage(status: Status): Order -> bool { (o: Order) => status == AllStatuses || o.status == status }
  function RangeStage(range: DateRange): Order -> bool { (o: Order) => !RangeActive(range) || InRange(o, range) }
  function PassTest(search: string, status: Status, range: DateRange): Order -> bool {
    (o: Order) => Passes(o, search, status, range)
  }

  /** The filter effect. */
  function Filter(orders: seq<Order>, search: string, status: Status, range: DateRange): (r: seq<Order>)
    // The shown list keeps the order of the fetched one and drops only.
    ensures IsSubsequence(r, orders)
    // An order is shown exactly when it passes every active filter.
    ensures forall o :: o in r <==> o in orders && Passes(o, search, status, range)
  {
    var afterSearch := KeepWhen(orders, search != "", SearchTest(search));
    var afterStatus := KeepWhen(afterSearch, status != AllStatuses, StatusTest(status));
    var r := KeepWhen(afterStatus, RangeActive(range), RangeTest(range));
    FilterIsOneKeep(orders, search, status, range);
    KeepIsSubsequence(orders, PassTest(search, status, range));
    KeepMembers(orders, PassTest(search, status, range));
    r
  }

  /** Each stage, applied when active, is a filter by its stage test. */
  lemma StagesAreKeeps(orders: seq<Order>, search: string, status: Status, range: DateRange)
    ensures KeepWhen(orders, search != "", SearchTest(search)) == Keep(orders, SearchStage(search))
    ensures KeepWhen(Keep(orders, SearchStage(search)), status != AllStatuses, StatusTest(status))
      == Keep(Keep(orders, SearchStage(search)), StatusStage(status))
    ensures KeepWhen(Keep(Keep(orders, SearchStage(search)), StatusStage(status)), RangeActive(range), RangeTest(range))
      == Keep(Keep(Keep(orders, SearchStage(search)), StatusStage(status)), RangeStage(range))
  {
    var s1 := Keep(orders, SearchStage(search));
    KeepWhenIsKeep(orders, search != "", SearchTest(search), SearchStage(search));
    KeepWhenIsKeep(s1, status != AllStatuses, StatusTest(status), StatusStage(status));
    KeepWhenIsKeep(Keep(s1, StatusStage(status)), RangeActive(range), RangeTest(range), RangeStage(range));
  }

  /** Three stage filters in a row are one filter by their conjunction. */
  lemma StagesCombine(orders: seq<Order>, search: string, status: Status, range: DateRange)
    ensures Keep(Keep(Keep(orders, SearchStage(search)), StatusStage(status)), RangeStage(range))
      == Keep(orders, PassTest(search, status, range))
  {
    var p1 := SearchStage(search);
    var p2 := StatusStage(status);
    var p3 := RangeStage(range);
    KeepKeep(orders, p1, p2);
    KeepKeep(orders, Both(p1, p2), p3);
    KeepCongruent(orders, Both(Both(p1, p2), p3), PassTest(search, status, range));
  }

  /** The three filters in a row are one filter by the conjunction. */
  lemma FilterIsOneKeep(orders: seq<Order>, search: string, status: Status, range: DateRange)
    ensures
      KeepWhen(KeepWhen(KeepWhen(orders, search != "", SearchTest(search)), status != AllStatuses, StatusTest(status)),
               RangeActive(range), RangeTest(range))
        == Keep(orders, PassTest(search, status, range))
  {
    StagesAreKeeps(orders, search, status, range);
    StagesCombine(orders, search, status, range);
  }

  /** With no search text, every status and no range, the whole list is shown. */
  lemma NoFilterShowsAll(orders: seq<Order>, range: DateRange)
    requires !RangeActive(range)
    ensures Filter(orders, "", AllStatuses, range) == orders
  {
  }

  /** The number of orders a filter keeps, counted from the back. */
  lemma {:induction false} KeepStatusCount(orders: seq<Order>, s: Status)
    ensures |Keep(orders, StatusTest(s))| == Count(orders, s)
    decreases |orders|
  {
    if |orders| > 0 {
      var init := orders[..|orders| - 1];
      KeepStatusCount(init, s);
      assert init + [orders[|orders| - 1]] == orders;
      KeepSnoc(init, orders[|orders| - 1], StatusTest(s));
    }
  }

  /** A status filter alone keeps exactly the orders with that status, as many as the bucket counts. */
  lemma StatusFilterExact(orders: seq<Order>, s: Status, range: DateRange)
    requires s != AllStatuses && !RangeActive(range)
    ensures Filter(orders, "", s, range) == Keep(orders, StatusTest(s))
    ensures |Filter(orders, "", s, range)| == Count(orders, s)
  {
    KeepStatusCount(orders, s);
  }

  /** The status filter's options, as the list page writes them. */
  const FilterOptions: seq<Status> :=
    [AllStatuses, Constant("PENDING"), Constant("PROCESSING"), Constant("SHIPPED"), Constant("DELIVERED"), Constant("CANCELLED")]

  /** The same options with the cancelled one spelled as the string. */
  const CorrectedFilterOptions: seq<Status> :=
    [AllStatuses, Pending, Processing, Shipped, Delivered, Cancelled]

  /**
   * Picking "Cancelled" from the options as written shows only orders
   * without a status; no cancelled order is ever shown.
   */
  lemma CancelledOptionShowsNoCancelled(orders: seq<Order>, range: DateRange)
    requires !RangeActive(range)
    ensures FilterOptions[5] == None
    ensures forall o :: o in Filter(orders, "", FilterOptions[5], range) ==> o.status.None?
    ensures forall o :: o in orders && o.status == Cancelled ==> o !in Filter(orders, "", FilterOptions[5], range)
  {
    ConstantsResolve();
  }

  /** With the corrected options, "Cancelled" shows exactly the cancelled orders, as many as the bucket counts. */
  lemma CorrectedCancelledOption(orders: seq<Order>, range: DateRange)
    requires !RangeActive(range)
    ensures forall o :: o in Filter(orders, "", CorrectedFilterOptions[5], range) <==> o in orders && o.status == Cancelled
    ensures |Filter(orders, "", CorrectedFilterOptions[5], range)| == Count(orders, Cancelled)
  {
    StatusFilterExact(orders, Cancelled, range);
  }

  /** Search is case-insensitive in the ASCII letters: the id always matches a search for itself. */
  lemma {:induction false} IdMatchesItself(o: Order)
    requires o.id != ""
    ensures Passes(o, o.id, AllStatuses, None)
  {
    assert StartsWith(ToLower(o.id), ToLower(o.id)) by {
      assert ToLower(o.id)[..|ToLower(o.id)|] == ToLower(o.id);
    }
  }
}
