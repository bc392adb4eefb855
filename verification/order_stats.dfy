/**
 * The admin order pages' statistics and their local status update. Both
 * pages count orders per status and add up the delivered orders' amounts;
 * they differ in how they spell the cancelled bucket and which amount they
 * add.
 */
module OrderStats {
  import opened Wrappers
  import opened Seqs
  import opened OrderStatus

  /** The `stats` object. */
  datatype Stats = Stats(
    total: nat,
    pending: nat,
    processing: nat,
    shipped: nat,
    delivered: nat,
    cancelled: nat,
    revenue: int)

  /** The number of orders whose status is `s`, counted from the back. */
  function Count(orders: seq<Order>, s: Status): (r: nat)
    ensures r <= |orders|
    decreases |orders|
  {
    if |orders| == 0 then 0
    else Count(orders[..|orders| - 1], s) + (if orders[|orders| - 1].status == s then 1 else 0)
  }

  /** The sum of `amount` over the delivered orders, counted from the back. */
  function DeliveredSum(orders: seq<Order>, amount: Order -> int): int
    decreases |orders|
  {
    if |orders| == 0 then 0
    else
      var last := orders[|orders| - 1];
      DeliveredSum(orders[..|orders| - 1], amount) + (if last.status == Delivered then amount(last) else 0)
  }

  /** `order.totalAmount`, the admin orders list's revenue field. */
  function TotalAmount(o: Order): int {
    o.totalAmount
  }

  /** `order.totalPrice || 0`, the admin order page's revenue field. */
  function TotalPriceOrZero(o: Order): int {
    if o.totalPrice.Some? then o.totalPrice.value else 0
  }

  /** The statistics the admin orders list shows, cancelled bucket keyed on `ORDER_STATUS.CANCELLED`. */
  method ListStats(orders: seq<Order>) returns (st: Stats)
    ensures st.total == |orders|
    ensures st.pending == Count(orders, Pending) && st.processing == Count(orders, Processing)
    ensures st.shipped == Count(orders, Shipped) && st.delivered == Count(orders, Delivered)
    // Keyed on an undefined constant, the bucket counts the orders that have no status.
    ensures st.cancelled == Count(orders, None)
    ensures st.revenue == DeliveredSum(orders, TotalAmount)
  {
    ConstantsResolve();
    st := Tally(orders, Constant("CANCELLED"), TotalAmount);
  }

  /** The statistics the admin order page shows, cancelled bucket keyed on the string 'cancelled'. */
  method DashboardStats(orders: seq<Order>) returns (st: Stats)
    ensures st.total == |orders|
    ensures st.pending == Count(orders, Pending) && st.processing == Count(orders, Processing)
    ensures st.shipped == Count(orders, Shipped) && st.delivered == Count(orders, Delivered)
    ensures st.cancelled == Count(orders, Cancelled)
    ensures st.revenue == DeliveredSum(orders, TotalPriceOrZero)
  {
    st := Tally(orders, Cancelled, TotalPriceOrZero);
  }

  /** The `forEach` both pages run, with the cancelled key and the revenue field as parameters. */
  method Tally(orders: seq<Order>, cancelledKey: Status, amount: Order -> int) returns (st: Stats)
    ensures st.total == |orders|
    ensures st.pending == Count(orders, Pending) && st.processing == Count(orders, Processing)
    ensures st.shipped == Count(orders, Shipped) && st.delivered == Count(orders, Delivered)
    ensures st.cancelled == Count(orders, cancelledKey)
    ensures st.revenue == DeliveredSum(orders, amount)
  {
    st := Stats(|orders|, 0, 0, 0, 0, 0, 0);
    var i := 0;
    while i < |orders|
      invariant 0 <= i <= |orders|
      invariant st.total == |orders|
      invariant st.pending == Count(orders[..i], Pending) && st.processing == Count(orders[..i], Processing)
      invariant st.shipped == Count(orders[..i], Shipped) && st.delivered == Count(orders[..i], Delivered)
      invariant st.cancelled == Count(orders[..i], cancelledKey)
      invariant st.revenue == DeliveredSum(orders[..i], amount)
    {
      var o := orders[i];
      assert orders[..i + 1][..i] == orders[..i];
      if o.status == Pending { st := st.(pending := st.pending + 1); }
      if o.status == Processing { st := st.(processing := st.processing + 1); }
      if o.status == Shipped { st := st.(shipped := st.shipped + 1); }
      if o.status == Delivered {
        st := st.(delivered := st.delivered + 1, revenue := st.revenue + amount(o));
      }
      if o.status == cancelledKey { st := st.(cancelled := st.cancelled + 1); }
      i := i + 1;
    }
    assert orders[..|orders|] == orders;
  }

  /** Counts of five distinct statuses never add up to more than the orders. */
  lemma {:induction false} DistinctCountsBounded(orders: seq<Order>, a: Status, b: Status, c: Status, d: Status, e: Status)
    requires a != b && a != c && a != d && a != e && b != c && b != d && b != e && c != d && c != e && d != e
    ensures Count(orders, a) + Count(orders, b) + Count(orders, c) + Count(orders, d) + Count(orders, e) <= |orders|
    decreases |orders|
  {
    if |orders| > 0 {
      DistinctCountsBounded(orders[..|orders| - 1], a, b, c, d, e);
    }
  }

  /** On both pages the five buckets are disjoint, so together they never exceed the total. */
  lemma BucketsBounded(orders: seq<Order>)
    ensures Count(orders, Pending) + Count(orders, Processing) + Count(orders, Shipped)
      + Count(orders, Delivered) + Count(orders, None) <= |orders|
    ensures Count(orders, Pending) + Count(orders, Processing) + Count(orders, Shipped)
      + Count(orders, Delivered) + Count(orders, Cancelled) <= |orders|
  {
    DistinctCountsBounded(orders, Pending, Processing, Shipped, Delivered, None);
    DistinctCountsBounded(orders, Pending, Processing, Shipped, Delivered, Cancelled);
  }

  /** A status that no order has is counted zero times. */
  lemma {:induction false} CountAbsent(orders: seq<Order>, s: Status)
    requires forall i :: 0 <= i < |orders| ==> orders[i].status != s
    ensures Count(orders, s) == 0
    decreases |orders|
  {
    if |orders| > 0 {
      CountAbsent(orders[..|orders| - 1], s);
    }
  }

  /** A status every order has is counted for each of them. */
  lemma {:induction false} CountAll(orders: seq<Order>, s: Status)
    requires forall i :: 0 <= i < |orders| ==> orders[i].status == s
    ensures Count(orders, s) == |orders|
    decreases |orders|
  {
    if |orders| > 0 {
      CountAll(orders[..|orders| - 1], s);
    }
  }

  /**
   * On the admin orders list the cancelled bucket stays at 0 whenever every
   * order has a status, even when every one of them is 'cancelled'; the
   * admin order page counts those orders.
   */
  lemma ListMissesCancelled(orders: seq<Order>)
    requires forall i :: 0 <= i < |orders| ==> orders[i].status == Cancelled
    ensures Count(orders, None) == 0
    ensures Count(orders, Cancelled) == |orders|
  {
    CountAbsent(orders, None);
    CountAll(orders, Cancelled);
  }

  /** What the status update request came back with. */
  datatype Answer = Threw | Answered(success: bool, message: Option<string>)

  /**
   * `handleStatusChange`'s local update. The success message upper-cases the
   * new status first, so an undefined status (the list's "Cancelled" option)
   * throws before the update and the orders stay as they were.
   */
  function UpdateStatus(orders: seq<Order>, orderId: string, newStatus: Status, answer: Answer): (r: seq<Order>)
    ensures |r| == |orders|
    ensures answer.Answered? && answer.success && newStatus.Some? ==>
      forall i :: 0 <= i < |orders| ==>
        r[i] == (if orders[i].id == orderId then orders[i].(status := newStatus) else orders[i])
    ensures !(answer.Answered? && answer.success && newStatus.Some?) ==> r == orders
  {
    if answer.Answered? && answer.success && newStatus.Some? then
      seq(|orders|, i requires 0 <= i < |orders| =>
        if orders[i].id == orderId then orders[i].(status := newStatus) else orders[i])
    else orders
  }

  /** The tests "has the id" and "has another id", as values. */
  function HasId(orderId: string): Order -> bool { (o: Order) => o.id == orderId }
  function OtherId(orderId: string): Order -> bool { (o: Order) => o.id != orderId }

  /** Counting with one more order at the end. */
  lemma CountSnoc(orders: seq<Order>, o: Order, s: Status)
    ensures Count(orders + [o], s) == Count(orders, s) + (if o.status == s then 1 else 0)
  {
    assert (orders + [o])[..|orders|] == orders;
  }

  /**
   * After a successful update, a bucket holds the orders with other ids that
   * were already in it, and the new status's bucket also holds every order
   * with the id: they all leave their old buckets for it.
   */
  lemma {:induction false} UpdatedOrdersCarryNewStatus(orders: seq<Order>, orderId: string, newStatus: Status, s: Status)
    requires newStatus.Some?
    ensures Count(UpdateStatus(orders, orderId, newStatus, Answered(true, None)), s)
      == Count(Keep(orders, OtherId(orderId)), s) + (if s == newStatus then |Keep(orders, HasId(orderId))| else 0)
    decreases |orders|
  {
    if |orders| > 0 {
      var init := orders[..|orders| - 1];
      var last := orders[|orders| - 1];
      UpdatedOrdersCarryNewStatus(init, orderId, newStatus, s);
      UpdateStep(init, last, orderId, newStatus, s);
      assert init + [last] == orders;
    }
  }

  /** The inductive step: the last order lands in the new bucket exactly when it has the id. */
  lemma UpdateStep(init: seq<Order>, last: Order, orderId: string, newStatus: Status, s: Status)
    requires newStatus.Some?
    requires Count(UpdateStatus(init, orderId, newStatus, Answered(true, None)), s)
      == Count(Keep(init, OtherId(orderId)), s) + (if s == newStatus then |Keep(init, HasId(orderId))| else 0)
    ensures Count(UpdateStatus(init + [last], orderId, newStatus, Answered(true, None)), s)
      == Count(Keep(init + [last], OtherId(orderId)), s) + (if s == newStatus then |Keep(init + [last], HasId(orderId))| else 0)
  {
    var moved := if last.id == orderId then last.(status := newStatus) else last;
    UpdateSnoc(init, last, orderId, newStatus);
    CountSnoc(UpdateStatus(init, orderId, newStatus, Answered(true, None)), moved, s);
    KeepSnoc(init, last, OtherId(orderId));
    KeepSnoc(init, last, HasId(orderId));
    if last.id == orderId {
      assert HasId(orderId)(last) && !OtherId(orderId)(last);
      assert Keep(init + [last], OtherId(orderId)) == Keep(init, OtherId(orderId)) + [];
      assert Keep(init, OtherId(orderId)) + [] == Keep(init, OtherId(orderId));
      assert |Keep(init + [last], HasId(orderId))| == |Keep(init, HasId(orderId))| + 1;
    } else {
      assert OtherId(orderId)(last) && !HasId(orderId)(last);
      assert Keep(init + [last], HasId(orderId)) == Keep(init, HasId(orderId)) + [];
      assert Keep(init + [last], OtherId(orderId)) == Keep(init, OtherId(orderId)) + [last];
      CountSnoc(Keep(init, OtherId(orderId)), last, s);
    }
  }

  /** Updating a list with one more order at the end updates that order on its own. */
  lemma UpdateSnoc(init: seq<Order>, last: Order, orderId: string, newStatus: Status)
    requires newStatus.Some?
    ensures UpdateStatus(init + [last], orderId, newStatus, Answered(true, None))
      == UpdateStatus(init, orderId, newStatus, Answered(true, None))
         + [if last.id == orderId then last.(status := newStatus) else last]
  {
    var whole := UpdateStatus(init + [last], orderId, newStatus, Answered(true, None));
    var front := UpdateStatus(init, orderId, newStatus, Answered(true, None));
    assert |whole| == |front| + 1;
    forall k | 0 <= k < |init|
      ensures whole[k] == front[k]
    {
      assert (init + [last])[k] == init[k];
    }
  }

  /** With unique ids, a successful update moves the one order with the id into the new status's bucket. */
  lemma UpdateMovesOneOrder(orders: seq<Order>, orderId: string, newStatus: Status, i: int)
    requires newStatus.Some?
    requires 0 <= i < |orders| && orders[i].id == orderId
    requires forall j :: 0 <= j < |orders| && j != i ==> orders[j].id != orderId
    ensures Count(UpdateStatus(orders, orderId, newStatus, Answered(true, None)), newStatus)
      == Count(Keep(orders, OtherId(orderId)), newStatus) + 1
  {
    UpdatedOrdersCarryNewStatus(orders, orderId, newStatus, newStatus);
    KeepSingle(orders, HasId(orderId), i);
  }
}
