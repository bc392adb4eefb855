/**
 * Order statuses as the pages see them. A status is a string that may be
 * missing. `ORDER_STATUS` names five statuses; reading one of its absent
 * keys (`CANCELLED`, `PAYMENT_FAILED`) gives undefined, and `===` between
 * undefined and undefined holds, so code written with those constants tests
 * for a missing status rather than for the string the name suggests.
 */
module OrderStatus {
  import opened Wrappers
  import Guards
  import Routes

  /** `order.status`: None when the field is missing. */
  type Status = Option<string>

  /** The `ORDER_STATUS` object. */
  const OrderStatusTable: map<string, string> := map[
    "PENDING" := "pending",
    "PROCESSING" := "processing",
    "SHIPPED" := "shipped",
    "DELIVERED" := "delivered",
    "COMPLETED" := "completed"]

  /** `ORDER_STATUS[key]`. */
  function Constant(key: string): (r: Status)
    ensures r.Some? <==> key in OrderStatusTable
  {
    if key in OrderStatusTable then Some(OrderStatusTable[key]) else None
  }

  const Pending: Status := Some("pending")
  const Processing: Status := Some("processing")
  const Shipped: Status := Some("shipped")
  const Delivered: Status := Some("delivered")
  const Cancelled: Status := Some("cancelled")
  const PaymentFailed: Status := Some("payment_failed")

  /** The table holds exactly the five forward statuses; the two failure keys are absent. */
  lemma ConstantsResolve()
    ensures Constant("PENDING") == Pending && Constant("PROCESSING") == Processing
    ensures Constant("SHIPPED") == Shipped && Constant("DELIVERED") == Delivered
    ensures Constant("COMPLETED") == Some("completed")
    ensures Constant("CANCELLED") == None && Constant("PAYMENT_FAILED") == None
    ensures |OrderStatusTable| == 5
  {
    assert OrderStatusTable.Keys == {"PENDING", "PROCESSING", "SHIPPED", "DELIVERED", "COMPLETED"};
  }

  /** `status` is one of the two failure statuses, spelled as strings. */
  predicate IsFailure(status: Status) {
    status == Cancelled || status == PaymentFailed
  }

  /** `setCurrentStepFromStatus` written with string literals for the failures (admin order detail). */
  function StepByLiterals(status: Status): (r: int)
    ensures -1 <= r <= 3
    ensures r == -1 <==> IsFailure(status)
    ensures status == Pending ==> r == 0
    ensures status == Processing ==> r == 1
    ensures status == Shipped ==> r == 2
    ensures status == Delivered ==> r == 3
    ensures !IsFailure(status) && status !in {Processing, Shipped, Delivered} ==> r == 0
  {
    if status == Constant("PENDING") then 0
    else if status == Constant("PROCESSING") then 1
    else if status == Constant("SHIPPED") then 2
    else if status == Constant("DELIVERED") then 3
    else if status == Cancelled || status == PaymentFailed then -1
    else 0
  }

  /** `setCurrentStepFromStatus` written with the constants throughout (customer order detail). */
  function StepByConstants(status: Status): (r: int)
    ensures -1 <= r <= 3
    // Only a missing status reaches the failure step; no string does.
    ensures r == -1 <==> status.None?
    ensures status == Pending ==> r == 0
    ensures status == Processing ==> r == 1
    ensures status == Shipped ==> r == 2
    ensures status == Delivered ==> r == 3
  {
    if status == Constant("PENDING") then 0
    else if status == Constant("PROCESSING") then 1
    else if status == Constant("SHIPPED") then 2
    else if status == Constant("DELIVERED") then 3
    else if status == Constant("CANCELLED") || status == Constant("PAYMENT_FAILED") then -1
    else 0
  }

  /**
   * The two step mappings agree on every status except the two failure
   * strings and a missing status; a cancelled order shows as just placed on
   * the customer's page.
   */
  lemma StepMappingsDiffer(status: Status)
    ensures StepByConstants(status) == StepByLiterals(status) <==> !IsFailure(status) && status.Some?
    ensures StepByConstants(Cancelled) == 0 && StepByLiterals(Cancelled) == -1
    ensures StepByConstants(PaymentFailed) == 0 && StepByLiterals(PaymentFailed) == -1
  {
  }

  /** Tag colours. */
  datatype Color = Blue | Orange | Cyan | Green | Red | DefaultColor

  /** `getStatusTagColor` written with string literals for the failures (admin order list and detail). */
  function ColorByLiterals(status: Status): (r: Color)
    ensures r == Red <==> IsFailure(status)
    ensures r == Blue <==> status == Pending
    ensures r == Orange <==> status == Processing
    ensures r == Cyan <==> status == Shipped
    ensures r == Green <==> status == Delivered
    ensures r == DefaultColor <==> !IsFailure(status) && status !in {Pending, Processing, Shipped, Delivered}
  {
    if status == Constant("PENDING") then Blue
    else if status == Constant("PROCESSING") then Orange
    else if status == Constant("SHIPPED") then Cyan
    else if status == Constant("DELIVERED") then Green
    else if status == Cancelled || status == PaymentFailed then Red
    else DefaultColor
  }

  /** `getStatusTagColor` written with the constants throughout (customer pages, admin orders list). */
  function ColorByConstants(status: Status): (r: Color)
    ensures r == Red <==> status.None?
    ensures r == Blue <==> status == Pending
    ensures r == Orange <==> status == Processing
    ensures r == Cyan <==> status == Shipped
    ensures r == Green <==> status == Delivered
    ensures r == DefaultColor <==> status.Some? && status !in {Pending, Processing, Shipped, Delivered}
  {
    if status == Constant("PENDING") then Blue
    else if status == Constant("PROCESSING") then Orange
    else if status == Constant("SHIPPED") then Cyan
    else if status == Constant("DELIVERED") then Green
    else if status == Constant("CANCELLED") || status == Constant("PAYMENT_FAILED") then Red
    else DefaultColor
  }

  /** The colour and the step agree on which statuses are failures. */
  lemma RedIffFailureStep(status: Status)
    ensures ColorByLiterals(status) == Red <==> StepByLiterals(status) == -1
    ensures ColorByConstants(status) == Red <==> StepByConstants(status) == -1
  {
  }

  /** The colour mappings differ only on the failure strings and on a missing status. */
  lemma ColorMappingsDiffer(status: Status)
    ensures ColorByConstants(status) == ColorByLiterals(status) <==> !IsFailure(status) && status.Some?
    ensures ColorByConstants(Cancelled) == DefaultColor && ColorByLiterals(Cancelled) == Red
  {
  }

  /** The status card of the admin order detail. */
  datatype Panel = Progress(current: int) | FailurePanel(cancelled: bool)

  /** Steps for a non-negative step; otherwise the failure panel, titled "Order Cancelled" only for 'cancelled'. */
  function DetailPanel(status: Status): (r: Panel)
    ensures r.Progress? <==> !IsFailure(status)
    ensures r.Progress? ==> 0 <= r.current <= 3 && r.current == StepByLiterals(status)
    ensures r.FailurePanel? ==> (r.cancelled <==> status == Cancelled)
  {
    var step := StepByLiterals(status);
    if step >= 0 then Progress(step) else FailurePanel(status == Some("cancelled"))
  }

  /** "Add Tracking" is offered for a processing order only. */
  predicate CanAddTracking(status: Status) {
    status == Constant("PROCESSING")
  }

  /** The admin order detail's status selector. */
  const DetailStatusOptions: seq<Status> :=
    [Constant("PENDING"), Constant("PROCESSING"), Constant("SHIPPED"), Constant("DELIVERED")]

  /** The selector offers the four forward statuses, each with its own step, and no failure. */
  lemma DetailOptionsAreForward()
    ensures DetailStatusOptions == [Pending, Processing, Shipped, Delivered]
    ensures forall i :: 0 <= i < |DetailStatusOptions| ==> StepByLiterals(DetailStatusOptions[i]) == i
    ensures forall i :: 0 <= i < |DetailStatusOptions| ==> DetailPanel(DetailStatusOptions[i]).Progress?
    ensures forall i :: 0 <= i < |DetailStatusOptions| ==> (CanAddTracking(DetailStatusOptions[i]) <==> i == 1)
  {
    ConstantsResolve();
  }

  /** An order as the pages read it. Amounts are integer cents; dates are timestamps. */
  datatype Order = Order(
    id: string,
    status: Status,
    totalAmount: int,
    totalPrice: Option<int>,
    customerName: Option<string>,
    payerEmail: Option<string>,
    createdAt: int,
    itemCount: Option<nat>)

  /** Where the customer order detail takes the order from. */
  datatype Source = FromNavigationState(order: Order) | Fetch(id: string) | NoSource

  /** Navigation state wins; otherwise the order is fetched by id, if there is one. */
  function SourceOfOrder(navigationState: Option<Order>, id: Option<string>): (r: Source)
    ensures navigationState.Some? ==> r == FromNavigationState(navigationState.value)
    ensures r.Fetch? <==> navigationState.None? && id.Some? && id.value != ""
    ensures r.Fetch? ==> r.id == id.value
  {
    if navigationState.Some? then FromNavigationState(navigationState.value)
    else if id.Some? && id.value != "" then Fetch(id.value)
    else NoSource
  }

  /** The customer list's items column: `items?.length || 0`. */
  function ItemsColumn(o: Order): (r: nat)
    ensures o.itemCount.None? ==> r == 0
    ensures o.itemCount.Some? ==> r == o.itemCount.value
  {
    if o.itemCount.Some? && o.itemCount.value != 0 then o.itemCount.value else 0
  }

  /** What the customer order list renders. */
  datatype ListView = LoadingSpinner | EmptyState(message: string, buttonTarget: string) | OrderTable(rows: seq<Order>)

  const NoOrdersYet := "You haven't placed any orders yet"

  /** The customer order list: a spinner while loading, the empty state for no orders, the table otherwise. */
  function OrderListView(loading: bool, orders: seq<Order>): (r: ListView)
    ensures r.LoadingSpinner? <==> loading
    // The empty state replaces the table exactly when loading found no orders.
    ensures r.EmptyState? <==> !loading && |orders| == 0
    ensures r.EmptyState? ==> r.message == NoOrdersYet && r.buttonTarget == "/products"
    ensures r.OrderTable? ==> r.rows == orders && |orders| > 0
  {
    if loading then LoadingSpinner
    else if |orders| == 0 then EmptyState(NoOrdersYet, "/products")
    else OrderTable(orders)
  }

  /** The empty state's "Start Shopping" button opens the product list, a page for signed-in users. */
  lemma EmptyStateOpensShop(orders: seq<Order>)
    requires |orders| == 0
    ensures OrderListView(false, orders).EmptyState?
    ensures Routes.Resolve(OrderListView(false, orders).buttonTarget)
      == (Routes.ProductListPage, Routes.Guarded(Guards.User))
  {
    Routes.ResolvesProductList();
  }
}
