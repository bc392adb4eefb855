/**
 * The cart page: the server's cart rows, the set of ticked row keys, the
 * subtotal of the ticked rows, and the handlers for quantity, removal and
 * checkout. Server answers are parameters.
 */
module CartPage {
  import opened Wrappers
  import opened Js
  import opened Seqs
  import opened Api
  import opened Routes

  /** One server cart row. `price` is `productDetails?.price` in cents. */
  datatype Row = Row(key: string, productId: string, price: Option<int>, quantity: int, productExists: Option<bool>)

  /** What a cart request came back with. */
  datatype Answer = Threw | Answered(success: bool, message: Option<string>)

  /** `(productDetails?.price || 0) * quantity`. */
  function LineAmount(r: Row): int {
    (if r.price.Some? then r.price.value else 0) * r.quantity
  }

  /** The row is ticked. */
  predicate Ticked(r: Row, selected: seq<string>) {
    r.key in selected
  }

  /** The subtotal of the ticked rows among `rows`, built from the last row backwards. */
  function TickedTotal(rows: seq<Row>, selected: seq<string>): int
    decreases |rows|
  {
    if |rows| == 0 then 0
    else
      var last := rows[|rows| - 1];
      TickedTotal(rows[..|rows| - 1], selected) + (if Ticked(last, selected) then LineAmount(last) else 0)
  }

  /** The sum of the line amounts of `rows`, front to back: `reduce` over a list. */
  function LineSum(rows: seq<Row>): int
    decreases |rows|
  {
    if |rows| == 0 then 0 else LineAmount(rows[0]) + LineSum(rows[1..])
  }

  /** The effect that computes `totalPrice`: filter the ticked rows, then add their line amounts. */
  method SelectedTotal(rows: seq<Row>, selected: seq<string>) returns (total: int)
    ensures total == TickedTotal(rows, selected)
    ensures total == LineSum(Keep(rows, (r: Row) => Ticked(r, selected)))
  {
    total := 0;
    var i := 0;
    while i < |rows|
      invariant 0 <= i <= |rows|
      invariant total == TickedTotal(rows[..i], selected)
    {
      assert rows[..i + 1][..i] == rows[..i];
      if rows[i].key in selected {
        total := total + LineAmount(rows[i]);
      }
      i := i + 1;
    }
    assert rows[..|rows|] == rows;
    FilterThenReduce(rows, selected);
  }

  /** Appending a row adds its line amount to the front-to-back sum. */
  lemma {:induction false} LineSumAppend(rows: seq<Row>, r: Row)
    ensures LineSum(rows + [r]) == LineSum(rows) + LineAmount(r)
    decreases |rows|
  {
    if |rows| == 0 {
      assert [] + [r] == [r];
      assert [r][1..] == [];
    } else {
      assert (rows + [r])[1..] == rows[1..] + [r];
      LineSumAppend(rows[1..], r);
    }
  }

  /** The running subtotal is the `filter`-then-`reduce` of the source. */
  lemma {:induction false} FilterThenReduce(rows: seq<Row>, selected: seq<string>)
    ensures TickedTotal(rows, selected) == LineSum(Keep(rows, (r: Row) => Ticked(r, selected)))
    decreases |rows|
  {
    var p := (r: Row) => Ticked(r, selected);
    if |rows| > 0 {
      var init := rows[..|rows| - 1];
      var last := rows[|rows| - 1];
      FilterThenReduce(init, selected);
      assert init + [last] == rows;
      KeepSnoc(init, last, p);
      if p(last) {
        LineSumAppend(Keep(init, p), last);
      } else {
        assert Keep(init, p) + [] == Keep(init, p);
      }
    }
  }

  /** Nothing ticked, nothing to pay. */
  lemma {:induction false} EmptySelectionTotalsZero(rows: seq<Row>)
    ensures TickedTotal(rows, []) == 0
    decreases |rows|
  {
    if |rows| > 0 {
      EmptySelectionTotalsZero(rows[..|rows| - 1]);
    }
  }

  /** The page state the handlers change. */
  datatype PageState = PageState(rows: seq<Row>, selected: seq<string>)

  const UpdateFailed := "Không thể cập nhật giỏ hàng"
  const UpdateSucceeded := "Cập nhật giỏ hàng thành công"
  const RemoveFailed := "Không thể xóa sản phẩm"
  const RemoveSucceeded := "Đã xóa sản phẩm khỏi giỏ hàng"
  const NothingSelected := "Vui lòng chọn ít nhất một sản phẩm để thanh toán"

  /** The error toast when a request did not succeed: the server's message if it gave one. */
  function FailureToast(a: Answer, fallback: string): Effect {
    ToastError(if a.Answered? && Truthy(a.message) then a.message.value else fallback)
  }

  /**
   * The value the quantity input reports is usable: present and at least 1
   * (`null < 1` holds in JavaScript, so a cleared input is ignored too).
   */
  predicate UsableQuantity(value: Option<int>) {
    value.Some? && value.value >= 1
  }

  /** `handleQuantityChange`: the new state, whether a request was sent, and the toast. */
  function QuantityChange(st: PageState, record: Row, value: Option<int>, answer: Answer): (r: (PageState, bool, seq<Effect>))
    // A value below 1 sends nothing and changes nothing.
    ensures !UsableQuantity(value) ==> r == (st, false, [])
    ensures UsableQuantity(value) ==> r.1
    // Only a successful answer touches the rows: every row with the record's key takes the value.
    ensures |r.0.rows| == |st.rows| && r.0.selected == st.selected
    ensures forall i :: 0 <= i < |st.rows| ==>
      r.0.rows[i] == (if UsableQuantity(value) && answer.Answered? && answer.success && st.rows[i].key == record.key
                      then st.rows[i].(quantity := value.value) else st.rows[i])
    ensures r.0.rows != st.rows ==> answer.Answered? && answer.success
  {
    if !UsableQuantity(value) then (st, false, [])
    else if answer.Answered? && answer.success then
      var rows := seq(|st.rows|, i requires 0 <= i < |st.rows| =>
        if st.rows[i].key == record.key then st.rows[i].(quantity := value.value) else st.rows[i]);
      (st.(rows := rows), true, [ToastSuccess(UpdateSucceeded)])
    else (st, true, [FailureToast(answer, UpdateFailed)])
  }

  /** Repeating a quantity change with the same answer changes nothing more. */
  lemma QuantityChangeIdempotent(st: PageState, record: Row, value: Option<int>, answer: Answer)
    ensures QuantityChange(QuantityChange(st, record, value, answer).0, record, value, answer).0
      == QuantityChange(st, record, value, answer).0
  {
    var once := QuantityChange(st, record, value, answer).0;
    var twice := QuantityChange(once, record, value, answer).0;
    assert |twice.rows| == |once.rows|;
    forall i | 0 <= i < |once.rows|
      ensures twice.rows[i] == once.rows[i]
    {
      assert once.rows[i].key == st.rows[i].key;
    }
  }

  /** The tests "has the key" and "has another key", as values. */
  function KeyIs(key: string): Row -> bool { (x: Row) => x.key == key }
  function KeyIsNot(key: string): Row -> bool { (x: Row) => x.key != key }
  function OtherKey(key: string): string -> bool { (k: string) => k != key }

  /** `cartItems.filter(item => item.key !== key)`. */
  function RowsWithout(rows: seq<Row>, key: string): (r: seq<Row>)
    ensures forall i :: 0 <= i < |r| ==> r[i].key != key
    ensures IsSubsequence(r, rows)
    ensures forall x :: x in r <==> x in rows && x.key != key
    ensures forall x :: multiset(r)[x] == if x.key != key then multiset(rows)[x] else 0
  {
    KeepCounts(rows, KeyIsNot(key));
    KeepIsSubsequence(rows, KeyIsNot(key));
    KeepMembers(rows, KeyIsNot(key));
    var r := Keep(rows, KeyIsNot(key));
    assert forall i :: 0 <= i < |r| ==> r[i] in r;
    r
  }

  /** `selectedRowKeys.filter(k => k !== key)`. */
  function KeysWithout(selected: seq<string>, key: string): (r: seq<string>)
    ensures key !in r
    ensures IsSubsequence(r, selected)
    ensures forall k :: k in r <==> k in selected && k != key
    ensures forall k :: multiset(r)[k] == if k != key then multiset(selected)[k] else 0
  {
    KeepCounts(selected, OtherKey(key));
    KeepIsSubsequence(selected, OtherKey(key));
    KeepMembers(selected, OtherKey(key));
    Keep(selected, OtherKey(key))
  }

  /** `handleRemoveItem`. */
  function RemoveItem(st: PageState, record: Row, answer: Answer): (r: (PageState, seq<Effect>))
    // A successful removal drops the key from both the rows and the selection.
    ensures answer.Answered? && answer.success ==>
      && (forall i :: 0 <= i < |r.0.rows| ==> r.0.rows[i].key != record.key)
      && record.key !in r.0.selected
      && IsSubsequence(r.0.rows, st.rows) && IsSubsequence(r.0.selected, st.selected)
    // Every copy of every other row and every other ticked key stays.
    ensures answer.Answered? && answer.success ==>
      && (forall x :: multiset(r.0.rows)[x] == if x.key != record.key then multiset(st.rows)[x] else 0)
      && (forall k :: multiset(r.0.selected)[k] == if k != record.key then multiset(st.selected)[k] else 0)
    ensures answer.Answered? && answer.success ==> r.1 == [ToastSuccess(RemoveSucceeded)]
    // Otherwise nothing changes and the error is shown.
    ensures !(answer.Answered? && answer.success) ==> r == (st, [FailureToast(answer, RemoveFailed)])
  {
    if answer.Answered? && answer.success then
      (PageState(RowsWithout(st.rows, record.key), KeysWithout(st.selected, record.key)), [ToastSuccess(RemoveSucceeded)])
    else (st, [FailureToast(answer, RemoveFailed)])
  }

  /** The subtotal with one more row at the end. */
  lemma TickedSnoc(rows: seq<Row>, x: Row, selected: seq<string>)
    ensures TickedTotal(rows + [x], selected) == TickedTotal(rows, selected) + (if Ticked(x, selected) then LineAmount(x) else 0)
  {
    assert (rows + [x])[..|rows|] == rows;
  }

  /** Unticking one key leaves every row with another key as ticked as it was. */
  lemma UntickOther(x: Row, selected: seq<string>, key: string)
    requires x.key != key
    ensures Ticked(x, Keep(selected, OtherKey(key))) == Ticked(x, selected)
  {
    KeepMembers(selected, OtherKey(key));
  }

  /**
   * Removing a key splits the subtotal: what the remaining rows with the
   * remaining selection add up to, plus the ticked amount of the rows with
   * the key.
   */
  lemma {:induction false} RemovalSplitsTotal(rows: seq<Row>, selected: seq<string>, key: string)
    ensures TickedTotal(Keep(rows, KeyIsNot(key)), Keep(selected, OtherKey(key))) + TickedTotal(Keep(rows, KeyIs(key)), selected)
      == TickedTotal(rows, selected)
    decreases |rows|
  {
    if |rows| > 0 {
      var init := rows[..|rows| - 1];
      var last := rows[|rows| - 1];
      RemovalSplitsTotal(init, selected, key);
      RemovalStep(init, last, selected, key);
      assert init + [last] == rows;
    }
  }

  /** The inductive step: one more row at the end lands on exactly one side of the split. */
  lemma RemovalStep(init: seq<Row>, last: Row, selected: seq<string>, key: string)
    requires TickedTotal(Keep(init, KeyIsNot(key)), Keep(selected, OtherKey(key))) + TickedTotal(Keep(init, KeyIs(key)), selected)
      == TickedTotal(init, selected)
    ensures TickedTotal(Keep(init + [last], KeyIsNot(key)), Keep(selected, OtherKey(key))) + TickedTotal(Keep(init + [last], KeyIs(key)), selected)
      == TickedTotal(init + [last], selected)
  {
    var unselected := Keep(selected, OtherKey(key));
    KeepSnoc(init, last, KeyIsNot(key));
    KeepSnoc(init, last, KeyIs(key));
    TickedSnoc(init, last, selected);
    if last.key == key {
      assert KeyIs(key)(last) && !KeyIsNot(key)(last);
      assert Keep(init + [last], KeyIs(key)) == Keep(init, KeyIs(key)) + [last];
      assert Keep(init + [last], KeyIsNot(key)) == Keep(init, KeyIsNot(key)) + [];
      assert Keep(init, KeyIsNot(key)) + [] == Keep(init, KeyIsNot(key));
      TickedSnoc(Keep(init, KeyIs(key)), last, selected);
      assert TickedTotal(Keep(init + [last], KeyIsNot(key)), unselected) == TickedTotal(Keep(init, KeyIsNot(key)), unselected);
    } else {
      assert KeyIsNot(key)(last) && !KeyIs(key)(last);
      assert Keep(init + [last], KeyIsNot(key)) == Keep(init, KeyIsNot(key)) + [last];
      assert Keep(init + [last], KeyIs(key)) == Keep(init, KeyIs(key)) + [];
      TickedSnoc(Keep(init, KeyIsNot(key)), last, unselected);
      UntickOther(last, selected, key);
      assert Keep(init, KeyIs(key)) + [] == Keep(init, KeyIs(key));
      assert TickedTotal(Keep(init + [last], KeyIs(key)), selected) == TickedTotal(Keep(init, KeyIs(key)), selected);
      assert TickedTotal(Keep(init + [last], KeyIsNot(key)), unselected)
        == TickedTotal(Keep(init, KeyIsNot(key)), unselected) + (if Ticked(last, selected) then LineAmount(last) else 0);
    }
  }

  /**
   * After a successful removal of the only row with the record's key, the
   * subtotal drops by that row's amount when it was ticked and stays the
   * same otherwise.
   */
  lemma RemoveItemTotal(st: PageState, record: Row, answer: Answer, i: int)
    requires answer.Answered? && answer.success
    requires 0 <= i < |st.rows| && st.rows[i].key == record.key
    requires forall j :: 0 <= j < |st.rows| && j != i ==> st.rows[j].key != record.key
    ensures
      var after := RemoveItem(st, record, answer).0;
      TickedTotal(after.rows, after.selected)
        == TickedTotal(st.rows, st.selected) - (if Ticked(st.rows[i], st.selected) then LineAmount(st.rows[i]) else 0)
  {
    RemovalSplitsTotal(st.rows, st.selected, record.key);
    KeepSingle(st.rows, KeyIs(record.key), i);
    TickedSnoc([], st.rows[i], st.selected);
    assert [] + [st.rows[i]] == [st.rows[i]];
  }

  /** Removing a key no row has leaves the subtotal unchanged, though the key leaves the selection. */
  lemma RemoveAbsentKeepsTotal(st: PageState, record: Row, answer: Answer)
    requires answer.Answered? && answer.success
    requires forall j :: 0 <= j < |st.rows| ==> st.rows[j].key != record.key
    ensures
      var after := RemoveItem(st, record, answer).0;
      TickedTotal(after.rows, after.selected) == TickedTotal(st.rows, st.selected)
  {
    RemovalSplitsTotal(st.rows, st.selected, record.key);
    KeepNone(st.rows, KeyIs(record.key));
  }

  /** `getCheckboxProps`: a row can be ticked unless its product is explicitly gone. */
  predicate Selectable(r: Row) {
    r.productExists != Some(false)
  }

  /** The table's select-all checkbox: the keys of every row whose checkbox is enabled, in order. */
  function SelectAll(rows: seq<Row>): (r: seq<string>)
    ensures |r| <= |rows|
    ensures forall k :: k in r <==> exists i :: 0 <= i < |rows| && rows[i].key == k && Selectable(rows[i])
    decreases |rows|
  {
    if |rows| == 0 then []
    else
      var rest := SelectAll(rows[1..]);
      assert forall i :: 0 <= i < |rows[1..]| ==> rows[1..][i] == rows[i + 1];
      (if Selectable(rows[0]) then [rows[0].key] else []) + rest
  }

  /** A row whose product is gone is never selected by select-all, unless another row shares its key. */
  lemma SelectAllSkipsMissingProducts(rows: seq<Row>, i: int)
    requires 0 <= i < |rows| && rows[i].productExists == Some(false)
    requires forall j :: 0 <= j < |rows| && j != i ==> rows[j].key != rows[i].key
    ensures rows[i].key !in SelectAll(rows)
  {
  }

  /** Where checkout goes. */
  datatype CheckoutOutcome = Warn(message: string) | GoCheckout(path: string, selectedItems: seq<string>)

  /** `handleCheckout`. */
  function Checkout(selected: seq<string>): (r: CheckoutOutcome)
    ensures r.Warn? <==> |selected| == 0
    ensures r.GoCheckout? ==> r.path == "/checkout" && r.selectedItems == selected
  {
    if |selected| == 0 then Warn(NothingSelected) else GoCheckout("/checkout", selected)
  }

  /** The mount effect: without a token it goes to /login and fetches nothing. */
  function MountGoesToLogin(s: Store): (r: bool)
    ensures r <==> AccessToken !in s || s[AccessToken] == ""
  {
    !CheckToken(s).isAuthenticated
  }

  /** A cart page request rejected with 401 clears the store, so the next mount goes to /login. */
  lemma ExpiredSessionRemountsToLogin(s: Store, e: ApiError)
    requires SessionExpired(e)
    ensures MountGoesToLogin(Run(s, OnResponseError(e).0))
  {
    ErrorPathStore(s, e);
  }

  /**
   * The checkout path is not in the route table: the navigation lands on
   * the not-found page.
   */
  lemma CheckoutPathIsNotFound(selected: seq<string>)
    requires |selected| > 0
    ensures Resolve(Checkout(selected).path) == (NotFoundPage, Unguarded)
  {
    UnknownPathIsNotFound(["checkout"]);
    assert PathOf(["checkout"]) == "/checkout";
  }
}
