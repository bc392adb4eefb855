/**
 * The Redux `cart` slice: a sequence of items and four reducers. Every item
 * the reducers build has equal `id` and `_id`, so the model keeps one id;
 * the id may be undefined, and undefined matches undefined as `===` does.
 */
module CartSlice {
  import opened Wrappers
  import opened Js
  import opened Seqs

  /** Prices are integer cents. */
  datatype CartItem = CartItem(
    id: Option<string>,
    name: Option<string>,
    price: int,
    pictureURL: Option<string>,
    quantity: int,
    productExists: bool)

  /** The product fields an API cart entry may carry. */
  datatype ProductFields = ProductFields(
    underscoreId: Option<string>,
    id: Option<string>,
    name: Option<string>,
    price: Option<int>,
    pictureURL: Option<string>)

  /** One entry of the `setCart` payload: an embedded `product`, or the fields on the entry itself. */
  datatype CartEntry = CartEntry(
    product: Option<ProductFields>,
    own: ProductFields,
    quantity: Option<int>,
    productExists: Option<bool>)

  /** The `addToCart` payload. */
  datatype Product = Product(
    underscoreId: Option<string>,
    id: Option<string>,
    name: Option<string>,
    price: Option<int>,
    pictureURL: Option<string>)

  const InitialItems: seq<CartItem> := []

  /** `n || d` for a number that may be undefined: 0 and undefined give `d`. */
  function NumberOr(n: Option<int>, d: int): (r: int)
    ensures n.Some? && n.value != 0 ==> r == n.value
    ensures n.None? || n.value == 0 ==> r == d
  {
    if n.Some? && n.value != 0 then n.value else d
  }

  /** The product fields `setCart` reads: the embedded product when there is one. */
  function EntryFields(e: CartEntry): ProductFields {
    if e.product.Some? then e.product.value else e.own
  }

  /** The id `setCart` gives an entry: `_id || id` of its fields. */
  function EntryId(e: CartEntry): Option<string> {
    Or(EntryFields(e).underscoreId, EntryFields(e).id)
  }

  /** The item `setCart` builds from one payload entry. */
  function FromEntry(e: CartEntry): CartItem {
    var p := EntryFields(e);
    CartItem(EntryId(e), p.name, NumberOr(p.price, 0), p.pictureURL,
             NumberOr(e.quantity, 1), e.productExists != Some(false))
  }

  /** `setCart`. */
  function SetCart(payload: seq<CartEntry>): (r: seq<CartItem>)
    ensures |r| == |payload|
    ensures forall i :: 0 <= i < |r| ==> r[i] == FromEntry(payload[i])
    // Quantity falls back to 1 when missing or 0, price to 0.
    ensures forall i :: 0 <= i < |r| ==> r[i].quantity != 0 && r[i].quantity == NumberOr(payload[i].quantity, 1)
    // Only an explicit `false` marks an item as gone.
    ensures forall i :: 0 <= i < |r| ==> (r[i].productExists <==> payload[i].productExists != Some(false))
  {
    seq(|payload|, i requires 0 <= i < |payload| => FromEntry(payload[i]))
  }

  /** The index `items.find(pred)` lands on: the first item with the id. */
  function FindIndex(items: seq<CartItem>, id: Option<string>): (r: Option<nat>)
    ensures r.None? <==> forall k :: 0 <= k < |items| ==> items[k].id != id
    ensures r.Some? ==> r.value < |items| && items[r.value].id == id
    ensures r.Some? ==> forall k :: 0 <= k < r.value ==> items[k].id != id
    decreases |items|
  {
    if |items| == 0 then None
    else if items[0].id == id then Some(0)
    else
      match FindIndex(items[1..], id)
      case None => None
      case Some(k) => Some(k + 1)
  }

  /** The item `addToCart` appends for a product not yet in the cart. */
  function NewItem(p: Product): CartItem {
    CartItem(Or(p.underscoreId, p.id), p.name, NumberOr(p.price, 0), p.pictureURL, 1, true)
  }

  /** `addToCart`. */
  function AddToCart(items: seq<CartItem>, p: Product): (r: seq<CartItem>)
    // Already in the cart: that one item gains one unit, nothing else changes.
    ensures FindIndex(items, Or(p.underscoreId, p.id)).Some? ==>
      var i := FindIndex(items, Or(p.underscoreId, p.id)).value;
      && |r| == |items|
      && r[i] == items[i].(quantity := items[i].quantity + 1)
      && forall k :: 0 <= k < |items| && k != i ==> r[k] == items[k]
    // Not in the cart: appended at the end with quantity 1.
    ensures FindIndex(items, Or(p.underscoreId, p.id)).None? ==>
      r == items + [NewItem(p)] && r[|items|].quantity == 1 && r[|items|].productExists
  {
    var pid := Or(p.underscoreId, p.id);
    match FindIndex(items, pid)
    case Some(i) => items[i := items[i].(quantity := items[i].quantity + 1)]
    case None => items + [NewItem(p)]
  }

  /** The test "has another id", as a value. */
  function IdIsNot(id: Option<string>): CartItem -> bool { (x: CartItem) => x.id != id }

  /** `removeFromCart`: keep every item whose id differs. */
  function RemoveFromCart(items: seq<CartItem>, id: Option<string>): (r: seq<CartItem>)
    ensures forall k :: 0 <= k < |r| ==> r[k].id != id
    ensures forall x :: x in r <==> x in items && x.id != id
    ensures IsSubsequence(r, items)
    // Every copy of every other item stays.
    ensures forall x :: multiset(r)[x] == if x.id != id then multiset(items)[x] else 0
  {
    KeepCounts(items, IdIsNot(id));
    KeepIsSubsequence(items, IdIsNot(id));
    KeepMembers(items, IdIsNot(id));
    var r := Keep(items, IdIsNot(id));
    assert forall k :: 0 <= k < |r| ==> r[k] in r;
    r
  }

  /** `updateQuantity`: the first item with the id takes the new quantity. */
  function UpdateQuantity(items: seq<CartItem>, id: Option<string>, quantity: int): (r: seq<CartItem>)
    ensures |r| == |items|
    ensures FindIndex(items, id).None? ==> r == items
    ensures FindIndex(items, id).Some? ==>
      var i := FindIndex(items, id).value;
      && r[i] == items[i].(quantity := quantity)
      && forall k :: 0 <= k < |items| && k != i ==> r[k] == items[k]
  {
    match FindIndex(items, id)
    case Some(i) => items[i := items[i].(quantity := quantity)]
    case None => items
  }

  /** No two items share an id. */
  predicate UniqueIds(items: seq<CartItem>) {
    forall i, j :: 0 <= i < j < |items| ==> items[i].id != items[j].id
  }

  /**
   * A loaded cart has unique ids exactly when the payload's entries have
   * distinct ids, so the reducers' uniqueness lemmas apply from the first
   * load on.
   */
  lemma SetCartUnique(payload: seq<CartEntry>)
    ensures UniqueIds(SetCart(payload))
      <==> forall i, j :: 0 <= i < j < |payload| ==> EntryId(payload[i]) != EntryId(payload[j])
  {
    var r := SetCart(payload);
    if UniqueIds(r) {
      forall i, j | 0 <= i < j < |payload| ensures EntryId(payload[i]) != EntryId(payload[j]) {
        assert r[i].id == EntryId(payload[i]) && r[j].id == EntryId(payload[j]);
      }
    }
  }

  /** The total number of units in the cart. */
  function TotalQuantity(items: seq<CartItem>): int
    decreases |items|
  {
    if |items| == 0 then 0 else items[0].quantity + TotalQuantity(items[1..])
  }

  /** Changing one item's quantity changes the total by the difference. */
  lemma {:induction false} TotalAfterUpdate(items: seq<CartItem>, i: nat, x: CartItem)
    requires i < |items|
    ensures TotalQuantity(items[i := x]) == TotalQuantity(items) - items[i].quantity + x.quantity
    decreases |items|
  {
    if i > 0 {
      assert items[i := x][1..] == items[1..][i - 1 := x];
      TotalAfterUpdate(items[1..], i - 1, x);
    }
  }

  /** Appending an item adds its quantity to the total. */
  lemma {:induction false} TotalAfterAppend(items: seq<CartItem>, x: CartItem)
    ensures TotalQuantity(items + [x]) == TotalQuantity(items) + x.quantity
    decreases |items|
  {
    if |items| == 0 {
      assert [] + [x] == [x];
      assert [x][1..] == [];
    } else {
      assert (items + [x])[1..] == items[1..] + [x];
      TotalAfterAppend(items[1..], x);
    }
  }

  /** `addToCart` adds exactly one unit and keeps ids unique. */
  lemma AddToCartAddsOne(items: seq<CartItem>, p: Product)
    ensures TotalQuantity(AddToCart(items, p)) == TotalQuantity(items) + 1
    ensures UniqueIds(items) ==> UniqueIds(AddToCart(items, p))
  {
    var pid := Or(p.underscoreId, p.id);
    match FindIndex(items, pid)
    case Some(i) =>
      TotalAfterUpdate(items, i, items[i].(quantity := items[i].quantity + 1));
    case None =>
      TotalAfterAppend(items, NewItem(p));
  }

  /** From a load with distinct ids, adding then removing keeps ids unique, and adding adds one unit. */
  lemma LoadThenEdit(payload: seq<CartEntry>, p: Product, id: Option<string>)
    requires forall i, j :: 0 <= i < j < |payload| ==> EntryId(payload[i]) != EntryId(payload[j])
    ensures TotalQuantity(AddToCart(SetCart(payload), p)) == TotalQuantity(SetCart(payload)) + 1
    ensures UniqueIds(RemoveFromCart(AddToCart(SetCart(payload), p), id))
  {
    SetCartUnique(payload);
    AddToCartAddsOne(SetCart(payload), p);
    RemoveKeepsUnique(AddToCart(SetCart(payload), p), id);
  }

  /** Removing an id that is not in the cart changes nothing. */
  lemma RemoveAbsentIsNoOp(items: seq<CartItem>, id: Option<string>)
    requires forall k :: 0 <= k < |items| ==> items[k].id != id
    ensures RemoveFromCart(items, id) == items
  {
    KeepAll(items, IdIsNot(id));
  }

  /** Removal keeps ids unique. */
  lemma RemoveKeepsUnique(items: seq<CartItem>, id: Option<string>)
    requires UniqueIds(items)
    ensures UniqueIds(RemoveFromCart(items, id))
  {
    KeepKeepsUnique(items, IdIsNot(id));
  }

  /** Filtering a list with unique ids keeps them unique. */
  lemma {:induction false} KeepKeepsUnique(items: seq<CartItem>, p: CartItem -> bool)
    requires UniqueIds(items)
    ensures UniqueIds(Keep(items, p))
    decreases |items|
  {
    if |items| > 0 {
      assert UniqueIds(items[1..]) by {
        forall i, j | 0 <= i < j < |items[1..]| ensures items[1..][i].id != items[1..][j].id {
          assert items[1..][i] == items[i + 1] && items[1..][j] == items[j + 1];
        }
      }
      KeepKeepsUnique(items[1..], p);
      var rest := Keep(items[1..], p);
      if p(items[0]) {
        KeepMembers(items[1..], p);
        assert Keep(items, p) == [items[0]] + rest;
        forall k | 0 <= k < |rest| ensures rest[k].id != items[0].id {
          assert rest[k] in items[1..];
          var m :| 0 <= m < |items[1..]| && items[1..][m] == rest[k];
          assert items[m + 1] == rest[k];
        }
      }
    }
  }

  /** `updateQuantity` keeps the ids, so it keeps them unique. */
  lemma UpdateKeepsIds(items: seq<CartItem>, id: Option<string>, quantity: int)
    ensures forall k :: 0 <= k < |items| ==> UpdateQuantity(items, id, quantity)[k].id == items[k].id
    ensures UniqueIds(items) ==> UniqueIds(UpdateQuantity(items, id, quantity))
  {
  }
}
