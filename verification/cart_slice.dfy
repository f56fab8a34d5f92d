/** The client-side cart (`store/Cart.ts`): a list of items keyed by
    (product id, colour) and the four reducers of the cart slice. `addToCart`
    works on the draft state in place; `update`, `remove` and `clearCart`
    return a new list that replaces the state. */
module CartSlice {
  import opened Common
  import opened Tables

  datatype CartItem = CartItem(id: ProductId, name: string, productNo: string, price: int,
                               img: string, color: Color, quantities: int)

  predicate HasKey(item: CartItem, id: ProductId, color: Color) {
    item.id == id && item.color == color
  }

  /** No two items share (id, colour). */
  ghost predicate UniqueKeys(items: seq<CartItem>) {
    forall i, j :: 0 <= i < j < |items| ==> !HasKey(items[j], items[i].id, items[i].color)
  }

  /** The position of the item with the given key, as `state.find` locates it. */
  function FindKey(items: seq<CartItem>, id: ProductId, color: Color): Option<nat> {
    FirstWhere(items, (x: CartItem) => HasKey(x, id, color))
  }

  // ---------------------------------------------------------------------------
  // The reducers as functions of the state

  /** `addToCart`: merge into the item with the payload's key, or append the payload. */
  function Added(items: seq<CartItem>, payload: CartItem): seq<CartItem> {
    match FindKey(items, payload.id, payload.color)
    case Some(i) => items[i := items[i].(quantities := items[i].quantities + payload.quantities)]
    case None => items + [payload]
  }

  /** `update`: every item with the payload's key takes the payload's quantity. */
  function Updated(items: seq<CartItem>, payload: CartItem): (r: seq<CartItem>)
    ensures |r| == |items|
  {
    seq(|items|, k requires 0 <= k < |items| =>
      if HasKey(items[k], payload.id, payload.color) then items[k].(quantities := payload.quantities)
      else items[k])
  }

  /** `remove`: the items without the given key. */
  function Removed(items: seq<CartItem>, id: ProductId, color: Color): seq<CartItem> {
    Filter(items, (x: CartItem) => !HasKey(x, id, color))
  }

  /** The actions the cart view dispatches. */
  datatype Action = Update(item: CartItem) | Remove(id: ProductId, color: Color)

  function Reduce(items: seq<CartItem>, a: Action): seq<CartItem> {
    match a
    case Update(item) => Updated(items, item)
    case Remove(id, color) => Removed(items, id, color)
  }

  // ---------------------------------------------------------------------------
  // Properties of the reducers

  /** Adding an item whose key is present: same length, that item's quantity grows
      by the payload's, every other item is untouched. */
  lemma AddMergesExisting(items: seq<CartItem>, payload: CartItem, i: nat)
    requires UniqueKeys(items) && i < |items| && HasKey(items[i], payload.id, payload.color)
    ensures |Added(items, payload)| == |items|
    ensures Added(items, payload)[i] == items[i].(quantities := items[i].quantities + payload.quantities)
    ensures forall j :: 0 <= j < |items| && j != i ==> Added(items, payload)[j] == items[j]
  {
    var r := FindKey(items, payload.id, payload.color);
    assert r == Some(i);
  }

  /** Adding an item with a new key appends it at the end. */
  lemma AddAppendsNew(items: seq<CartItem>, payload: CartItem)
    requires forall j :: 0 <= j < |items| ==> !HasKey(items[j], payload.id, payload.color)
    ensures Added(items, payload) == items + [payload]
  {
  }

  lemma AddKeepsKeysUnique(items: seq<CartItem>, payload: CartItem)
    requires UniqueKeys(items)
    ensures UniqueKeys(Added(items, payload))
  {
  }

  /** `update` keeps the length, the order and every field except `quantities`;
      only items with the payload's key change. */
  lemma UpdateOnlyChangesQuantities(items: seq<CartItem>, payload: CartItem)
    ensures var r := Updated(items, payload);
      |r| == |items| &&
      forall k :: 0 <= k < |items| ==>
        r[k].(quantities := items[k].quantities) == items[k] &&
        (HasKey(items[k], payload.id, payload.color) ==> r[k].quantities == payload.quantities) &&
        (!HasKey(items[k], payload.id, payload.color) ==> r[k] == items[k])
  {
  }

  /** `update` with a key that is not in the cart changes nothing. */
  lemma UpdateMissingKeyIsIdentity(items: seq<CartItem>, payload: CartItem)
    requires FindKey(items, payload.id, payload.color).None?
    ensures Updated(items, payload) == items
  {
  }

  lemma UpdateKeepsKeysUnique(items: seq<CartItem>, payload: CartItem)
    requires UniqueKeys(items)
    ensures UniqueKeys(Updated(items, payload))
  {
  }

  /** `remove` keeps the other items in their order, each as often as it was
      there, and drops every item with the key. */
  lemma RemoveDropsKey(items: seq<CartItem>, id: ProductId, color: Color)
    ensures IsSubsequence(Removed(items, id, color), items)
    ensures forall k :: 0 <= k < |Removed(items, id, color)| ==> !HasKey(Removed(items, id, color)[k], id, color)
    ensures forall k :: 0 <= k < |items| && !HasKey(items[k], id, color) ==> items[k] in Removed(items, id, color)
    ensures forall x :: !HasKey(x, id, color) ==> multiset(Removed(items, id, color))[x] == multiset(items)[x]
  {
    FilterIsSubsequence(items, (x: CartItem) => !HasKey(x, id, color));
    forall x | !HasKey(x, id, color)
      ensures multiset(Removed(items, id, color))[x] == multiset(items)[x]
    {
      FilterCounts(items, (x: CartItem) => !HasKey(x, id, color), x);
    }
  }

  lemma RemoveIdempotent(items: seq<CartItem>, id: ProductId, color: Color)
    ensures Removed(Removed(items, id, color), id, color) == Removed(items, id, color)
  {
    FilterIdempotent(items, (x: CartItem) => !HasKey(x, id, color));
  }

  lemma {:induction false} RemoveKeepsKeysUnique(items: seq<CartItem>, id: ProductId, color: Color)
    requires UniqueKeys(items)
    ensures UniqueKeys(Removed(items, id, color))
  {
    if items != [] {
      var rest := items[1..];
      assert UniqueKeys(rest) by {
        forall i, j | 0 <= i < j < |rest| ensures !HasKey(rest[j], rest[i].id, rest[i].color) {
          assert rest[i] == items[i + 1] && rest[j] == items[j + 1];
        }
      }
      RemoveKeepsKeysUnique(rest, id, color);
      var tail := Removed(rest, id, color);
      if !HasKey(items[0], id, color) {
        assert Removed(items, id, color) == [items[0]] + tail;
        forall j | 0 <= j < |tail| ensures !HasKey(tail[j], items[0].id, items[0].color) {
          var m :| 0 <= m < |rest| && rest[m] == tail[j];
          assert items[m + 1] == tail[j];
        }
      }
    }
  }

  // ---------------------------------------------------------------------------
  // The store

  /** The Redux store holding the cart. */
  class CartStore {
    var items: seq<CartItem>

    /** Every (id, colour) key occurs at most once in the cart. */
    ghost predicate Valid()
      reads this
    {
      UniqueKeys(items)
    }

    constructor ()
      ensures Valid() && items == []
    {
      items := [];
    }

    /** `addToCart`: find the item with the payload's key; bump its quantity in
        place, or push the payload. */
    method AddToCart(payload: CartItem)
      requires Valid()
      modifies this
      ensures Valid() && items == Added(old(items), payload)
    {
      AddKeepsKeysUnique(items, payload);
      var i := 0;
      while i < |items| && !HasKey(items[i], payload.id, payload.color)
        invariant 0 <= i <= |items|
        invariant forall j :: 0 <= j < i ==> !HasKey(items[j], payload.id, payload.color)
      {
        i := i + 1;
      }
      if i < |items| {
        items := items[i := items[i].(quantities := items[i].quantities + payload.quantities)];
      } else {
        items := items + [payload];
      }
    }

    method Dispatch(a: Action)
      requires Valid()
      modifies this
      ensures Valid() && items == Reduce(old(items), a)
    {
      match a {
        case Update(payload) => UpdateKeepsKeysUnique(items, payload);
        case Remove(id, color) => RemoveKeepsKeysUnique(items, id, color);
      }
      items := Reduce(items, a);
    }

    /** `clearCart` */
    method ClearCart()
      requires Valid()
      modifies this
      ensures Valid() && items == []
    {
      items := [];
    }
  }
}
