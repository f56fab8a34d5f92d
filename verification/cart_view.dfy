/** The cart sheet (`components/cart/Cart.tsx`): the +/- buttons and the delete
    button compute the action to dispatch to the cart slice. */
module CartView {
  import opened Common
  import opened Tables
  import opened CartSlice

  /** `handleQuantityChange(itemId, quantity)`: nothing below 1; otherwise the first
      item whose `_id` matches, with the new quantity, is dispatched as an update. */
  function QuantityChange(cart: seq<CartItem>, itemId: ProductId, quantity: int): Option<Action> {
    if quantity < 1 then None
    else match FirstWhere(cart, (x: CartItem) => x.id == itemId)
      case None => None
      case Some(i) => Some(Update(cart[i].(quantities := quantity)))
  }

  /** `handleDelete(itemId, color)` */
  function Delete(itemId: ProductId, color: Color): Action {
    Remove(itemId, color)
  }

  /** The cart after a handler ran and its action, if any, was reduced. */
  function Apply(cart: seq<CartItem>, a: Option<Action>): seq<CartItem> {
    match a
    case None => cart
    case Some(action) => Reduce(cart, action)
  }

  /** The +/- buttons of row `k` call the handler with the row's `_id` and its
      quantity minus or plus one. */
  function Click(cart: seq<CartItem>, k: nat, delta: int): seq<CartItem>
    requires k < |cart|
  {
    Apply(cart, QuantityChange(cart, cart[k].id, cart[k].quantities + delta))
  }

  predicate AllPositive(cart: seq<CartItem>) {
    forall k :: 0 <= k < |cart| ==> cart[k].quantities >= 1
  }

  /** A target quantity below 1 dispatches nothing. */
  lemma BelowOneDispatchesNothing(cart: seq<CartItem>, itemId: ProductId, quantity: int)
    requires quantity < 1
    ensures QuantityChange(cart, itemId, quantity).None?
    ensures Apply(cart, QuantityChange(cart, itemId, quantity)) == cart
  {
  }

  /** Otherwise the dispatched item is the first row with that `_id`, unchanged but
      for its quantity, and carrying that row's colour. */
  lemma DispatchesFirstRowWithId(cart: seq<CartItem>, itemId: ProductId, quantity: int, i: nat)
    requires quantity >= 1 && i < |cart| && cart[i].id == itemId
    requires forall j :: 0 <= j < i ==> cart[j].id != itemId
    ensures QuantityChange(cart, itemId, quantity) == Some(Update(cart[i].(quantities := quantity)))
  {
    var r := FirstWhere(cart, (x: CartItem) => x.id == itemId);
    assert r == Some(i);
  }

  /** Delete removes by both `_id` and colour. */
  lemma DeleteRemovesRow(cart: seq<CartItem>, k: nat)
    requires k < |cart| && UniqueKeys(cart)
    ensures var r := Apply(cart, Some(Delete(cart[k].id, cart[k].color)));
      |r| == |cart| - 1 && IsSubsequence(r, cart) &&
      forall j :: 0 <= j < |r| ==> !HasKey(r[j], cart[k].id, cart[k].color)
  {
    RemoveDropsKey(cart, cart[k].id, cart[k].color);
    RemovedCount(cart, cart[k].id, cart[k].color, k);
  }

  /** With unique keys, removing a key that one row holds drops exactly one row. */
  lemma {:induction false} RemovedCount(cart: seq<CartItem>, id: ProductId, color: Color, k: nat)
    requires k < |cart| && UniqueKeys(cart) && HasKey(cart[k], id, color)
    ensures |Removed(cart, id, color)| == |cart| - 1
  {
    var rest := cart[1..];
    assert UniqueKeys(rest) by {
      forall i, j | 0 <= i < j < |rest| ensures !HasKey(rest[j], rest[i].id, rest[i].color) {
        assert rest[i] == cart[i + 1] && rest[j] == cart[j + 1];
      }
    }
    if k == 0 {
      FilterKeepsAll(rest, (x: CartItem) => !HasKey(x, id, color));
    } else {
      RemovedCount(rest, id, color, k - 1);
    }
  }

  /** Starting from quantities of at least 1, the +/- buttons never produce a
      quantity below 1. */
  lemma ClicksKeepQuantitiesPositive(cart: seq<CartItem>, k: nat, delta: int)
    requires k < |cart| && AllPositive(cart) && (delta == 1 || delta == -1)
    ensures AllPositive(Click(cart, k, delta))
  {
  }

  // ---------------------------------------------------------------------------
  // Row lookup by `_id` alone

  /** As written: with two rows of one product in different colours, pressing +
      on the second row sets the FIRST row's quantity (to the second row's plus
      one) and leaves the second row as it was. */
  lemma SecondColourRowEditsFirstRow()
    ensures var dark := CartItem("p1", "Chair", "C-1", 10, "img", Dark, 1);
      var light := CartItem("p1", "Chair", "C-1", 10, "img", Light, 5);
      Click([dark, light], 1, 1) == [dark.(quantities := 6), light]
  {
    var dark := CartItem("p1", "Chair", "C-1", 10, "img", Dark, 1);
    var light := CartItem("p1", "Chair", "C-1", 10, "img", Light, 5);
    var cart := [dark, light];
    assert FirstWhere(cart, (x: CartItem) => x.id == "p1") == Some(0);
    assert Updated(cart, dark.(quantities := 6)) == [dark.(quantities := 6), light];
  }

  /** Corrected: the handler is given the row's colour too and looks the row up by
      its full key. */
  function QuantityChangeForRow(cart: seq<CartItem>, itemId: ProductId, color: Color, quantity: int): Option<Action> {
    if quantity < 1 then None
    else match FindKey(cart, itemId, color)
      case None => None
      case Some(i) => Some(Update(cart[i].(quantities := quantity)))
  }

  function ClickRow(cart: seq<CartItem>, k: nat, delta: int): seq<CartItem>
    requires k < |cart|
  {
    Apply(cart, QuantityChangeForRow(cart, cart[k].id, cart[k].color, cart[k].quantities + delta))
  }

  /** With the corrected handler, a click changes exactly the clicked row's
      quantity, by one step, unless that would go below 1. */
  lemma ClickRowChangesOnlyThatRow(cart: seq<CartItem>, k: nat, delta: int)
    requires k < |cart| && UniqueKeys(cart) && AllPositive(cart) && (delta == 1 || delta == -1)
    ensures var r := ClickRow(cart, k, delta);
      |r| == |cart| && AllPositive(r) &&
      (cart[k].quantities + delta >= 1 ==> r[k] == cart[k].(quantities := cart[k].quantities + delta)) &&
      (cart[k].quantities + delta < 1 ==> r[k] == cart[k]) &&
      forall j :: 0 <= j < |cart| && j != k ==> r[j] == cart[j]
  {
    if cart[k].quantities + delta >= 1 {
      var r := FindKey(cart, cart[k].id, cart[k].color);
      assert r == Some(k);
    }
  }
}
