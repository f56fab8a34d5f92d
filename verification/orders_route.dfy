/** Order listing (`GET /api/orders`): admins see every order, everybody else
    the orders they created; either way newest first. The joins that expand
    the store, creator and products of each order only add display fields and
    are not part of this model. */
module OrdersRoute {
  import opened Common
  import opened Tables

  datatype Listing =
    | Listed(orders: seq<Order>)  // 200
    | Denied                      // 401, "Access denied"
    | Failed(message: string)     // 500, the error's message

  /** The orders the caller may see. Only `isAdmin` is consulted: a manager who is
      not an admin sees only their own orders. */
  function Visible(orders: seq<Order>, s: Session): seq<Order> {
    if s.isAdmin then orders else Filter(orders, (o: Order) => o.createdBy == s.id)
  }

  predicate NewestFirst(orders: seq<Order>) {
    forall i, j :: 0 <= i < j < |orders| ==> orders[i].createdAt >= orders[j].createdAt
  }

  /** Putting an order in front of a newest-first list that holds nothing newer
      keeps it newest first. */
  lemma ConsNewestFirst(o: Order, sorted: seq<Order>)
    requires NewestFirst(sorted) && (sorted == [] || o.createdAt >= sorted[0].createdAt)
    ensures NewestFirst([o] + sorted)
  {
  }

  function Insert(o: Order, sorted: seq<Order>): (r: seq<Order>)
    requires NewestFirst(sorted)
    ensures NewestFirst(r)
    ensures multiset(r) == multiset(sorted) + multiset{o}
    ensures r[0] == o || (sorted != [] && r[0] == sorted[0])
  {
    if sorted == [] || o.createdAt >= sorted[0].createdAt then
      ConsNewestFirst(o, sorted);
      [o] + sorted
    else
      var head, rest := sorted[0], sorted[1..];
      assert sorted == [head] + rest;
      var tail := Insert(o, rest);
      ConsNewestFirst(head, tail);
      [head] + tail
  }

  /** `.sort({ createdAt: -1 })`: a newest-first permutation of the orders. */
  function SortNewestFirst(orders: seq<Order>): (r: seq<Order>)
    ensures NewestFirst(r)
    ensures multiset(r) == multiset(orders)
  {
    if orders == [] then []
    else
      assert orders == [orders[0]] + orders[1..];
      Insert(orders[0], SortNewestFirst(orders[1..]))
  }

  /** The handler. `failure` is the message of an error thrown by the query, if any. */
  function ListOrders(session: Option<Session>, orders: seq<Order>, failure: Option<string>): Listing {
    if session.None? then Denied
    else if failure.Some? then Failed(if failure.value == "" then "Internal Server Error" else failure.value)
    else Listed(SortNewestFirst(Visible(orders, session.value)))
  }

  // ---------------------------------------------------------------------------

  lemma NoSessionNoOrders(orders: seq<Order>, failure: Option<string>)
    ensures ListOrders(None, orders, failure) == Denied
  {
  }

  /** An admin receives every order, newest first. */
  lemma AdminSeesAll(s: Session, orders: seq<Order>)
    requires s.isAdmin
    ensures var r := ListOrders(Some(s), orders, None);
      r.Listed? && multiset(r.orders) == multiset(orders) && NewestFirst(r.orders)
  {
  }

  /** Anyone else, managers included, receives exactly the orders they created,
      each as often as it is stored, newest first. */
  lemma OthersSeeOwn(s: Session, orders: seq<Order>)
    requires !s.isAdmin
    ensures var r := ListOrders(Some(s), orders, None);
      r.Listed? && NewestFirst(r.orders) &&
      multiset(r.orders) == multiset(Filter(orders, (o: Order) => o.createdBy == s.id)) &&
      (forall o :: o in r.orders <==> o in orders && o.createdBy == s.id)
  {
    var own := Filter(orders, (o: Order) => o.createdBy == s.id);
    var r := SortNewestFirst(own);
    forall o ensures o in r <==> o in own {
      assert o in r <==> o in multiset(r);
      assert o in own <==> o in multiset(own);
    }
    forall o | o in orders && o.createdBy == s.id ensures o in own {
      var k :| 0 <= k < |orders| && orders[k] == o;
    }
  }

  /** A query error is answered with its message, or a generic one when it has none. */
  lemma ErrorsCarryMessage(s: Session, orders: seq<Order>, message: string)
    ensures ListOrders(Some(s), orders, Some(message)) ==
      Failed(if message == "" then "Internal Server Error" else message)
  {
  }
}
