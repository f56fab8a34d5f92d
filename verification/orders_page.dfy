/** The order search of the orders page (`app/orders/page.tsx`): an order is
    shown when the lower-cased search term occurs in one of its lower-cased
    text fields, or in the decimal text of one of its products' prices. The
    orders are the joined documents the listing returns. */
module OrderSearch {
  import opened Common

  datatype Creator = Creator(name: string, email: string)
  datatype StoreInfo = StoreInfo(name: string, email: string, number: string, address: string)
  datatype ItemView = ItemView(name: string, productNo: string, price: int)
  datatype OrderView = OrderView(createdBy: Creator, store: StoreInfo, product: seq<ItemView>)

  /** A product line matches on its name or number (lower-cased) or on its price
      text, which is not lower-cased. */
  predicate ItemMatches(item: ItemView, t: string) {
    Includes(Lower(item.name), t) || Includes(Lower(item.productNo), t) ||
    Includes(IntToString(item.price), t)
  }

  /** `order.product.some(...)` */
  predicate SomeItemMatches(items: seq<ItemView>, t: string) {
    exists k :: 0 <= k < |items| && ItemMatches(items[k], t)
  }

  /** The predicate passed to `orders.filter`. */
  predicate Matches(o: OrderView, term: string) {
    var t := Lower(term);
    Includes(Lower(o.createdBy.name), t) || Includes(Lower(o.createdBy.email), t) ||
    Includes(Lower(o.store.address), t) || Includes(Lower(o.store.name), t) ||
    Includes(Lower(o.store.number), t) || Includes(Lower(o.store.email), t) ||
    SomeItemMatches(o.product, t)
  }

  function FilteredOrders(orders: seq<OrderView>, term: string): seq<OrderView> {
    Filter(orders, (o: OrderView) => Matches(o, term))
  }

  // ---------------------------------------------------------------------------

  /** The shown orders keep the fetched order and contain only fetched orders. */
  lemma FilteredOrdersKeepOrder(orders: seq<OrderView>, term: string)
    ensures IsSubsequence(FilteredOrders(orders, term), orders)
  {
    FilterIsSubsequence(orders, (o: OrderView) => Matches(o, term));
  }

  /** An order is shown exactly when it matches the term. */
  lemma ShownIffMatches(orders: seq<OrderView>, term: string, o: OrderView)
    ensures o in FilteredOrders(orders, term) <==> o in orders && Matches(o, term)
  {
    FilterKeepsExactly(orders, (x: OrderView) => Matches(x, term), o);
  }

  /** The declarative reading of the search: the term occurs in one of the
      searched fields. */
  ghost predicate ItemContains(item: ItemView, t: string) {
    OccursIn(t, Lower(item.name)) || OccursIn(t, Lower(item.productNo)) || OccursIn(t, IntToString(item.price))
  }

  ghost predicate Contains(o: OrderView, t: string) {
    OccursIn(t, Lower(o.createdBy.name)) || OccursIn(t, Lower(o.createdBy.email)) ||
    OccursIn(t, Lower(o.store.address)) || OccursIn(t, Lower(o.store.name)) ||
    OccursIn(t, Lower(o.store.number)) || OccursIn(t, Lower(o.store.email)) ||
    exists k :: 0 <= k < |o.product| && ItemContains(o.product[k], t)
  }

  /** An order matches exactly when the lower-cased term occurs in one of its
      searched fields. */
  lemma MatchesIffContains(o: OrderView, term: string)
    ensures Matches(o, term) <==> Contains(o, Lower(term))
  {
    var t := Lower(term);
    IncludesMeansOccurs(Lower(o.createdBy.name), t);
    IncludesMeansOccurs(Lower(o.createdBy.email), t);
    IncludesMeansOccurs(Lower(o.store.address), t);
    IncludesMeansOccurs(Lower(o.store.name), t);
    IncludesMeansOccurs(Lower(o.store.number), t);
    IncludesMeansOccurs(Lower(o.store.email), t);
    forall k | 0 <= k < |o.product| ensures ItemMatches(o.product[k], t) <==> ItemContains(o.product[k], t) {
      IncludesMeansOccurs(Lower(o.product[k].name), t);
      IncludesMeansOccurs(Lower(o.product[k].productNo), t);
      IncludesMeansOccurs(IntToString(o.product[k].price), t);
    }
  }

  /** An empty term shows every order. */
  lemma {:induction false} EmptyTermShowsAll(orders: seq<OrderView>)
    ensures FilteredOrders(orders, "") == orders
  {
    forall k | 0 <= k < |orders| ensures Matches(orders[k], "") {
      IncludesEmpty(Lower(orders[k].createdBy.name));
    }
    FilterKeepsAll(orders, (o: OrderView) => Matches(o, ""));
  }

  /** Searching the shown orders again with the same term changes nothing. */
  lemma FilterTwiceIsOnce(orders: seq<OrderView>, term: string)
    ensures FilteredOrders(FilteredOrders(orders, term), term) == FilteredOrders(orders, term)
  {
    FilterIdempotent(orders, (o: OrderView) => Matches(o, term));
  }

  /** Leaving the price text as it is loses nothing: it has no upper-case letter. */
  lemma PriceTextIsLowerCase(price: int)
    ensures Lower(IntToString(price)) == IntToString(price)
  {
  }
}
