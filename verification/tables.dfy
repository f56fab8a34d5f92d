/** The persisted entities (the Product, Store, Order and User schemas) and the
    database handle that the route handlers read and update. Each collection is
    an in-memory table: products by id, stores and users in insertion order
    (a store's id is its position), orders in creation order. */
module Tables {
  import opened Common

  type ProductId = string
  type UserId = string

  /** A cart or order line's colour: `""`, `"dark"` or `"light"`. The product
      schema holds stock for the two real colours only. */
  datatype Color = Unset | Dark | Light

  /** A product document. `price` is kept as an integer. */
  datatype Product = Product(name: string, productNo: string, price: int, img: string,
                             dark: int, light: int)

  function Stock(p: Product, c: Color): int
    requires c != Unset
  {
    if c == Dark then p.dark else p.light
  }

  /** The product with the stock of colour `c` set to `v`. */
  function WithStock(p: Product, c: Color, v: int): (r: Product)
    requires c != Unset
    ensures Stock(r, c) == v
    ensures forall d :: d != Unset && d != c ==> Stock(r, d) == Stock(p, d)
    ensures r.name == p.name && r.productNo == p.productNo && r.price == p.price && r.img == p.img
  {
    if c == Dark then p.(dark := v) else p.(light := v)
  }

  /** A customer (Store) document; `email` is its natural key. */
  datatype Customer = Customer(name: string, address: string, number: string, email: string,
                               salesMan: UserId)

  /** An order line: `quantity` has schema minimum 1. */
  datatype LineItem = LineItem(productId: ProductId, color: Color, quantity: int)

  datatype Order = Order(storeId: nat, product: seq<LineItem>, createdBy: UserId, createdAt: int)

  datatype User = User(name: string, email: string, password: string, number: string,
                       isManager: bool, isAdmin: bool)

  /** What the session exposes about the signed-in caller. */
  datatype Session = Session(id: UserId, isAdmin: bool)

  // ---------------------------------------------------------------------------
  // Schema invariants

  /** Product schema: both colour stocks have minimum 0. */
  ghost predicate StockNonNegative(products: map<ProductId, Product>) {
    forall id :: id in products ==> products[id].dark >= 0 && products[id].light >= 0
  }

  /** Product schema: `productNo` is unique. */
  ghost predicate DistinctProductNos(products: map<ProductId, Product>) {
    forall a, b :: a in products && b in products && a != b ==>
      products[a].productNo != products[b].productNo
  }

  /** At most one store per email. */
  ghost predicate DistinctStoreEmails(stores: seq<Customer>) {
    forall i, j :: 0 <= i < j < |stores| ==> stores[i].email != stores[j].email
  }

  /** User schema: `email` is unique. */
  ghost predicate DistinctUserEmails(users: seq<User>) {
    forall i, j :: 0 <= i < j < |users| ==> users[i].email != users[j].email
  }

  /** Order schema: every line has quantity at least 1, and the store exists. */
  ghost predicate OrdersWellFormed(orders: seq<Order>, storeCount: nat) {
    forall i :: 0 <= i < |orders| ==>
      orders[i].storeId < storeCount &&
      (forall k :: 0 <= k < |orders[i].product| ==> orders[i].product[k].quantity >= 1)
  }

  /** The position of the user with the given email, as `User.findOne({ email })` finds it. */
  function FindUser(users: seq<User>, email: string): Option<nat> {
    FirstWhere(users, (u: User) => u.email == email)
  }

  /** The database: one table per collection. */
  class Db {
    var products: map<ProductId, Product>
    var stores: seq<Customer>
    var orders: seq<Order>
    var users: seq<User>

    ghost predicate Valid()
      reads this
    {
      StockNonNegative(products) && DistinctProductNos(products) &&
      DistinctStoreEmails(stores) && DistinctUserEmails(users) &&
      OrdersWellFormed(orders, |stores|)
    }

    constructor ()
      ensures Valid()
      ensures products == map[] && stores == [] && orders == [] && users == []
    {
      products, stores, orders, users := map[], [], [], [];
    }
  }
}
