/** Order placement (`POST /api/store`): authenticate, validate the customer
    details, upsert the customer by email, clamp every cart line to the stock
    of its colour and take that stock, then record one order if any line was
    fulfilled. The cart lines are processed one after another here; the
    handler runs them concurrently, which is why a cart must not name the same
    (product, colour) twice and why the order of the recorded lines is only
    promised up to permutation. A line whose product lookup throws fails the
    request, but the other lines still take their stock. */
module StoreRoute {
  import opened Common
  import opened Tables

  datatype StoreForm = StoreForm(name: string, address: string, number: string, email: string)

  /** One cart entry as the client posts it. */
  datatype CartLine = CartLine(id: ProductId, color: Color, quantities: int)

  datatype Reply =
    | Created(count: nat)      // 201, "<count> Order created successfully"
    | Denied                   // 401
    | MissingFields            // 400, "All fields are required"
    | Failed(fault: Fault)     // 500, the thrown error's message: "Product with ID
                               // <id> not found" for a product not found, the
                               // driver's cast-error text for a malformed id

  predicate Incomplete(f: StoreForm) {
    f.name == "" || f.address == "" || f.number == "" || f.email == ""
  }

  predicate ColoursChosen(cart: seq<CartLine>) {
    forall k :: 0 <= k < |cart| ==> cart[k].color != Unset
  }

  /** No two cart lines name the same product in the same colour. */
  predicate DistinctKeys(cart: seq<CartLine>) {
    forall i, j :: 0 <= i < j < |cart| ==> cart[i].id != cart[j].id || cart[i].color != cart[j].color
  }

  // ---------------------------------------------------------------------------
  // Customer upsert

  /** `Store.findOneAndUpdate({ email }, {...}, { new: true, upsert: true })`:
      the new table and the position of the customer it returns. */
  function Upsert(stores: seq<Customer>, f: StoreForm, salesMan: UserId): (r: (seq<Customer>, nat))
    ensures r.1 < |r.0| && r.0[r.1] == Customer(f.name, f.address, f.number, f.email, salesMan)
    ensures r.1 < |stores| <==> exists j :: 0 <= j < |stores| && stores[j].email == f.email
    ensures |r.0| == if r.1 < |stores| then |stores| else |stores| + 1
    ensures forall j :: 0 <= j < |stores| && j != r.1 ==> r.0[j] == stores[j]
    ensures DistinctStoreEmails(stores) ==> DistinctStoreEmails(r.0)
  {
    var c := Customer(f.name, f.address, f.number, f.email, salesMan);
    match FirstWhere(stores, (s: Customer) => s.email == f.email)
    case Some(j) => (stores[j := c], j)
    case None => (stores + [c], |stores|)
  }

  // ---------------------------------------------------------------------------
  // Clamping and taking stock, line by line

  /** The quantity a line is fulfilled with: the request, cut down to the stock. */
  function Fulfilled(requested: int, stock: int): (q: int)
    ensures q <= requested && q <= stock
    ensures q == requested || q == stock
  {
    if stock < requested then stock else requested
  }

  /** Why the lookup of a cart line threw: the id does not cast to an object id
      (the driver's cast error), or no product has that id. */
  datatype Fault = Malformed(id: ProductId) | NotFound(id: ProductId)

  /** A line's lookup finds a product: its id is well formed and stored. */
  predicate Found(products: map<ProductId, Product>, isValidId: ProductId -> bool, id: ProductId) {
    isValidId(id) && id in products
  }

  /** The state of a placement after some lines: the product table, the staged
      order lines, and the fault of the first line whose lookup threw, if any. */
  datatype Progress = Progress(products: map<ProductId, Product>, staged: seq<LineItem>,
                               fault: Option<Fault>)

  /** The fault kept when another line throws: the one already seen, if any. */
  function Earliest(seen: Option<Fault>, f: Fault): (r: Option<Fault>)
    ensures r.Some? && (seen.Some? ==> r == seen) && (seen.None? ==> r == Some(f))
  {
    if seen.Some? then seen else Some(f)
  }

  /** One cart line. A line whose lookup throws records its fault; the other
      lines run all the same, since every line has its own callback. */
  function Step(g: Progress, line: CartLine, isValidId: ProductId -> bool): Progress
    requires line.color != Unset
  {
    if !isValidId(line.id) then g.(fault := Earliest(g.fault, Malformed(line.id)))
    else if line.id !in g.products then g.(fault := Earliest(g.fault, NotFound(line.id)))
    else
      var p := g.products[line.id];
      var q := Fulfilled(line.quantities, Stock(p, line.color));
      if q > 0 then
        g.(products := g.products[line.id := WithStock(p, line.color, Stock(p, line.color) - q)],
           staged := g.staged + [LineItem(line.id, line.color, q)])
      else g
  }

  /** All cart lines, in order. */
  function Fulfil(products: map<ProductId, Product>, cart: seq<CartLine>, isValidId: ProductId -> bool): Progress
    requires ColoursChosen(cart)
  {
    if cart == [] then Progress(products, [], None)
    else Step(Fulfil(products, cart[..|cart| - 1], isValidId), cart[|cart| - 1], isValidId)
  }

  // ---------------------------------------------------------------------------
  // The reference: every line clamped against the stock the request found

  /** What a line takes when clamped against the original stock of its key. */
  function Intended(products: map<ProductId, Product>, line: CartLine): int
    requires line.id in products && line.color != Unset
  {
    Fulfilled(line.quantities, Stock(products[line.id], line.color))
  }

  function Taken(products: map<ProductId, Product>, line: CartLine): (t: nat)
    requires line.id in products && line.color != Unset
  {
    if Intended(products, line) > 0 then Intended(products, line) else 0
  }

  predicate AllFound(products: map<ProductId, Product>, cart: seq<CartLine>, isValidId: ProductId -> bool) {
    forall k :: 0 <= k < |cart| ==> Found(products, isValidId, cart[k].id)
  }

  /** The order lines a cart is expected to produce: one per found line with a
      positive intended quantity. */
  function Planned(products: map<ProductId, Product>, cart: seq<CartLine>, isValidId: ProductId -> bool): seq<LineItem>
    requires ColoursChosen(cart)
  {
    if cart == [] then []
    else
      var line := cart[|cart| - 1];
      Planned(products, cart[..|cart| - 1], isValidId) +
        (if Found(products, isValidId, line.id) && Intended(products, line) > 0
         then [LineItem(line.id, line.color, Intended(products, line))] else [])
  }

  predicate NamesKey(cart: seq<CartLine>, id: ProductId, c: Color) {
    exists k :: 0 <= k < |cart| && cart[k].id == id && cart[k].color == c
  }

  /** Only stock changes: the same products, the same names, numbers, prices and
      images, stock never rising and never below zero. */
  lemma {:induction false} FulfilOnlyTakesStock(products: map<ProductId, Product>, cart: seq<CartLine>,
                                                isValidId: ProductId -> bool)
    requires ColoursChosen(cart)
    ensures var g := Fulfil(products, cart, isValidId);
      g.products.Keys == products.Keys &&
      (forall id :: id in products ==>
        g.products[id].name == products[id].name && g.products[id].productNo == products[id].productNo &&
        g.products[id].price == products[id].price && g.products[id].img == products[id].img &&
        g.products[id].dark <= products[id].dark && g.products[id].light <= products[id].light) &&
      (StockNonNegative(products) ==> StockNonNegative(g.products)) &&
      (DistinctProductNos(products) ==> DistinctProductNos(g.products))
  {
    if cart != [] {
      var pre := cart[..|cart| - 1];
      FulfilOnlyTakesStock(products, pre, isValidId);
      var g := Fulfil(products, pre, isValidId);
      var line := cart[|cart| - 1];
      if isValidId(line.id) && line.id in g.products {
        var p := g.products[line.id];
        var q := Fulfilled(line.quantities, Stock(p, line.color));
        if q > 0 {
          var p' := WithStock(p, line.color, Stock(p, line.color) - q);
          assert p'.dark <= p.dark && p'.light <= p.light;
          if StockNonNegative(products) {
            assert p.dark >= 0 && p.light >= 0;
            assert p'.dark >= 0 && p'.light >= 0;
          }
        }
      }
    }
  }

  /** Every staged order line names a product the lookup finds, a real colour
      and a quantity of at least 1. */
  lemma {:induction false} FulfilStagesValidLines(products: map<ProductId, Product>, cart: seq<CartLine>,
                                                  isValidId: ProductId -> bool)
    requires ColoursChosen(cart)
    ensures var g := Fulfil(products, cart, isValidId);
      forall k :: 0 <= k < |g.staged| ==>
        g.staged[k].quantity >= 1 && g.staged[k].color != Unset && Found(products, isValidId, g.staged[k].productId)
  {
    if cart != [] {
      FulfilStagesValidLines(products, cart[..|cart| - 1], isValidId);
      FulfilOnlyTakesStock(products, cart[..|cart| - 1], isValidId);
    }
  }

  /** The handler fails exactly when some line's lookup throws, and the fault it
      reports belongs to such a line: a malformed id, or a well-formed one that
      no product has. */
  lemma {:induction false} FulfilFault(products: map<ProductId, Product>, cart: seq<CartLine>,
                                       isValidId: ProductId -> bool)
    requires ColoursChosen(cart)
    ensures var g := Fulfil(products, cart, isValidId);
      (g.fault.None? <==> AllFound(products, cart, isValidId)) &&
      (g.fault.Some? ==> exists k :: 0 <= k < |cart| && cart[k].id == g.fault.value.id) &&
      (g.fault.Some? && g.fault.value.Malformed? ==> !isValidId(g.fault.value.id)) &&
      (g.fault.Some? && g.fault.value.NotFound? ==> isValidId(g.fault.value.id) && g.fault.value.id !in products)
  {
    if cart != [] {
      var pre := cart[..|cart| - 1];
      FulfilFault(products, pre, isValidId);
      FulfilOnlyTakesStock(products, pre, isValidId);
      var g := Fulfil(products, pre, isValidId);
      assert forall k :: 0 <= k < |pre| ==> pre[k] == cart[k];
      if g.fault.Some? {
        var k :| 0 <= k < |pre| && pre[k].id == g.fault.value.id;
        assert cart[k] == pre[k];
      }
    }
  }

  /** A step changes the stock of its own (product, colour) key only, and never
      that of an id that does not cast. */
  lemma StepTouchesOnlyItsKey(g: Progress, line: CartLine, isValidId: ProductId -> bool, id: ProductId, c: Color)
    requires line.color != Unset && c != Unset && id in g.products
    requires id != line.id || c != line.color || !isValidId(id)
    ensures id in Step(g, line, isValidId).products
    ensures Stock(Step(g, line, isValidId).products[id], c) == Stock(g.products[id], c)
  {
  }

  /** A key that no cart line names, or whose id does not cast, keeps its stock. */
  lemma {:induction false} FulfilKeepsUnnamedKey(products: map<ProductId, Product>, cart: seq<CartLine>,
                                                 isValidId: ProductId -> bool, id: ProductId, c: Color)
    requires ColoursChosen(cart) && id in products && c != Unset
    requires !NamesKey(cart, id, c) || !isValidId(id)
    ensures id in Fulfil(products, cart, isValidId).products
    ensures Stock(Fulfil(products, cart, isValidId).products[id], c) == Stock(products[id], c)
  {
    if cart != [] {
      var n := |cart| - 1;
      assert forall k :: 0 <= k < n ==> cart[..n][k] == cart[k];
      FulfilKeepsUnnamedKey(products, cart[..n], isValidId, id, c);
      StepTouchesOnlyItsKey(Fulfil(products, cart[..n], isValidId), cart[n], isValidId, id, c);
    }
  }

  /** With distinct keys, the last line's key is not named before it. */
  lemma LastKeyIsNew(cart: seq<CartLine>)
    requires DistinctKeys(cart) && cart != []
    ensures !NamesKey(cart[..|cart| - 1], cart[|cart| - 1].id, cart[|cart| - 1].color)
  {
    var n := |cart| - 1;
    assert forall k :: 0 <= k < n ==> cart[..n][k] == cart[k];
  }

  /** When no key repeats, the staged lines are the planned ones: each found line
      is clamped against the stock the request found, whatever other lines threw. */
  lemma {:induction false} FulfilStagesPlan(products: map<ProductId, Product>, cart: seq<CartLine>,
                                            isValidId: ProductId -> bool)
    requires ColoursChosen(cart) && DistinctKeys(cart)
    ensures Fulfil(products, cart, isValidId).staged == Planned(products, cart, isValidId)
  {
    if cart != [] {
      var n := |cart| - 1;
      var line := cart[n];
      assert forall k :: 0 <= k < n ==> cart[..n][k] == cart[k];
      FulfilStagesPlan(products, cart[..n], isValidId);
      FulfilOnlyTakesStock(products, cart[..n], isValidId);
      if Found(products, isValidId, line.id) {
        LastKeyIsNew(cart);
        FulfilKeepsUnnamedKey(products, cart[..n], isValidId, line.id, line.color);
      }
    }
  }

  /** Under the same condition, the key of each found line loses exactly what
      that line took, whether or not another line threw. */
  lemma {:induction false} FulfilTakesPerLine(products: map<ProductId, Product>, cart: seq<CartLine>,
                                              isValidId: ProductId -> bool, k: nat)
    requires ColoursChosen(cart) && DistinctKeys(cart) && k < |cart| && Found(products, isValidId, cart[k].id)
    ensures cart[k].id in Fulfil(products, cart, isValidId).products
    ensures Stock(Fulfil(products, cart, isValidId).products[cart[k].id], cart[k].color) ==
            Stock(products[cart[k].id], cart[k].color) - Taken(products, cart[k])
  {
    var n := |cart| - 1;
    var line := cart[n];
    var pre := cart[..n];
    assert forall j :: 0 <= j < n ==> pre[j] == cart[j];
    FulfilOnlyTakesStock(products, pre, isValidId);
    if k == n {
      LastKeyIsNew(cart);
      FulfilKeepsUnnamedKey(products, pre, isValidId, line.id, line.color);
    } else {
      FulfilTakesPerLine(products, pre, isValidId, k);
      StepTouchesOnlyItsKey(Fulfil(products, pre, isValidId), line, isValidId, cart[k].id, cart[k].color);
    }
  }

  /** The main property of placement, gathered: a fault iff some lookup throws,
      the planned lines staged, each found line's key down by what that line
      took, every other key as it was. */
  lemma FulfilMatchesPlan(products: map<ProductId, Product>, cart: seq<CartLine>, isValidId: ProductId -> bool)
    requires ColoursChosen(cart) && DistinctKeys(cart)
    ensures var g := Fulfil(products, cart, isValidId);
      (g.fault.None? <==> AllFound(products, cart, isValidId)) &&
      g.products.Keys == products.Keys &&
      g.staged == Planned(products, cart, isValidId) &&
      (forall k :: 0 <= k < |cart| && Found(products, isValidId, cart[k].id) ==>
        Stock(g.products[cart[k].id], cart[k].color) ==
          Stock(products[cart[k].id], cart[k].color) - Taken(products, cart[k])) &&
      (forall id, c :: id in products && c != Unset && (!NamesKey(cart, id, c) || !isValidId(id)) ==>
        Stock(g.products[id], c) == Stock(products[id], c))
  {
    FulfilFault(products, cart, isValidId);
    FulfilOnlyTakesStock(products, cart, isValidId);
    FulfilStagesPlan(products, cart, isValidId);
    forall k | 0 <= k < |cart| && Found(products, isValidId, cart[k].id)
      ensures Stock(Fulfil(products, cart, isValidId).products[cart[k].id], cart[k].color) ==
              Stock(products[cart[k].id], cart[k].color) - Taken(products, cart[k])
    {
      FulfilTakesPerLine(products, cart, isValidId, k);
    }
    forall id, c | id in products && c != Unset && (!NamesKey(cart, id, c) || !isValidId(id))
      ensures Stock(Fulfil(products, cart, isValidId).products[id], c) == Stock(products[id], c)
    {
      FulfilKeepsUnnamedKey(products, cart, isValidId, id, c);
    }
  }

  /** A worked example: five dark and no light units of a product, and a cart
      asking for eight dark and three light. The dark line is cut down to five,
      the light line is dropped, one line is staged and no stock is left. */
  lemma ClampExample()
    ensures var p := Product("Chair", "C-1", 10, "img", 5, 0);
      var cart := [CartLine("p1", Dark, 8), CartLine("p1", Light, 3)];
      Fulfil(map["p1" := p], cart, _ => true) ==
        Progress(map["p1" := p.(dark := 0)], [LineItem("p1", Dark, 5)], None)
  {
    var p := Product("Chair", "C-1", 10, "img", 5, 0);
    var cart := [CartLine("p1", Dark, 8), CartLine("p1", Light, 3)];
    var valid: ProductId -> bool := _ => true;
    assert cart[..1][..0] == [];
    assert cart[..|cart| - 1] == cart[..1];
    var start := Fulfil(map["p1" := p], cart[..1][..0], valid);
    assert start == Progress(map["p1" := p], [], None);
    assert Fulfilled(8, 5) == 5;
    var after := Step(start, cart[0], valid);
    assert WithStock(p, Dark, 0) == p.(dark := 0);
    assert after == Progress(map["p1" := p]["p1" := p.(dark := 0)], [] + [LineItem("p1", Dark, 5)], None);
    assert map["p1" := p]["p1" := p.(dark := 0)] == map["p1" := p.(dark := 0)];
    assert Fulfil(map["p1" := p], cart[..1], valid) == after;
  }

  /** A worked example of a missing product: five dark units of `p1`, and a cart
      whose first line names an unknown product. The placement fails on that
      line, and `p1` still loses the two units its own line took. */
  lemma MissingLineExample()
    ensures var p := Product("Chair", "C-1", 10, "img", 5, 0);
      var cart := [CartLine("x", Dark, 1), CartLine("p1", Dark, 2)];
      Fulfil(map["p1" := p], cart, _ => true) ==
        Progress(map["p1" := p.(dark := 3)], [LineItem("p1", Dark, 2)], Some(NotFound("x")))
  {
    var p := Product("Chair", "C-1", 10, "img", 5, 0);
    var cart := [CartLine("x", Dark, 1), CartLine("p1", Dark, 2)];
    var valid: ProductId -> bool := _ => true;
    assert cart[..1][..0] == [];
    assert cart[..|cart| - 1] == cart[..1];
    var start := Fulfil(map["p1" := p], cart[..1][..0], valid);
    assert start == Progress(map["p1" := p], [], None);
    assert "x" != "p1";
    var after := Step(start, cart[0], valid);
    assert after == Progress(map["p1" := p], [], Some(NotFound("x")));
    assert Fulfil(map["p1" := p], cart[..1], valid) == after;
    assert Fulfilled(2, 5) == 2;
    assert WithStock(p, Dark, 3) == p.(dark := 3);
    assert map["p1" := p]["p1" := p.(dark := 3)] == map["p1" := p.(dark := 3)];
  }

  // ---------------------------------------------------------------------------
  // The handler

  /** The order recorded by a placement: for the upserted customer, by the caller,
      holding the staged lines in some order. */
  predicate Records(o: Order, storeId: nat, staged: seq<LineItem>, caller: UserId, now: int) {
    o.storeId == storeId && multiset(o.product) == multiset(staged) &&
    o.createdBy == caller && o.createdAt == now
  }

  /** The loop over the cart: look each line's product up, clamp the line, take
      the stock, stage the line; a lookup that throws is remembered, and the
      loop goes on. */
  method TakeStock(db: Db, cart: seq<CartLine>, isValidId: ProductId -> bool)
    returns (staged: seq<LineItem>, fault: Option<Fault>)
    requires ColoursChosen(cart)
    modifies db`products
    ensures Fulfil(old(db.products), cart, isValidId) == Progress(db.products, staged, fault)
  {
    staged, fault := [], None;
    var i := 0;
    while i < |cart|
      invariant 0 <= i <= |cart|
      invariant Fulfil(old(db.products), cart[..i], isValidId) == Progress(db.products, staged, fault)
    {
      var line := cart[i];
      assert cart[..i + 1][..i] == cart[..i];
      if !isValidId(line.id) {
        if fault.None? {
          fault := Some(Malformed(line.id));
        }
      } else if line.id !in db.products {
        if fault.None? {
          fault := Some(NotFound(line.id));
        }
      } else {
        var product := db.products[line.id];
        var quantities := line.quantities;
        if Stock(product, line.color) < quantities {
          quantities := Stock(product, line.color);
        }
        if quantities > 0 {
          db.products := db.products[line.id := WithStock(product, line.color, Stock(product, line.color) - quantities)];
          staged := staged + [LineItem(line.id, line.color, quantities)];
        }
      }
      i := i + 1;
    }
    assert cart[..i] == cart;
  }

  /** A new order whose store exists and whose lines are valid keeps the orders well formed. */
  lemma AppendKeepsOrdersWellFormed(orders: seq<Order>, oldCount: nat, newCount: nat, o: Order)
    requires OrdersWellFormed(orders, oldCount) && oldCount <= newCount
    requires o.storeId < newCount && forall k :: 0 <= k < |o.product| ==> o.product[k].quantity >= 1
    ensures OrdersWellFormed(orders + [o], newCount)
  {
  }

  /** `POST /api/store`. `isValidId` is the driver's object-id cast; `now` is the
      creation time the database stamps. */
  method PlaceOrder(db: Db, session: Option<Session>, form: StoreForm, cart: seq<CartLine>,
                    isValidId: ProductId -> bool, now: int)
    returns (reply: Reply)
    requires db.Valid()
    requires ColoursChosen(cart) && DistinctKeys(cart)
    modifies db
    ensures db.Valid()
    ensures session.None? ==> reply == Denied && unchanged(db)
    ensures session.Some? && Incomplete(form) ==> reply == MissingFields && unchanged(db)
    ensures session.Some? && !Incomplete(form) ==>
      var upserted := Upsert(old(db.stores), form, session.value.id);
      var g := Fulfil(old(db.products), cart, isValidId);
      db.stores == upserted.0 && db.products == g.products && db.users == old(db.users) &&
      (g.fault.Some? ==> reply == Failed(g.fault.value) && db.orders == old(db.orders)) &&
      (g.fault.None? ==> reply == Created(|g.staged|)) &&
      (g.fault.None? && g.staged == [] ==> db.orders == old(db.orders)) &&
      (g.fault.None? && g.staged != [] ==>
        |db.orders| == |old(db.orders)| + 1 && db.orders[..|old(db.orders)|] == old(db.orders) &&
        Records(db.orders[|old(db.orders)|], upserted.1, g.staged, session.value.id, now))
  {
    if session.None? {
      return Denied;
    }
    if Incomplete(form) {
      return MissingFields;
    }
    var caller := session.value.id;
    var customer := Upsert(db.stores, form, caller);
    db.stores := customer.0;

    ghost var products0 := db.products;
    var staged, fault := TakeStock(db, cart, isValidId);
    FulfilOnlyTakesStock(products0, cart, isValidId);
    FulfilStagesValidLines(products0, cart, isValidId);
    if fault.Some? {
      return Failed(fault.value);
    }
    if |staged| > 0 {
      var o := Order(customer.1, staged, caller, now);
      AppendKeepsOrdersWellFormed(db.orders, |old(db.stores)|, |db.stores|, o);
      db.orders := db.orders + [o];
      assert db.orders[..|old(db.orders)|] == old(db.orders);
    }
    reply := Created(|staged|);
  }
}
