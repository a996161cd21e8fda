/** How each order and contract step changes the orders: along the status machine, never a finished order. */
module OrderEvolution {
  import opened Base
  import opened Tally
  import opened Quotas
  import opened StockLedger
  import opened Database
  import opened OrderSteps
  import opened ContractSteps
  import opened MoneyInvariant
  import opened Lifecycle

  /** Evolution without a settlement. */
  ghost predicate Calm(orders: seq<Order>, orders': seq<Order>) {
    OrdersEvolve(orders, orders') && OnlyUnsettledAdded(orders, orders')
  }

  /** Order work changes nothing in a contract but its counters. */
  ghost predicate OnlyCounters(contracts: seq<Contract>, contracts': seq<Contract>) {
    && |contracts'| == |contracts|
    && (forall c :: 0 <= c < |contracts| ==> contracts'[c] == contracts[c].(items := contracts'[c].items))
  }

  /** A step on existing orders that neither moves stock nor settles. */
  ghost predicate CalmStep(db: Db, db': Db) {
    && Calm(db.orders, db'.orders) && |db'.orders| == |db.orders|
    && OnlyCounters(db.contracts, db'.contracts) && db'.stock == db.stock && db'.money == db.money
  }

  /** Evolution in which exactly one order is completed. */
  ghost predicate Closing(orders: seq<Order>, orders': seq<Order>, o: OrderId) {
    OrdersEvolve(orders, orders') && Completes(orders, orders', o)
  }

  lemma {:induction false} CalmTransitive(a: seq<Order>, b: seq<Order>, c: seq<Order>)
    requires Calm(a, b) && Calm(b, c) && |a| == |b| == |c|
    ensures Calm(a, c)
  {
    EvolvesTransitive(a, b, c);
    forall o | 0 <= o < |a|
      ensures SameDue(a[o], c[o])
    {
      assert SameDue(a[o], b[o]) && SameDue(b[o], c[o]);
    }
  }

  lemma {:induction false} EvolvesReflexive(orders: seq<Order>)
    ensures Calm(orders, orders)
  {
  }

  lemma {:induction false} CreateOrderCalm(db: Db, req: Checkout, catalog: Catalog, today: int, now: int)
    requires CreateOrder(db, req, catalog, today, now).Success?
    ensures var db' := CreateOrder(db, req, catalog, today, now).value;
            && Calm(db.orders, db'.orders) && |db'.orders| == |db.orders| + 1
            && OnlyCounters(db.contracts, db'.contracts) && db'.money == db.money
            && CheckoutTara(db.stock, req, catalog, now).Success?
            && db'.stock == CheckoutTara(db.stock, req, catalog, now).value.0
            && Exists(db'.stock, Last(db'.orders).clientInventory)
  {
    var db' := CreateOrder(db, req, catalog, today, now).value;
    assert db'.orders == db.orders + [Last(db'.orders)];
    CreatedLines(db, req, catalog, today, now, db');
    AppendIsCalm(db.orders, Last(db'.orders));
  }

  /** The cart of a delivery order repeats no product, so neither do its lines. */
  lemma {:induction false} CreatedLines(db: Db, req: Checkout, catalog: Catalog, today: int, now: int, db': Db)
    requires CreateOrder(db, req, catalog, today, now) == Success(db')
    ensures db'.orders != [] && DistinctLines(Last(db'.orders).lines)
  {
    var lines := Last(db'.orders).lines;
    assert |lines| == |req.cart| && forall i :: 0 <= i < |lines| ==> lines[i].product == req.cart[i].0;
    assert DistinctKeys(req.cart);
  }

  lemma {:induction false} AddedLines(lines: seq<Line>, p: ProductId, quantity: int, price: int)
    requires DistinctLines(lines)
    ensures DistinctLines(AddToLines(lines, p, quantity, price))
  {
  }

  lemma {:induction false} RemovedLines(lines: seq<Line>, n: nat)
    requires DistinctLines(lines) && n < |lines|
    ensures DistinctLines(lines[..n] + lines[n + 1..])
  {
    var kept := lines[..n] + lines[n + 1..];
    assert forall i :: 0 <= i < |kept| ==> kept[i] == lines[if i < n then i else i + 1];
  }

  lemma {:induction false} DeliveredProducts(lines: seq<Line>, actual: Cart)
    requires DeliveredLines(lines, actual).Success?
    ensures var delivered := DeliveredLines(lines, actual).value;
            |delivered| == |lines| && forall i :: 0 <= i < |lines| ==> delivered[i].product == lines[i].product
  {
    if lines != [] {
      DeliveredProducts(Front(lines), actual);
      assert forall i :: 0 <= i < |Front(lines)| ==> Front(lines)[i] == lines[i];
    }
  }

  lemma {:induction false} AppendIsCalm(orders: seq<Order>, ord: Order)
    requires ord.saleType == Delivery && ord.status == New && ord.history == [OrderLog(None, New)]
    requires DistinctLines(ord.lines)
    ensures Calm(orders, orders + [ord])
  {
  }

  lemma {:induction false} ReleaseOnlyCounters(contracts: seq<Contract>, c: ContractId, deltas: Deltas)
    requires ReleaseQuota(contracts, c, deltas).Success?
    ensures OnlyCounters(contracts, ReleaseQuota(contracts, c, deltas).value)
  {
  }

  lemma {:induction false} EditIsCalm(orders: seq<Order>, o: OrderId, ord: Order)
    requires o < |orders| && Evolves(orders[o], ord) && SameDue(orders[o], ord)
    ensures Calm(orders, orders[o := ord])
  {
  }

  /** What adding a product writes. */
  lemma {:induction false} AddLineShape(
    db: Db, o: OrderId, p: ProductId, quantity: int, requester: Option<UserId>, catalog: Catalog, db': Db)
    requires AddProduct(db, o, p, quantity, requester, catalog) == Success(db')
    ensures o < |db.orders| && |db'.orders| == |db.orders| && db'.orders == db.orders[o := db'.orders[o]]
    ensures OnlyCounters(db.contracts, db'.contracts) && db'.stock == db.stock && db'.money == db.money
    ensures var ord, ord' := db.orders[o], db'.orders[o];
            && ord.status == New && ord' == ord.(lines := ord'.lines, total := ord'.total, reserved := ord'.reserved)
            && exists price :: ord'.lines == AddToLines(ord.lines, p, quantity, price)
  {
  }

  /** An edit of a NEW order that repeats no product is calm. */
  lemma {:induction false} LineEditIsCalm(db: Db, o: OrderId, db': Db)
    requires o < |db.orders| && |db'.orders| == |db.orders| && db'.orders == db.orders[o := db'.orders[o]]
    requires OnlyCounters(db.contracts, db'.contracts) && db'.stock == db.stock && db'.money == db.money
    requires var ord, ord' := db.orders[o], db'.orders[o];
             && ord.status == New && ord' == ord.(lines := ord'.lines, total := ord'.total, reserved := ord'.reserved)
             && (DistinctLines(ord.lines) ==> DistinctLines(ord'.lines))
    ensures CalmStep(db, db')
  {
    EditIsCalm(db.orders, o, db'.orders[o]);
  }

  lemma {:induction false} AddLineCalm(db: Db, o: OrderId, p: ProductId, quantity: int, requester: Option<UserId>, catalog: Catalog)
    requires AddProduct(db, o, p, quantity, requester, catalog).Success?
    ensures CalmStep(db, AddProduct(db, o, p, quantity, requester, catalog).value)
  {
    var db' := AddProduct(db, o, p, quantity, requester, catalog).value;
    AddLineShape(db, o, p, quantity, requester, catalog, db');
    var lines := db.orders[o].lines;
    var price :| db'.orders[o].lines == AddToLines(lines, p, quantity, price);
    if DistinctLines(lines) {
      AddedLines(lines, p, quantity, price);
    }
    LineEditIsCalm(db, o, db');
  }

  /** What removing a product writes, if anything. */
  lemma {:induction false} RemoveLineShape(db: Db, o: OrderId, p: ProductId, requester: Option<UserId>, db': Db)
    requires RemoveProduct(db, o, p, requester) == Success(db')
    ensures o < |db.orders| && |db'.orders| == |db.orders| && db'.orders == db.orders[o := db'.orders[o]]
    ensures OnlyCounters(db.contracts, db'.contracts) && db'.stock == db.stock && db'.money == db.money
    ensures var ord, ord' := db.orders[o], db'.orders[o];
            && ord.status == New && ord' == ord.(lines := ord'.lines, total := ord'.total, reserved := ord'.reserved)
            && (ord'.lines == ord.lines || exists n :: 0 <= n < |ord.lines| && ord'.lines == ord.lines[..n] + ord.lines[n + 1..])
  {
    var found := FindLine(db.orders[o].lines, p);
    if found.Some? {
      assert db'.orders[o] == WithoutLine(db.orders[o], found.value);
    }
  }

  lemma {:induction false} RemoveLineCalm(db: Db, o: OrderId, p: ProductId, requester: Option<UserId>)
    requires RemoveProduct(db, o, p, requester).Success?
    ensures CalmStep(db, RemoveProduct(db, o, p, requester).value)
  {
    var db' := RemoveProduct(db, o, p, requester).value;
    RemoveLineShape(db, o, p, requester, db');
    var lines := db.orders[o].lines;
    if db'.orders[o].lines != lines && DistinctLines(lines) {
      var n :| 0 <= n < |lines| && db'.orders[o].lines == lines[..n] + lines[n + 1..];
      RemovedLines(lines, n);
    }
    LineEditIsCalm(db, o, db');
  }

  lemma {:induction false} AssignCalm(db: Db, o: OrderId, courier: UserId, isCourier: bool)
    requires AssignCourier(db, o, courier, isCourier).Success?
    ensures CalmStep(db, AssignCourier(db, o, courier, isCourier).value)
  {
    var ord, ord' := db.orders[o], AssignCourier(db, o, courier, isCourier).value.orders[o];
    MoveEvolves(ord, ord', Assigned);
    EditIsCalm(db.orders, o, ord');
  }

  lemma {:induction false} CancelCalm(db: Db, o: OrderId)
    requires o < |db.orders| && CancelOrder(db, o).Success?
    requires db.orders[o].saleType == Delivery || db.orders[o].status == New
    requires !Final(db.orders[o].status)
    ensures CalmStep(db, CancelOrder(db, o).value)
  {
    var ord, ord' := db.orders[o], CancelOrder(db, o).value.orders[o];
    MoveEvolves(ord, ord', Cancelled);
    EditIsCalm(db.orders, o, ord');
  }

  lemma {:induction false} CancelStaleCalm(db: Db, stale: seq<OrderId>, status: OrderStatus)
    requires OrderPaths(db.orders) && (status == New || status == Assigned)
    requires CancelStale(db, stale, status).Success?
    ensures CalmStep(db, CancelStale(db, stale, status).value)
  {
    if stale == [] {
      EvolvesReflexive(db.orders);
    } else {
      CancelStaleCalm(db, Front(stale), status);
      var before, o := CancelStale(db, Front(stale), status).value, Last(stale);
      if o < |before.orders| && before.orders[o].status == status {
        assert Evolves(db.orders[o], before.orders[o]) && OrderPath(before.orders[o]);
        CancelCalm(before, o);
        CalmTransitive(db.orders, before.orders, CancelOrder(before, o).value.orders);
      }
    }
  }

  /** Cancelling a contract's orders in bulk. */
  lemma {:induction false} CancelledRowsCalm(orders: seq<Order>, c: ContractId)
    requires OrderPaths(orders)
    ensures Calm(orders, CancelledRows(orders, c))
  {
    forall o | 0 <= o < |orders|
      ensures Evolves(orders[o], CancelledRow(orders[o], c)) && SameDue(orders[o], CancelledRow(orders[o], c))
    {
      if Cancellable(orders[o], c) {
        assert OrderPath(orders[o]);
        MoveEvolves(orders[o], CancelledRow(orders[o], c), Cancelled);
      }
    }
  }

  /** Status changes other than a delivery. */
  lemma {:induction false} MoveCalm(db: Db, o: OrderId, target: OrderStatus)
    requires o < |db.orders| && CheckTransition(db.orders[o], target).Success?
    requires target == Delivered ==> db.orders[o].status == Delivered
    ensures CalmStep(db, db.(orders := db.orders[o := WithStatus(db.orders[o], target)]))
  {
    MoveEvolves(db.orders[o], WithStatus(db.orders[o], target), target);
    EditIsCalm(db.orders, o, WithStatus(db.orders[o], target));
  }

  /** What the correction of an order writes. */
  lemma {:induction false} AdjustedOrder(db: Db, o: OrderId, actual: Cart, db1: Db)
    requires o < |db.orders| && AdjustDelivery(db, o, actual) == Success(db1)
    ensures |db1.orders| == |db.orders| && db1.orders == db.orders[o := db1.orders[o]] && db1.money == db.money
    ensures db1.orders[o] == db.orders[o].(lines := db1.orders[o].lines, total := db1.orders[o].total)
    ensures actual == [] ==> db1.orders[o] == db.orders[o]
    ensures actual != [] ==> db1.orders[o].total == LinesValue(db1.orders[o].lines)
    ensures DistinctLines(db.orders[o].lines) ==> DistinctLines(db1.orders[o].lines)
  {
    if actual != [] {
      DeliveredProducts(db.orders[o].lines, actual);
    }
  }

  /** What fulfilment writes: the adjusted order, and its settlement. */
  lemma {:induction false} FulfilShape(db: Db, o: OrderId, actual: Cart, catalog: Catalog, now: int, db': Db)
    requires o < |db.orders| && Fulfil(db, o, actual, catalog, now) == Success(db')
    ensures |db'.orders| == |db.orders| && db'.orders == db.orders[o := db'.orders[o]]
    ensures db'.orders[o] == db.orders[o].(lines := db'.orders[o].lines, total := db'.orders[o].total)
    ensures actual == [] ==> db'.orders[o] == db.orders[o]
    ensures actual != [] ==> db'.orders[o].total == LinesValue(db'.orders[o].lines)
    ensures Settle(db.money, db'.orders[o], o) == Success(db'.money)
    ensures DistinctLines(db.orders[o].lines) ==> DistinctLines(db'.orders[o].lines)
  {
    var db1 := FulfilParts(db, o, actual, catalog, now, db');
    AdjustedOrder(db, o, actual, db1);
  }

  lemma {:induction false} FulfilParts(db: Db, o: OrderId, actual: Cart, catalog: Catalog, now: int, db': Db) returns (db1: Db)
    requires o < |db.orders| && Fulfil(db, o, actual, catalog, now) == Success(db')
    ensures AdjustDelivery(db, o, actual) == Success(db1) && db'.orders == db1.orders && o < |db1.orders|
    ensures Settle(db1.money, db1.orders[o], o) == Success(db'.money)
  {
    db1 := AdjustDelivery(db, o, actual).value;
  }

  lemma {:induction false} DeliveryParts(
    db: Db, o: OrderId, actual: Cart, requester: Option<UserId>, catalog: Catalog, now: int, db': Db) returns (moved: Db)
    requires UpdateStatus(db, o, Delivered, actual, requester, catalog, now) == Success(db')
    requires o < |db.orders| && db.orders[o].status != Delivered
    ensures moved == db.(orders := db.orders[o := WithStatus(db.orders[o], Delivered)])
    ensures Fulfil(moved, o, actual, catalog, now) == Success(db')
    ensures OrderEdge(db.orders[o].saleType, db.orders[o].status, Delivered)
  {
    moved := db.(orders := db.orders[o := WithStatus(db.orders[o], Delivered)]);
  }

  /** A delivery: the order is adjusted, completed and settled in one step. */
  lemma {:induction false} DeliveryCloses(
    db: Db, o: OrderId, actual: Cart, requester: Option<UserId>, catalog: Catalog, now: int)
    requires UpdateStatus(db, o, Delivered, actual, requester, catalog, now).Success?
    requires o < |db.orders| && db.orders[o].status != Delivered
    ensures var db' := UpdateStatus(db, o, Delivered, actual, requester, catalog, now).value;
            && Closing(db.orders, db'.orders, o)
            && Settle(db.money, db'.orders[o], o) == Success(db'.money)
            && db'.orders[o].status == Delivered
            && (actual == [] ==> db'.orders[o].lines == db.orders[o].lines && db'.orders[o].total == db.orders[o].total)
            && (actual != [] ==> db'.orders[o].total == LinesValue(db'.orders[o].lines))
  {
    var db' := UpdateStatus(db, o, Delivered, actual, requester, catalog, now).value;
    var ord, ord' := db.orders[o], db'.orders[o];
    var moved := DeliveryParts(db, o, actual, requester, catalog, now, db');
    FulfilShape(moved, o, actual, catalog, now, db');
    assert db'.orders == db.orders[o := ord'];
    CompletionCloses(db.orders, o, ord', Delivered);
  }

  /** Completing one order along an allowed edge, its lines at most shortened. */
  lemma {:induction false} CompletionCloses(orders: seq<Order>, o: OrderId, ord': Order, target: OrderStatus)
    requires o < |orders| && Settled(target) && OrderEdge(orders[o].saleType, orders[o].status, target)
    requires ord' == WithStatus(orders[o], target).(lines := ord'.lines, total := ord'.total)
    requires DistinctLines(orders[o].lines) ==> DistinctLines(ord'.lines)
    ensures Closing(orders, orders[o := ord'], o)
  {
    MoveEvolves(orders[o], ord', target);
    EditEvolves(orders, o, ord');
  }

  lemma {:induction false} PickupCloses(db: Db, o: OrderId, catalog: Catalog, now: int)
    requires CompletePickup(db, o, catalog, now).Success?
    ensures var db' := CompletePickup(db, o, catalog, now).value;
            Closing(db.orders, db'.orders, o) && Settle(db.money, db'.orders[o], o) == Success(db'.money)
  {
    var db' := CompletePickup(db, o, catalog, now).value;
    CompletionCloses(db.orders, o, db'.orders[o], PickupCompleted);
  }

  /** What OpenSale writes. */
  lemma {:induction false} OpenSaleShape(
    db: Db, client: UserId, warehouse: InventoryId, cart: Cart, capitalise: bool, catalog: Catalog, now: int, db1: Db)
    requires OpenSale(db, client, warehouse, cart, capitalise, catalog, now) == Success(db1)
    ensures db1.orders != [] && db1.orders == db.orders + [Last(db1.orders)]
    ensures db1.contracts == db.contracts && db1.money == db.money
    ensures db1.stock.inventories == db.stock.inventories ==> Exists(db.stock, Last(db1.orders).clientInventory)
    ensures var ord := Last(db1.orders);
            && LinesAllowed(ord.lines) && ord.total == LinesValue(ord.lines)
            && ord.contract.None? && ord.payment == Cash && !ord.reserved && ord.status == PickupCompleted
            && ord.saleType == WarehousePickup && ord.history == [OrderLog(None, PickupCompleted)]
  {
  }

  /** Handing out the goods leaves orders and contracts alone, and settles. */
  lemma {:induction false} HandlingShape(db: Db, o: OrderId, catalog: Catalog, now: int, db': Db)
    requires o < |db.orders| && HandleWarehousePickup(db, o, catalog, now) == Success(db')
    ensures db'.orders == db.orders && db'.contracts == db.contracts
    ensures Settle(db.money, db.orders[o], o) == Success(db'.money)
  {
  }

  lemma {:induction false} SaleShape(
    db: Db, buyer: Option<UserId>, warehouse: InventoryId, cart: Cart, capitalise: bool, catalog: Catalog, now: int, db': Db)
    returns (db1: Db)
    requires CreateWarehouseSale(db, buyer, warehouse, cart, capitalise, catalog, now) == Success(db')
    ensures OpenSale(db, BuyerOf(buyer), warehouse, cart, capitalise, catalog, now) == Success(db1)
    ensures |db1.orders| == |db.orders| + 1 && HandleWarehousePickup(db1, |db.orders|, catalog, now) == Success(db')
  {
    db1 := OpenSale(db, BuyerOf(buyer), warehouse, cart, capitalise, catalog, now).value;
  }

  lemma {:induction false} SaleCloses(db: Db, db1: Db, catalog: Catalog, now: int, db': Db)
    requires db1.orders != [] && db1.orders == db.orders + [Last(db1.orders)] && db1.money == db.money
    requires Last(db1.orders).saleType == WarehousePickup && Last(db1.orders).status == PickupCompleted
    requires Last(db1.orders).history == [OrderLog(None, PickupCompleted)]
    requires HandleWarehousePickup(db1, |db.orders|, catalog, now) == Success(db')
    ensures Closing(db.orders, db'.orders, |db.orders|)
    ensures Settle(db.money, db'.orders[|db.orders|], |db.orders|) == Success(db'.money)
  {
    HandlingShape(db1, |db.orders|, catalog, now, db');
    AppendCloses(db.orders, Last(db1.orders));
  }

  lemma {:induction false} AppendCloses(orders: seq<Order>, ord: Order)
    requires ord.saleType == WarehousePickup && ord.status == PickupCompleted
    requires ord.history == [OrderLog(None, PickupCompleted)]
    ensures Closing(orders, orders + [ord], |orders|)
  {
  }
}
