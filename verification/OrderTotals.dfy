/** The stored total of an order is the value of its lines, as long as additions are at frozen prices. */
module OrderTotals {
  import opened Base
  import opened Database
  import opened OrderSteps
  import opened ContractSteps
  import opened QuotaInvariant
  import opened Lifecycle
  import opened OrderEvolution
  import opened System
  import opened RunInvariant

  ghost predicate TotalsOk(orders: seq<Order>) {
    forall o :: 0 <= o < |orders| ==> TotalOk(orders[o])
  }

  /** The price add_product_to_order charges. */
  function ChargedPrice(db: Db, o: OrderId, p: ProductId, catalog: Catalog): int
    requires o < |db.orders|
  {
    var ord := db.orders[o];
    if OnContract(ord) && ord.contract.value < |db.contracts| && p in db.contracts[ord.contract.value].items
    then db.contracts[ord.contract.value].items[p].price
    else if p in catalog then catalog[p].price else 0
  }

  /** Known before the call: what is added to an existing line costs what that line cost. */
  predicate AtFrozenPrice(db: Db, cmd: Command) {
    cmd.OrderWork? && cmd.order.AddLine? && cmd.order.order < |db.orders| ==>
      AtLinePrice(db.orders[cmd.order.order].lines, cmd.order.product,
                  ChargedPrice(db, cmd.order.order, cmd.order.product, cmd.order.catalog))
  }

  predicate SameLines(a: Order, b: Order) {
    a.lines == b.lines && a.total == b.total
  }

  lemma {:induction false} AddLineTotals(db: Db, o: OrderId, p: ProductId, quantity: int, requester: Option<UserId>, catalog: Catalog)
    requires TotalsOk(db.orders) && AddProduct(db, o, p, quantity, requester, catalog).Success?
    ensures var orders' := AddProduct(db, o, p, quantity, requester, catalog).value.orders;
            && |orders'| == |db.orders| && (forall x :: 0 <= x < |orders'| && x != o ==> orders'[x] == db.orders[x])
            && (TotalOk(orders'[o]) <==> AtLinePrice(db.orders[o].lines, p, ChargedPrice(db, o, p, catalog)))
  {
    assert TotalOk(db.orders[o]);
    var db' := AddProduct(db, o, p, quantity, requester, catalog).value;
    AddLineShape(db, o, p, quantity, requester, catalog, db');
    ChargedLines(db, o, p, quantity, requester, catalog, db');
    TotalAfterAdd(db.orders[o], p, quantity, ChargedPrice(db, o, p, catalog));
  }

  lemma {:induction false} ChargedLines(
    db: Db, o: OrderId, p: ProductId, quantity: int, requester: Option<UserId>, catalog: Catalog, db': Db)
    requires o < |db.orders| && AddProduct(db, o, p, quantity, requester, catalog) == Success(db')
    ensures |db'.orders| == |db.orders| && quantity > 0
    ensures var price := ChargedPrice(db, o, p, catalog);
            && db'.orders[o].lines == AddToLines(db.orders[o].lines, p, quantity, price)
            && db'.orders[o].total == db.orders[o].total + price * quantity
  {
  }

  lemma {:induction false} StaleTotals(db: Db, stale: seq<OrderId>, status: OrderStatus)
    requires TotalsOk(db.orders) && CancelStale(db, stale, status).Success?
    ensures TotalsOk(CancelStale(db, stale, status).value.orders)
  {
    if stale != [] {
      StaleTotals(db, Front(stale), status);
      var before, o := CancelStale(db, Front(stale), status).value, Last(stale);
      if o < |before.orders| && before.orders[o].status == status {
        assert SameLines(before.orders[o], CancelOrder(before, o).value.orders[o]);
      }
    }
  }

  lemma {:induction false} CancelledTotals(orders: seq<Order>, c: ContractId)
    requires TotalsOk(orders)
    ensures TotalsOk(CancelledRows(orders, c))
  {
    forall o | 0 <= o < |orders|
      ensures TotalOk(CancelledRow(orders[o], c))
    {
      assert TotalOk(orders[o]);
    }
  }

  lemma {:induction false} ExpiryTotals(db: Db, n: nat, today: int)
    requires TotalsOk(db.orders) && n <= |db.contracts| && ExpireContracts(db, n, today).Success?
    ensures TotalsOk(ExpireContracts(db, n, today).value.orders)
  {
    if n > 0 {
      ExpiryTotals(db, n - 1, today);
      CancelledTotals(ExpireContracts(db, n - 1, today).value.orders, n - 1);
    }
  }

  lemma {:induction false} StatusTotals(
    db: Db, o: OrderId, target: OrderStatus, actual: Cart, requester: Option<UserId>, catalog: Catalog, now: int)
    requires TotalsOk(db.orders) && UpdateStatus(db, o, target, actual, requester, catalog, now).Success?
    ensures TotalsOk(UpdateStatus(db, o, target, actual, requester, catalog, now).value.orders)
  {
    var db' := UpdateStatus(db, o, target, actual, requester, catalog, now).value;
    assert TotalOk(db.orders[o]);
    if db.orders[o].status != Delivered && target == Delivered {
      DeliveryCloses(db, o, actual, requester, catalog, now);
    }
  }

  lemma {:induction false} PlaceOrderTotals(db: Db, req: Checkout, catalog: Catalog, today: int, now: int)
    requires TotalsOk(db.orders) && CreateOrder(db, req, catalog, today, now).Success?
    ensures TotalsOk(CreateOrder(db, req, catalog, today, now).value.orders)
  {
  }

  lemma {:induction false} SaleTotals(
    db: Db, buyer: Option<UserId>, w: InventoryId, cart: Cart, capitalise: bool, catalog: Catalog, now: int)
    requires TotalsOk(db.orders) && CreateWarehouseSale(db, buyer, w, cart, capitalise, catalog, now).Success?
    ensures TotalsOk(CreateWarehouseSale(db, buyer, w, cart, capitalise, catalog, now).value.orders)
  {
    var db' := CreateWarehouseSale(db, buyer, w, cart, capitalise, catalog, now).value;
    var db1 := SaleShape(db, buyer, w, cart, capitalise, catalog, now, db');
    OpenSaleShape(db, BuyerOf(buyer), w, cart, capitalise, catalog, now, db1);
    HandlingShape(db1, |db.orders|, catalog, now, db');
  }

  lemma {:induction false} RemoveLineTotals(db: Db, o: OrderId, p: ProductId, requester: Option<UserId>)
    requires OrdersOk(db.orders, db.contracts) && TotalsOk(db.orders) && RemoveProduct(db, o, p, requester).Success?
    ensures TotalsOk(RemoveProduct(db, o, p, requester).value.orders)
  {
    assert TotalOk(db.orders[o]) && OrderOk(db.orders[o], db.contracts);
    if FindLine(db.orders[o].lines, p).Some? {
      TotalAfterRemove(db.orders[o], FindLine(db.orders[o].lines, p).value);
    }
  }

  lemma {:induction false} OrderWorkTotals(db: Db, cmd: OrderCommand)
    requires QuotaInv(db) && TotalsOk(db.orders) && OrderOutcome(db, cmd).Success?
    requires AtFrozenPrice(db, OrderWork(cmd))
    ensures TotalsOk(OrderOutcome(db, cmd).value.orders)
  {
    match cmd
    case PlaceOrder(req, catalog, today, now) => PlaceOrderTotals(db, req, catalog, today, now);
    case SellAtWarehouse(buyer, w, cart, cap, catalog, now) => SaleTotals(db, buyer, w, cart, cap, catalog, now);
    case FinishPickup(o, catalog, now) => assert TotalOk(db.orders[o]);
    case AddLine(o, p, q, requester, catalog) => AddLineTotals(db, o, p, q, requester, catalog);
    case RemoveLine(o, p, requester) => RemoveLineTotals(db, o, p, requester);
    case AssignTo(o, courier, isCourier) => assert TotalOk(db.orders[o]);
    case ChangeStatus(o, target, actual, requester, catalog, now) => StatusTotals(db, o, target, actual, requester, catalog, now);
    case DropStale(staleNew, staleAssigned) =>
      StaleTotals(db, staleNew, New);
      StaleTotals(CancelStale(db, staleNew, New).value, staleAssigned, Assigned);
  }

  lemma {:induction false} ContractWorkTotals(db: Db, cmd: ContractCommand)
    requires TotalsOk(db.orders) && ContractOutcome(db, cmd).Success?
    ensures TotalsOk(ContractOutcome(db, cmd).value.orders)
  {
    match cmd
    case Suspend(c) => CancelledTotals(db.orders, c);
    case Terminate(c) => CancelledTotals(db.orders, c);
    case ExpireDue(today) => ExpiryTotals(db, |db.contracts|, today);
    case _ =>
  }

  /** Additions at the frozen price all along. */
  ghost predicate AlwaysAtFrozenPrice(db: Db, cmds: seq<Command>) {
    forall n :: 0 <= n < |cmds| ==> AtFrozenPrice(Run(db, cmds[..n]), cmds[n])
  }

  /** Totals equal the value of the lines over every run that adds at frozen prices. */
  lemma {:induction false} TotalsFollowLines(db: Db, cmds: seq<Command>)
    requires Inv(db) && TotalsOk(db.orders) && AlwaysAtFrozenPrice(db, cmds)
    ensures TotalsOk(Run(db, cmds).orders)
  {
    if cmds != [] {
      var n := |cmds| - 1;
      assert Front(cmds) == cmds[..n];
      forall k | 0 <= k < n
        ensures AtFrozenPrice(Run(db, Front(cmds)[..k]), Front(cmds)[k])
      {
        assert Front(cmds)[..k] == cmds[..k];
      }
      TotalsFollowLines(db, Front(cmds));
      RunKeepsInv(db, Front(cmds));
      TotalsAfterStep(Run(db, Front(cmds)), cmds[n]);
    }
  }

  lemma {:induction false} TotalsAfterStep(db: Db, cmd: Command)
    requires Inv(db) && TotalsOk(db.orders) && AtFrozenPrice(db, cmd)
    ensures TotalsOk(Step(db, cmd).orders)
  {
    match cmd
    case OrderWork(c) =>
      if OrderOutcome(db, c).Success? {
        OrderWorkTotals(db, c);
      }
    case ContractWork(c) =>
      if ContractOutcome(db, c).Success? {
        ContractWorkTotals(db, c);
      }
    case StockWork(c) =>
      if StockOutcome(db, c).Success? {
        StockWorkFrame(db, c);
      }
    case MoneyWork(c) =>
      if MoneyOutcome(db, c).Success? {
        MoneyWorkFrame(db, c);
      }
  }
}
