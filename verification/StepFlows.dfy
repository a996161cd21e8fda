/** What a whole completing step moves: goods, containers and money together. */
module StepFlows {
  import opened Base
  import opened Tally
  import opened StockLedger
  import opened MoneyLedger
  import opened Database
  import opened Tara
  import opened OrderSteps
  import opened LineTotals
  import opened StockFlows
  import opened MoneyFlows
  import opened QuotaInvariant
  import opened OrderEvolution
  import opened System
  import opened RunInvariant
  import TaraProofs

  /** The money side: the total leaves revenue and rests with whoever holds it then. */
  ghost predicate Settles(m: Money, m': Money, ord: Order) {
    var client, revenue, holder :=
      Find(m.accounts, ord.client, ClientAccount), Find(m.accounts, SYSTEM_USER, Revenue), CashHolder(m, ord);
    && client.Some? && revenue.Some?
    && Flows(m.balances, m'.balances, revenue.value, if holder.Some? then holder.value else client.value, ord.total)
  }

  // ---- Delivery ----

  /** The lines as delivered go from the courier to the client, and the total is settled. */
  ghost predicate Delivers(db: Db, db': Db, o: OrderId) {
    && o < |db'.orders| && db'.orders[o].status == Delivered && db'.orders[o].courier.Some?
    && var ord := db'.orders[o];
    var courier := Find(db.stock.inventories, ord.courier.value, Courier);
    && courier.Some?
    && MovesExactly(db.stock, db'.stock, courier.value, ord.clientInventory, ord.lines)
    && Settles(db.money, db'.money, ord)
  }

  lemma {:induction false} FulfilFlow(db: Db, o: OrderId, actual: Cart, catalog: Catalog, now: int, db': Db)
    requires o < |db.orders| && StockOk(db.stock) && LinesAllowed(db.orders[o].lines)
    requires Exists(db.stock, db.orders[o].clientInventory) && db.orders[o].status == Delivered
    requires Fulfil(db, o, actual, catalog, now) == Success(db')
    ensures Delivers(db, db', o)
  {
    AdjustShape(db, o, actual);
    var db1 := AdjustDelivery(db, o, actual).value;
    AdjustedOrder(db, o, actual, db1);
    var ord := db1.orders[o];
    var courier := Find(db1.stock.inventories, ord.courier.value, Courier).value;
    DeliveryFlow(db1.stock, courier, ord.clientInventory, ord.lines, catalog, o, now);
    SettlementFlow(db1.money, ord, o, db'.money);
  }

  /** A delivery step is rolled back, or moves exactly the delivered lines and their total. */
  lemma {:induction false} DeliveryStep(
    db: Db, o: OrderId, actual: Cart, requester: Option<UserId>, catalog: Catalog, now: int)
    requires Inv(db) && o < |db.orders| && db.orders[o].status != Delivered
    ensures var db' := Step(db, OrderWork(ChangeStatus(o, Delivered, actual, requester, catalog, now)));
            db' == db || Delivers(db, db', o)
  {
    assert LinesAllowed(db.orders[o].lines) by {
      assert OrderOk(db.orders[o], db.contracts);
    }
    DeliveryOutcome(db, o, actual, requester, catalog, now);
  }

  lemma {:induction false} DeliveryOutcome(
    db: Db, o: OrderId, actual: Cart, requester: Option<UserId>, catalog: Catalog, now: int)
    requires o < |db.orders| && db.orders[o].status != Delivered
    requires StockOk(db.stock) && LinesAllowed(db.orders[o].lines) && Exists(db.stock, db.orders[o].clientInventory)
    ensures var out := UpdateStatus(db, o, Delivered, actual, requester, catalog, now);
            out.Success? ==> Delivers(db, out.value, o)
  {
    var out := UpdateStatus(db, o, Delivered, actual, requester, catalog, now);
    if out.Success? {
      var moved := db.(orders := db.orders[o := WithStatus(db.orders[o], Delivered)]);
      FulfilFlow(moved, o, actual, catalog, now, out.value);
      assert moved.stock == db.stock && moved.money == db.money;
    }
  }

  // ---- Pickup ----

  /** The goods of a pickup, for a named client with the containers drawn from the vendor. */
  ghost predicate HandsOut(s: Stock, s': Stock, ord: Order, w: InventoryId, catalog: Catalog) {
    if ord.client == WALKIN_USER then MovesExactly(s, s', w, ord.clientInventory, ord.lines)
    else MovesWithContainers(s, s', w, ord.clientInventory, catalog, ord.lines)
  }

  lemma {:induction false} HandlingFlow(db: Db, o: OrderId, catalog: Catalog, now: int, db': Db)
    requires o < |db.orders| && StockOk(db.stock) && LinesAllowed(db.orders[o].lines)
    requires Exists(db.stock, db.orders[o].clientInventory)
    requires HandleWarehousePickup(db, o, catalog, now) == Success(db')
    ensures db'.orders == db.orders && db.orders[o].warehouse.Some?
    ensures HandsOut(db.stock, db'.stock, db.orders[o], db.orders[o].warehouse.value, catalog)
    ensures Settles(db.money, db'.money, db.orders[o])
  {
    var ord := db.orders[o];
    PickupFlow(db.stock, ord.warehouse.value, ord.clientInventory, ord.lines, ord.client == WALKIN_USER, catalog, o, now);
    SettlementFlow(db.money, ord, o, db'.money);
  }

  /** complete_pickup is rolled back, or hands out exactly the order's lines and settles its total. */
  lemma {:induction false} PickupStep(db: Db, o: OrderId, catalog: Catalog, now: int)
    requires Inv(db)
    ensures var db' := Step(db, OrderWork(FinishPickup(o, catalog, now)));
            db' == db ||
            (&& o < |db'.orders| && db'.orders[o].status == PickupCompleted && db'.orders[o].warehouse.Some?
             && HandsOut(db.stock, db'.stock, db'.orders[o], db'.orders[o].warehouse.value, catalog)
             && Settles(db.money, db'.money, db'.orders[o]))
  {
    var out := CompletePickup(db, o, catalog, now);
    if out.Success? {
      assert OrderOk(db.orders[o], db.contracts);
      HandlingFlow(db.(orders := db.orders[o := WithStatus(db.orders[o], PickupCompleted)]), o, catalog, now, out.value);
    }
  }

  // ---- Warehouse sale ----

  /** Containers credited from the vendor to an address, and nothing else. */
  ghost predicate Credits(s: Stock, s': Stock, address: InventoryId, credit: seq<(ProductId, int)>) {
    forall i, p :: Balance(s', i, p) ==
                   Balance(s, i, p) + At(i, address, Quantity(credit, p)) - At(i, s.vendor, Quantity(credit, p))
  }

  /** What a sale credits to its buyer before the goods are handed out. */
  function SaleCredit(s: Stock, client: UserId, address: InventoryId, cart: Cart, catalog: Catalog): seq<(ProductId, int)> {
    if client == WALKIN_USER then [] else Deficits(s, address, cart, Exchange(catalog, cart))
  }

  lemma {:induction false} CoverFlow(
    s: Stock, address: InventoryId, cart: Cart, exchange: seq<(ProductId, int)>, capitalise: bool, now: int)
    requires StockOk(s) && Exists(s, address) && CoverTara(s, address, cart, exchange, capitalise, now).Success?
    ensures var (s', credited) := CoverTara(s, address, cart, exchange, capitalise, now).value;
            Credits(s, s', address, Deficits(s, address, cart, exchange)) && (credited ==> capitalise)
  {
    var shortages := Deficits(s, address, cart, exchange);
    if shortages != [] {
      TaraProofs.NoDeficitIffCovered(s, address, cart, exchange);
      PositiveIsIdentity(shortages);
      PostEffect(s, Document(s.vendor, address, InitialBalance, None, now), shortages,
                 CoverTara(s, address, cart, exchange, capitalise, now).value.0);
    }
  }

  /** The order a sale writes, and the stock between its two halves. */
  ghost predicate Sells(db: Db, between: Stock, db': Db, w: InventoryId, cart: Cart, catalog: Catalog) {
    && |db'.orders| == |db.orders| + 1
    && var ord := Last(db'.orders);
    && ord.status == PickupCompleted && Quantities(ord.lines) == cart && ord.total == LinesValue(ord.lines)
    && Credits(db.stock, between, ord.clientInventory, SaleCredit(db.stock, ord.client, ord.clientInventory, cart, catalog))
    && HandsOut(between, db'.stock, ord, w, catalog)
    && Settles(db.money, db'.money, ord)
  }

  lemma {:induction false} OpenSaleFlow(
    db: Db, client: UserId, w: InventoryId, cart: Cart, capitalise: bool, catalog: Catalog, now: int, db1: Db)
    requires StockOk(db.stock) && OpenSale(db, client, w, cart, capitalise, catalog, now) == Success(db1)
    ensures |db1.orders| == |db.orders| + 1
    ensures var ord := Last(db1.orders);
            && ord.client == client && ord.warehouse == Some(w) && Quantities(ord.lines) == cart
            && Credits(db.stock, db1.stock, ord.clientInventory, SaleCredit(db.stock, client, ord.clientInventory, cart, catalog))
  {
    var address := Find(db.stock.inventories, client, Client).value;
    var exchange := if client == WALKIN_USER then [] else Exchange(catalog, cart);
    CoverFlow(db.stock, address, cart, exchange, capitalise, now);
    LinesOfCart(catalog, None, cart);
  }

  /**
    A warehouse sale is rolled back, or writes one completed order for the cart, credits the buyer's
    missing containers, hands out exactly the lines and settles their value.
   */
  lemma {:induction false} SaleStep(
    db: Db, buyer: Option<UserId>, w: InventoryId, cart: Cart, capitalise: bool, catalog: Catalog, now: int)
    requires Inv(db)
    ensures var db' := Step(db, OrderWork(SellAtWarehouse(buyer, w, cart, capitalise, catalog, now)));
            db' == db || exists between :: Sells(db, between, db', w, cart, catalog)
  {
    var out := CreateWarehouseSale(db, buyer, w, cart, capitalise, catalog, now);
    if out.Success? {
      var db1 := SaleShape(db, buyer, w, cart, capitalise, catalog, now, out.value);
      OpenSaleOk(db, BuyerOf(buyer), w, cart, capitalise, catalog, now, db1);
      OpenSaleShape(db, BuyerOf(buyer), w, cart, capitalise, catalog, now, db1);
      OpenSaleFlow(db, BuyerOf(buyer), w, cart, capitalise, catalog, now, db1);
      HandlingFlow(db1, |db.orders|, catalog, now, out.value);
      assert Sells(db, db1.stock, out.value, w, cart, catalog);
    }
  }
}
