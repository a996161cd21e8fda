/** Pickups and warehouse sales in full: exactly when each commits, and everything it changes. */
module PickupLaws {
  import opened Base
  import opened Tally
  import opened StockLedger
  import opened Database
  import opened Tara
  import opened OrderSteps
  import opened System
  import opened LineTotals
  import opened QuotaInvariant
  import opened StockFlows
  import opened MoneyFlows
  import opened RunInvariant
  import opened StepFlows
  import opened OrderLaws
  import opened CheckoutLaws
  import opened CartContainers
  import opened DeliveryLaws

  // ---- Handing out ----

  /** The containers a walk-in carries away and brings back: those of his lines he does not buy. */
  function Swapped(catalog: Catalog, lines: seq<Line>, p: ProductId): int {
    if exists i :: 0 <= i < |lines| && lines[i].product == p then 0 else Containers(catalog, lines, p)
  }

  /** The warehouse is one, lies elsewhere than the client, and holds the lines - for a walk-in with their containers. */
  ghost predicate StoreCovers(s: Stock, ord: Order, catalog: Catalog) {
    && ord.warehouse.Some? && Exists(s, ord.warehouse.value) && s.inventories[ord.warehouse.value].kind == Warehouse
    && ord.warehouse.value != ord.clientInventory
    && (forall p :: Held(ord.lines, p) + (if ord.client == WALKIN_USER then Swapped(catalog, ord.lines, p) else 0)
                    <= Balance(s, ord.warehouse.value, p))
  }

  lemma {:induction false} SwappedIsExchanged(catalog: Catalog, lines: seq<Line>, p: ProductId)
    ensures Swapped(catalog, lines, p) == Exchanged(catalog, lines, true, p)
  {
    var items := Quantities(lines);
    if HasKey(items, p) {
      var n :| 0 <= n < |items| && items[n].0 == p;
      assert lines[n].product == p;
    }
    if exists i :: 0 <= i < |lines| && lines[i].product == p {
      var i :| 0 <= i < |lines| && lines[i].product == p;
      assert items[i].0 == p;
    }
  }

  /** The stock of a pickup passes check and trigger exactly when the store covers it. */
  lemma {:induction false} StoreChecked(s: Stock, ord: Order, o: OrderId, catalog: Catalog, now: int)
    requires StockOk(s) && LinesAllowed(ord.lines) && Exists(s, ord.clientInventory)
    requires ord.warehouse.Some? && Exists(s, ord.warehouse.value) && s.inventories[ord.warehouse.value].kind == Warehouse
    ensures !Short(s, ord.warehouse.value, ord.lines) &&
            PickupStock(s, ord.warehouse.value, ord.clientInventory, ord.lines, ord.client == WALKIN_USER, catalog, o, now).Success?
            <==> StoreCovers(s, ord, catalog)
  {
    var w, walkin := ord.warehouse.value, ord.client == WALKIN_USER;
    PickupFlow(s, w, ord.clientInventory, ord.lines, walkin, catalog, o, now);
    HandedTotals(catalog, ord.lines, true);
    forall p
      ensures Swapped(catalog, ord.lines, p) == Exchanged(catalog, ord.lines, true, p) >= 0
    {
      SwappedIsExchanged(catalog, ord.lines, p);
    }
    if StoreCovers(s, ord, catalog) {
      forall p
        ensures Held(ord.lines, p) <= Balance(s, w, p)
      {
        assert Swapped(catalog, ord.lines, p) >= 0;
      }
      LinesWithin(s, w, ord.lines);
    }
  }

  /** Only rows of this pickup were added to the stock ledger. */
  ghost predicate PickupLogged(s: Stock, s': Stock, ord: Order, o: OrderId, now: int)
    requires ord.warehouse.Some?
  {
    var w, client := ord.warehouse.value, ord.clientInventory;
    && s.ledger <= s'.ledger
    && (forall n :: |s.ledger| <= n < |s'.ledger| ==>
          || (ord.client != WALKIN_USER && RowFor(s'.ledger[n], Document(s.vendor, w, InitialBalance, Some(o), now)))
          || RowFor(s'.ledger[n], Document(w, client, WarehouseSale, Some(o), now))
          || RowFor(s'.ledger[n], Document(client, w, WarehouseTaraReturn, Some(o), now)))
  }

  /** Goods and money of a pickup: exactly the lines are handed out and exactly one settlement is written. */
  ghost predicate HandedOut(db: Db, db': Db, o: OrderId, catalog: Catalog, now: int) {
    && o < |db.orders| && db.orders[o].warehouse.Some? && Payable(db.money, db.orders[o])
    && var ord := db.orders[o];
    && db' == db.(stock := db'.stock, money := db'.money) && InOrder(db.stock, db'.stock)
    && HandsOut(db.stock, db'.stock, ord, ord.warehouse.value, catalog)
    && PickupLogged(db.stock, db'.stock, ord, o, now)
    && Settles(db.money, db'.money, ord)
    && db'.money.ledger == db.money.ledger + SettlementLedger(db.money, ord, o)
  }

  lemma {:induction false} HandedOutIff(db: Db, o: OrderId, catalog: Catalog, now: int)
    requires o < |db.orders| && StockOk(db.stock) && LinesAllowed(db.orders[o].lines)
    requires Exists(db.stock, db.orders[o].clientInventory)
    ensures HandleWarehousePickup(db, o, catalog, now).Success? <==>
            StoreCovers(db.stock, db.orders[o], catalog) && Payable(db.money, db.orders[o])
    ensures HandleWarehousePickup(db, o, catalog, now).Success? ==>
              HandedOut(db, HandleWarehousePickup(db, o, catalog, now).value, o, catalog, now)
  {
    var ord := db.orders[o];
    SettledIff(db.money, ord, o);
    if ord.warehouse.Some? && Exists(db.stock, ord.warehouse.value) && db.stock.inventories[ord.warehouse.value].kind == Warehouse {
      StoreChecked(db.stock, ord, o, catalog, now);
      if HandleWarehousePickup(db, o, catalog, now).Success? {
        var db' := HandleWarehousePickup(db, o, catalog, now).value;
        PickupFlow(db.stock, ord.warehouse.value, ord.clientInventory, ord.lines, ord.client == WALKIN_USER, catalog, o, now);
        PickupRows(db.stock, ord.warehouse.value, ord.clientInventory, ord.lines, ord.client == WALKIN_USER, catalog, o, now, db'.stock);
        SettlementFlow(db.money, ord, o, db'.money);
      }
    }
  }

  /** A NEW pickup order is completed exactly when the store covers it and it can be settled. */
  lemma {:induction false} PickupDone(db: Db, o: OrderId, catalog: Catalog, now: int)
    requires Inv(db)
    ensures var out := OrderOutcome(db, FinishPickup(o, catalog, now));
            && (out.Success? <==>
                  && o < |db.orders| && db.orders[o].saleType == WarehousePickup && db.orders[o].status == New
                  && StoreCovers(db.stock, db.orders[o], catalog) && Payable(db.money, db.orders[o]))
            && (out.Success? ==>
                  HandedOut(db.(orders := db.orders[o := Logged(db.orders[o], PickupCompleted)]), out.value, o, catalog, now))
  {
    if o < |db.orders| {
      assert OrderOk(db.orders[o], db.contracts);
      HandedOutIff(db.(orders := db.orders[o := Logged(db.orders[o], PickupCompleted)]), o, catalog, now);
    }
  }

  // ---- Warehouse sales ----

  /** The order a sale writes: complete at once, paid in cash, at the catalogue's prices. */
  ghost predicate SoldAs(ord: Order, client: UserId, address: InventoryId, w: InventoryId, cart: Cart, catalog: Catalog, credited: bool, now: int) {
    && ord == Order(client, address, None, Some(w), Cash, WarehousePickup, PickupCompleted, Sum(LineValues(ord.lines)), ord.lines,
                    None, false, credited, now, [OrderLog(None, PickupCompleted)])
    && AtCatalogue(ord.lines, cart, catalog)
  }

  /** Everything a sale asks before the goods: cart, prices, places, and containers for a named buyer. */
  predicate Sellable(s: Stock, client: UserId, w: InventoryId, cart: Cart, capitalise: bool, catalog: Catalog) {
    && ValidCart(catalog, cart, true) && (forall i :: 0 <= i < |cart| ==> catalog[cart[i].0].price >= 0)
    && Exists(s, w) && s.inventories[w].kind == Warehouse
    && Find(s.inventories, client, Client).Some?
    && (client == WALKIN_USER || capitalise || Enough(s, Find(s.inventories, client, Client).value, cart, catalog, cart))
  }

  /** The first half of a sale: its order, and the containers a named buyer lacks. */
  ghost predicate Opens(db: Db, db1: Db, client: UserId, w: InventoryId, cart: Cart, catalog: Catalog, now: int) {
    && Find(db.stock.inventories, client, Client).Some? && |db1.orders| == |db.orders| + 1
    && var address, ord := Find(db.stock.inventories, client, Client).value, Last(db1.orders);
    && db1 == db.(orders := db.orders + [ord], stock := db1.stock) && InOrder(db.stock, db1.stock)
    && SoldAs(ord, client, address, w, cart, catalog, client != WALKIN_USER && !Enough(db.stock, address, cart, catalog, cart), now)
    && (if client == WALKIN_USER then db1.stock == db.stock else CreditsLacks(db.stock, db1.stock, address, catalog, cart))
  }

  lemma {:induction false} SaleOpenedIff(
    db: Db, client: UserId, w: InventoryId, cart: Cart, capitalise: bool, catalog: Catalog, now: int)
    requires StockOk(db.stock)
    ensures var out := OpenSale(db, client, w, cart, capitalise, catalog, now);
            && (out.Success? <==> Sellable(db.stock, client, w, cart, capitalise, catalog))
            && (out.Success? ==> Opens(db, out.value, client, w, cart, catalog, now))
  {
    CartChecked(catalog, cart, true);
    var found := Find(db.stock.inventories, client, Client);
    if found.Some? {
      ContainersCovered(db.stock, found.value, cart, catalog, capitalise, now);
      assert Deficits(db.stock, found.value, cart, []) == [];
    }
    if ValidCart(catalog, cart, true) {
      CatalogueLines(catalog, cart);
    }
    if OpenSale(db, client, w, cart, capitalise, catalog, now).Success? {
      OpenSaleOk(db, client, w, cart, capitalise, catalog, now, OpenSale(db, client, w, cart, capitalise, catalog, now).value);
    }
  }

  /** Credits to the buyer leave the warehouse as it is. */
  lemma {:induction false} StoreUnmoved(s: Stock, s1: Stock, ord: Order, w: InventoryId, catalog: Catalog, cart: Cart)
    requires StockOk(s) && ord.warehouse == Some(w) && Exists(s, w) && s.inventories[w].kind == Warehouse
    requires Exists(s, ord.clientInventory) && s.inventories[ord.clientInventory].kind == Client
    requires s1 == s || CreditsLacks(s, s1, ord.clientInventory, catalog, cart)
    ensures StoreCovers(s1, ord, catalog) <==> StoreCovers(s, ord, catalog)
  {
    assert s1.inventories == s.inventories;
    assert forall p :: Balance(s1, w, p) == Balance(s, w, p);
  }

  /**
    A warehouse sale commits exactly when it is sellable, the store covers its lines and it can be
    settled. It then writes one completed order for exactly the cart, credits what a named buyer
    lacks in containers, hands out the lines and settles their value.
   */
  ghost predicate MakesSale(
    db: Db, client: UserId, w: InventoryId, cart: Cart, capitalise: bool, catalog: Catalog, now: int, out: Result<Db>)
  {
    && (out.Success? ==>
          && Sellable(db.stock, client, w, cart, capitalise, catalog)
          && exists db1 :: Opens(db, db1, client, w, cart, catalog, now) && HandedOut(db1, out.value, |db.orders|, catalog, now))
    && (Sellable(db.stock, client, w, cart, capitalise, catalog) ==>
          forall db1 :: Opens(db, db1, client, w, cart, catalog, now) ==>
            (out.Success? <==> StoreCovers(db.stock, Last(db1.orders), catalog) && Payable(db.money, Last(db1.orders))))
  }

  lemma {:induction false} SaleMade(
    db: Db, buyer: Option<UserId>, w: InventoryId, cart: Cart, capitalise: bool, catalog: Catalog, now: int)
    requires StockOk(db.stock)
    ensures MakesSale(db, if buyer.Some? then buyer.value else WALKIN_USER, w, cart, capitalise, catalog, now,
                      OrderOutcome(db, SellAtWarehouse(buyer, w, cart, capitalise, catalog, now)))
  {
    SaleMadeSpec(db, buyer, w, cart, capitalise, catalog, now);
  }

  lemma {:induction false} SaleMadeSpec(
    db: Db, buyer: Option<UserId>, w: InventoryId, cart: Cart, capitalise: bool, catalog: Catalog, now: int)
    requires StockOk(db.stock)
    ensures MakesSale(db, if buyer.Some? then buyer.value else WALKIN_USER, w, cart, capitalise, catalog, now,
                      CreateWarehouseSale(db, buyer, w, cart, capitalise, catalog, now))
  {
    var client := BuyerOf(buyer);
    SaleOpenedIff(db, client, w, cart, capitalise, catalog, now);
    var begun := OpenSale(db, client, w, cart, capitalise, catalog, now);
    if begun.Success? {
      var db1 := begun.value;
      SaleFinished(db, client, w, cart, capitalise, catalog, now, db1);
      forall other | Opens(db, other, client, w, cart, catalog, now)
        ensures Last(other.orders) == Last(db1.orders)
      {
        SameSale(db, db1, other, client, w, cart, catalog, now);
      }
    }
  }

  /** The second half of a sale. */
  lemma {:induction false} SaleFinished(
    db: Db, client: UserId, w: InventoryId, cart: Cart, capitalise: bool, catalog: Catalog, now: int, db1: Db)
    requires StockOk(db.stock) && OpenSale(db, client, w, cart, capitalise, catalog, now) == Success(db1)
    requires Opens(db, db1, client, w, cart, catalog, now) && Sellable(db.stock, client, w, cart, capitalise, catalog)
    ensures var out, ord := HandleWarehousePickup(db1, |db.orders|, catalog, now), Last(db1.orders);
            && (out.Success? <==> StoreCovers(db.stock, ord, catalog) && Payable(db.money, ord))
            && (out.Success? ==> HandedOut(db1, out.value, |db.orders|, catalog, now))
  {
    var o, ord := |db.orders|, Last(db1.orders);
    assert db1.orders[o] == ord;
    OpenSaleOk(db, client, w, cart, capitalise, catalog, now, db1);
    HandedOutIff(db1, o, catalog, now);
    StoreUnmoved(db.stock, db1.stock, ord, w, catalog, cart);
  }

  lemma {:induction false} SameSale(db: Db, a: Db, b: Db, client: UserId, w: InventoryId, cart: Cart, catalog: Catalog, now: int)
    requires Opens(db, a, client, w, cart, catalog, now) && Opens(db, b, client, w, cart, catalog, now)
    ensures Last(a.orders) == Last(b.orders)
  {
    var x, y := Last(a.orders), Last(b.orders);
    forall i | 0 <= i < |cart|
      ensures x.lines[i] == y.lines[i]
    {
      assert x.lines[i].product == cart[i].0 && y.lines[i].product == cart[i].0;
    }
    assert x.lines == y.lines;
  }
}
