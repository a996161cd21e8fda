/**
  Quotas and contracts: `quantity_used` is exactly what the live orders hold, no limit is
  exceeded, and orders in preparation belong to an active contract.
 */
module QuotaInvariant {
  import opened Base
  import opened Tally
  import opened Quotas
  import opened StockLedger
  import opened MoneyLedger
  import opened Database
  import opened Tara
  import opened OrderSteps
  import opened ContractSteps
  import opened LineTotals

  function Used(items: PriceList, p: ProductId): int {
    if p in items then items[p].used else 0
  }

  predicate ItemOk(item: PriceItem) {
    && item.price >= 0 && item.quantity >= 0 && item.used >= 0
    && (item.quantity == 0 || item.used <= item.quantity)
  }

  ghost predicate LimitsOk(items: PriceList) {
    forall p :: p in items ==> ItemOk(items[p])
  }

  /** The counter of every contract and product is the quantity its live orders hold. */
  ghost predicate CountersExact(orders: seq<Order>, contracts: seq<Contract>) {
    forall c: ContractId, p: ProductId :: c < |contracts| ==> Used(contracts[c].items, p) == Reserved(orders, c, p)
  }

  predicate InPreparation(status: OrderStatus) {
    status == New || status == Assigned
  }

  ghost predicate OrderOk(ord: Order, contracts: seq<Contract>) {
    && LinesAllowed(ord.lines)
    && (ord.payment == ByContract <==> ord.contract.Some?)
    && (ord.contract.None? ==> !ord.reserved)
    && (ord.contract.Some? ==>
          && ord.contract.value < |contracts|
          && contracts[ord.contract.value].client == ord.client
          && (ord.reserved <==> ord.status != Cancelled)
          && (InPreparation(ord.status) ==> contracts[ord.contract.value].status == Active))
  }

  ghost predicate OrdersOk(orders: seq<Order>, contracts: seq<Contract>) {
    forall o :: 0 <= o < |orders| ==> OrderOk(orders[o], contracts)
  }

  /** At most one ACTIVE contract per client. */
  ghost predicate OneActive(contracts: seq<Contract>) {
    forall c, d :: 0 <= c < d < |contracts| && contracts[c].status == Active && contracts[d].status == Active
      ==> contracts[c].client != contracts[d].client
  }

  ghost predicate QuotaInv(db: Db) {
    && OrdersOk(db.orders, db.contracts)
    && CountersExact(db.orders, db.contracts)
    && (forall c :: 0 <= c < |db.contracts| ==> LimitsOk(db.contracts[c].items))
    && OneActive(db.contracts)
  }

  // ---- Sums over the orders table ----

  lemma {:induction false} ReservedUpdate(orders: seq<Order>, o: OrderId, ord: Order, c: ContractId, p: ProductId)
    requires o < |orders|
    ensures Reserved(orders[o := ord], c, p) == Reserved(orders, c, p) - Claim(orders[o], c, p) + Claim(ord, c, p)
  {
    assert Claims(orders[o := ord], c, p) == Claims(orders, c, p)[o := Claim(ord, c, p)];
    SumUpdate(Claims(orders, c, p), o, Claim(ord, c, p));
  }

  lemma {:induction false} ReservedAppend(orders: seq<Order>, ord: Order, c: ContractId, p: ProductId)
    ensures Reserved(orders + [ord], c, p) == Reserved(orders, c, p) + Claim(ord, c, p)
  {
    assert Front(Claims(orders + [ord], c, p)) == Claims(orders, c, p);
  }

  lemma {:induction false} ClaimBound(orders: seq<Order>, contracts: seq<Contract>, o: OrderId, c: ContractId, p: ProductId)
    requires OrdersOk(orders, contracts) && o < |orders|
    ensures 0 <= Claim(orders[o], c, p) <= Reserved(orders, c, p)
  {
    forall i | 0 <= i < |orders|
      ensures Claims(orders, c, p)[i] >= 0
    {
      HeldNonNegative(orders[i].lines, p);
    }
    SumNonNegative(Claims(orders, c, p));
    assert Claims(orders, c, p)[o] == Claim(orders[o], c, p);
  }

  lemma {:induction false} ReservedNonNegative(orders: seq<Order>, contracts: seq<Contract>, c: ContractId, p: ProductId)
    requires OrdersOk(orders, contracts)
    ensures Reserved(orders, c, p) >= 0
  {
    forall i | 0 <= i < |orders|
      ensures Claims(orders, c, p)[i] >= 0
    {
      HeldNonNegative(orders[i].lines, p);
    }
    SumNonNegative(Claims(orders, c, p));
  }

  // ---- The clamp never bites ----

  /**
    Returning quota that live orders hold succeeds, subtracts exactly, and never meets the clamp
    or a missing price item.
   */
  lemma {:induction false} ReleaseIsExact(db: Db, c: ContractId, deltas: Deltas)
    requires QuotaInv(db) && c < |db.contracts| && AllPositive(deltas)
    requires forall p :: Quantity(deltas, p) <= Reserved(db.orders, c, p)
    ensures ReleaseQuota(db.contracts, c, deltas).Success?
    ensures var contracts := ReleaseQuota(db.contracts, c, deltas).value;
            && |contracts| == |db.contracts|
            && contracts == db.contracts[c := db.contracts[c].(items := contracts[c].items)]
            && LimitsOk(contracts[c].items)
            && (forall p :: Used(contracts[c].items, p) == Used(db.contracts[c].items, p) - Quantity(deltas, p))
  {
    var items := db.contracts[c].items;
    DecrementTotals(items, deltas);
    forall p
      ensures Quantity(deltas, p) >= 0
      ensures HasKey(deltas, p) ==> p in items
      ensures Quantity(deltas, p) <= Used(items, p)
    {
      QuantityPositive(deltas, p);
    }
    assert Listed(items, deltas) by {
      forall i | 0 <= i < |deltas|
        ensures deltas[i].0 in items
      {
        assert HasKey(deltas, deltas[i].0);
      }
    }
    if deltas == [] {
      assert db.contracts == db.contracts[c := db.contracts[c].(items := items)];
    } else {
      var contracts := ReleaseQuota(db.contracts, c, deltas).value;
      forall p
        ensures Used(contracts[c].items, p) == Used(items, p) - Quantity(deltas, p)
      {
        QuantityPositive(deltas, p);
      }
    }
  }

  // ---- Shapes of change ----

  /** Replacing one order is safe when the counters move with what the order holds. */
  lemma {:induction false} EditKeepsQuota(db: Db, o: OrderId, ord: Order, db': Db)
    requires QuotaInv(db) && o < |db.orders|
    requires db'.orders == db.orders[o := ord]
    requires SameContracts(db.contracts, db'.contracts)
    requires OrderOk(ord, db'.contracts)
    requires forall c: ContractId, p: ProductId :: c < |db.contracts| ==>
      Used(db'.contracts[c].items, p) ==
      Used(db.contracts[c].items, p) - Claim(db.orders[o], c, p) + Claim(ord, c, p)
    requires forall c :: 0 <= c < |db'.contracts| ==> LimitsOk(db'.contracts[c].items)
    ensures QuotaInv(db')
  {
    forall c: ContractId, p: ProductId | c < |db'.contracts|
      ensures Used(db'.contracts[c].items, p) == Reserved(db'.orders, c, p)
    {
      ReservedUpdate(db.orders, o, ord, c, p);
    }
  }

  /** Price items aside, the contracts are the same. */
  ghost predicate SameContracts(contracts: seq<Contract>, contracts': seq<Contract>) {
    && |contracts'| == |contracts|
    && (forall c :: 0 <= c < |contracts| ==>
          contracts'[c].client == contracts[c].client && contracts'[c].status == contracts[c].status)
  }

  lemma {:induction false} AppendKeepsQuota(db: Db, ord: Order, db': Db)
    requires QuotaInv(db)
    requires db'.orders == db.orders + [ord]
    requires SameContracts(db.contracts, db'.contracts)
    requires OrderOk(ord, db'.contracts)
    requires forall c: ContractId, p: ProductId :: c < |db.contracts| ==>
      Used(db'.contracts[c].items, p) == Used(db.contracts[c].items, p) + Claim(ord, c, p)
    requires forall c :: 0 <= c < |db'.contracts| ==> LimitsOk(db'.contracts[c].items)
    ensures QuotaInv(db')
  {
    forall c: ContractId, p: ProductId | c < |db'.contracts|
      ensures Used(db'.contracts[c].items, p) == Reserved(db'.orders, c, p)
    {
      ReservedAppend(db.orders, ord, c, p);
    }
  }

  /** Reserving a cart without repeats stays within every limit. */
  lemma {:induction false} ReserveWithinLimits(items: PriceList, cart: Cart)
    requires LimitsOk(items) && AllPositive(cart) && DistinctKeys(cart)
    requires Reserve(items, cart).Success?
    ensures LimitsOk(Reserve(items, cart).value)
    ensures forall p :: Used(Reserve(items, cart).value, p) == Used(items, p) + Quantity(cart, p)
  {
    IncrementTotals(items, cart);
    var items' := Reserve(items, cart).value;
    forall p
      ensures Used(items', p) == Used(items, p) + Quantity(cart, p)
      ensures p in items' ==> ItemOk(items'[p])
    {
      QuantityPositive(cart, p);
      if HasKey(cart, p) {
        var i :| 0 <= i < |cart| && cart[i].0 == p;
        QuantityOfDistinct(cart, i);
      }
    }
  }

  // ---- The order steps ----

  lemma {:induction false} CreateOrderKeepsQuota(db: Db, req: Checkout, catalog: Catalog, today: int, now: int)
    requires QuotaInv(db) && CreateOrder(db, req, catalog, today, now).Success?
    ensures QuotaInv(CreateOrder(db, req, catalog, today, now).value)
  {
    var db' := CreateOrder(db, req, catalog, today, now).value;
    var ord := Last(db'.orders);
    if req.payment == ByContract {
      var c := PayingContract(db.contracts, req.client, req.b2b, today).value;
      var terms := Some(db.contracts[c].items);
      ReserveWithinLimits(db.contracts[c].items, req.cart);
      LinesOfCart(catalog, terms, req.cart);
      AppendKeepsQuota(db, ord, db');
    } else {
      AppendKeepsQuota(db, ord, db');
    }
  }

  lemma {:induction false} SaleKeepsQuota(
    db: Db, buyer: Option<UserId>, warehouse: InventoryId, cart: Cart, capitalise: bool, catalog: Catalog, now: int)
    requires QuotaInv(db) && CreateWarehouseSale(db, buyer, warehouse, cart, capitalise, catalog, now).Success?
    ensures QuotaInv(CreateWarehouseSale(db, buyer, warehouse, cart, capitalise, catalog, now).value)
  {
    var db1 := OpenSale(db, BuyerOf(buyer), warehouse, cart, capitalise, catalog, now).value;
    OpenSaleKeepsQuota(db, BuyerOf(buyer), warehouse, cart, capitalise, catalog, now);
    HandlingKeepsQuota(db1, |db.orders|, catalog, now);
  }

  lemma {:induction false} OpenSaleKeepsQuota(
    db: Db, client: UserId, warehouse: InventoryId, cart: Cart, capitalise: bool, catalog: Catalog, now: int)
    requires QuotaInv(db) && OpenSale(db, client, warehouse, cart, capitalise, catalog, now).Success?
    ensures QuotaInv(OpenSale(db, client, warehouse, cart, capitalise, catalog, now).value)
  {
    var db1 := OpenSale(db, client, warehouse, cart, capitalise, catalog, now).value;
    AppendKeepsQuota(db, Last(db1.orders), db1);
  }

  lemma {:induction false} HandlingKeepsQuota(db: Db, o: OrderId, catalog: Catalog, now: int)
    requires QuotaInv(db) && o < |db.orders| && HandleWarehousePickup(db, o, catalog, now).Success?
    ensures QuotaInv(HandleWarehousePickup(db, o, catalog, now).value)
  {
  }

  lemma {:induction false} AddProductKeepsQuota(
    db: Db, o: OrderId, p: ProductId, quantity: int, requester: Option<UserId>, catalog: Catalog)
    requires QuotaInv(db) && AddProduct(db, o, p, quantity, requester, catalog).Success?
    ensures QuotaInv(AddProduct(db, o, p, quantity, requester, catalog).value)
  {
    var db' := AddProduct(db, o, p, quantity, requester, catalog).value;
    var ord := db.orders[o];
    if OnContract(ord) {
      var c := ord.contract.value;
      var (contracts, price) := ReserveOne(db.contracts, c, p, quantity).value;
      ReserveWithinLimits(db.contracts[c].items, [(p, quantity)]);
      forall x
        ensures Held(db'.orders[o].lines, x) == Held(ord.lines, x) + Quantity([(p, quantity)], x)
      {
        HeldAfterAdd(ord.lines, p, quantity, price, x);
        assert Quantity([(p, quantity)], x) == if x == p then quantity else 0;
      }
    }
    EditKeepsQuota(db, o, db'.orders[o], db');
  }

  lemma {:induction false} RemoveProductKeepsQuota(db: Db, o: OrderId, p: ProductId, requester: Option<UserId>)
    requires QuotaInv(db)
    ensures RemoveProduct(db, o, p, requester) != Failure(QuotaLeak)
    ensures RemoveProduct(db, o, p, requester).Success? ==> QuotaInv(RemoveProduct(db, o, p, requester).value)
  {
    if o < |db.orders| && db.orders[o].status == New && FindLine(db.orders[o].lines, p).Some? {
      RemoveLineKeepsQuota(db, o, FindLine(db.orders[o].lines, p).value);
    }
  }

  /** Removing a line and returning its quota. */
  lemma {:induction false} KeptLines(lines: seq<Line>, i: nat, x: ProductId)
    requires LinesAllowed(lines) && i < |lines|
    ensures var kept, deltas := lines[..i] + lines[i + 1..], [(lines[i].product, lines[i].quantity)];
            LinesAllowed(kept) && Held(kept, x) == Held(lines, x) - Quantity(deltas, x) && Held(kept, x) >= 0
  {
    var kept, p, q := lines[..i] + lines[i + 1..], lines[i].product, lines[i].quantity;
    HeldAfterRemove(lines, i, x);
    HeldNonNegative(kept, x);
    assert Quantity([(p, q)], x) == Quantity([], x) + if x == p then q else 0;
  }

  /** Returning the quota of one removed line. */
  lemma {:induction false} LineReleaseIsExact(db: Db, o: OrderId, i: nat)
    requires QuotaInv(db) && o < |db.orders| && i < |db.orders[o].lines|
    requires db.orders[o].contract.Some? && db.orders[o].status != Cancelled
    ensures var line := db.orders[o].lines[i];
            ReleasesExactly(db.contracts, db.orders[o].contract.value, [(line.product, line.quantity)])
  {
    var ord := db.orders[o];
    var c, deltas := ord.contract.value, [(ord.lines[i].product, ord.lines[i].quantity)];
    forall x
      ensures Quantity(deltas, x) <= Reserved(db.orders, c, x)
    {
      KeptLines(ord.lines, i, x);
      ClaimBound(db.orders, db.contracts, o, c, x);
    }
    ReleaseIsExact(db, c, deltas);
  }

  /** Returning what a partial delivery left undelivered. */
  lemma {:induction false} UndeliveredReleaseIsExact(db: Db, o: OrderId, actual: Cart)
    requires QuotaInv(db) && o < |db.orders| && db.orders[o].contract.Some? && db.orders[o].status != Cancelled
    requires DeliveredLines(db.orders[o].lines, actual).Success?
    ensures |DeliveredLines(db.orders[o].lines, actual).value| == |db.orders[o].lines|
    ensures ReleasesExactly(db.contracts, db.orders[o].contract.value,
                            Undelivered(db.orders[o].lines, DeliveredLines(db.orders[o].lines, actual).value))
  {
    var ord := db.orders[o];
    var c, lines := ord.contract.value, DeliveredLines(ord.lines, actual).value;
    DeliveredShape(ord.lines, actual);
    UndeliveredTotals(ord.lines, lines, 0);
    forall x
      ensures Quantity(Undelivered(ord.lines, lines), x) <= Reserved(db.orders, c, x)
    {
      UndeliveredTotals(ord.lines, lines, x);
      HeldNonNegative(lines, x);
      ClaimBound(db.orders, db.contracts, o, c, x);
    }
    ReleaseIsExact(db, c, Undelivered(ord.lines, lines));
  }

  lemma {:induction false} RemoveLineKeepsQuota(db: Db, o: OrderId, i: nat)
    requires QuotaInv(db) && o < |db.orders| && i < |db.orders[o].lines|
    requires db.orders[o].status == New
    ensures var ord := db.orders[o];
            var edited := db.orders[o := WithoutLine(ord, i)];
            if OnContract(ord) then
              var contracts := ReleaseQuota(db.contracts, ord.contract.value, [(ord.lines[i].product, ord.lines[i].quantity)]);
              contracts.Success? && QuotaInv(db.(contracts := contracts.value, orders := edited))
            else
              QuotaInv(db.(orders := edited))
  {
    var ord := db.orders[o];
    var kept := ord.lines[..i] + ord.lines[i + 1..];
    var p, q := ord.lines[i].product, ord.lines[i].quantity;
    var deltas := [(p, q)];
    forall x
      ensures Held(kept, x) == Held(ord.lines, x) - Quantity(deltas, x)
    {
      KeptLines(ord.lines, i, x);
    }
    var contracts := db.contracts;
    if OnContract(ord) {
      LineReleaseIsExact(db, o, i);
      contracts := ReleaseQuota(db.contracts, ord.contract.value, deltas).value;
    }
    var db' := db.(contracts := contracts, orders := db.orders[o := WithoutLine(ord, i)]);
    EditKeepsQuota(db, o, WithoutLine(ord, i), db');
  }

  lemma {:induction false} AssignKeepsQuota(db: Db, o: OrderId, courier: UserId, isCourier: bool)
    requires QuotaInv(db) && AssignCourier(db, o, courier, isCourier).Success?
    ensures QuotaInv(AssignCourier(db, o, courier, isCourier).value)
  {
    var db' := AssignCourier(db, o, courier, isCourier).value;
    EditKeepsQuota(db, o, db'.orders[o], db');
  }

  /** The contracts after returning `deltas` to contract `c`: plain subtraction, no clamp. */
  ghost predicate ReleasesExactly(contracts: seq<Contract>, c: ContractId, deltas: Deltas) {
    var out := ReleaseQuota(contracts, c, deltas);
    && out.Success? && |out.value| == |contracts| && c < |contracts|
    && out.value == contracts[c := contracts[c].(items := out.value[c].items)]
    && LimitsOk(out.value[c].items)
    && (forall p :: Used(out.value[c].items, p) == Used(contracts[c].items, p) - Quantity(deltas, p))
  }

  /** Returning the quota of one live order. */
  lemma {:induction false} OrderReleaseIsExact(db: Db, o: OrderId)
    requires QuotaInv(db) && o < |db.orders| && db.orders[o].contract.Some? && db.orders[o].status != Cancelled
    ensures ReleasesExactly(db.contracts, db.orders[o].contract.value, Quantities(db.orders[o].lines))
  {
    var ord := db.orders[o];
    var c := ord.contract.value;
    HeldNonNegative(ord.lines, 0);
    forall p
      ensures Quantity(Quantities(ord.lines), p) <= Reserved(db.orders, c, p)
    {
      ClaimBound(db.orders, db.contracts, o, c, p);
    }
    ReleaseIsExact(db, c, Quantities(ord.lines));
  }

  lemma {:induction false} CancelKeepsQuota(db: Db, o: OrderId)
    requires QuotaInv(db) && o < |db.orders|
    requires db.orders[o].status != Cancelled
    ensures CancelOrder(db, o).Success? && QuotaInv(CancelOrder(db, o).value)
    ensures |CancelOrder(db, o).value.orders| == |db.orders|
  {
    if OnContract(db.orders[o]) && db.orders[o].reserved {
      OrderReleaseIsExact(db, o);
    }
    var db' := CancelOrder(db, o).value;
    EditKeepsQuota(db, o, db'.orders[o], db');
  }

  lemma {:induction false} CancelStaleKeepsQuota(db: Db, stale: seq<OrderId>, status: OrderStatus)
    requires QuotaInv(db) && status != Cancelled
    ensures CancelStale(db, stale, status).Success? && QuotaInv(CancelStale(db, stale, status).value)
  {
    if stale != [] {
      CancelStaleKeepsQuota(db, Front(stale), status);
      var before := CancelStale(db, Front(stale), status).value;
      var o := Last(stale);
      if o < |before.orders| && before.orders[o].status == status {
        CancelKeepsQuota(before, o);
      }
    }
  }

  /** A partial delivery returns exactly what was not delivered. */
  lemma {:induction false} AdjustKeepsQuota(db: Db, o: OrderId, actual: Cart)
    requires QuotaInv(db) && o < |db.orders| && db.orders[o].status != Cancelled
    ensures AdjustDelivery(db, o, actual) != Failure(QuotaLeak)
    ensures AdjustDelivery(db, o, actual).Success? ==>
              && QuotaInv(AdjustDelivery(db, o, actual).value)
              && |AdjustDelivery(db, o, actual).value.orders| == |db.orders|
  {
    var ord := db.orders[o];
    if actual != [] {
      DeliveredErrors(ord.lines, actual);
    }
    if actual != [] && DeliveredLines(ord.lines, actual).Success? {
      var lines := DeliveredLines(ord.lines, actual).value;
      DeliveredShape(ord.lines, actual);
      forall x
        ensures Held(lines, x) == Held(ord.lines, x) - Quantity(Undelivered(ord.lines, lines), x)
      {
        UndeliveredTotals(ord.lines, lines, x);
      }
      if OnContract(ord) {
        UndeliveredReleaseIsExact(db, o, actual);
      }
      var db' := AdjustDelivery(db, o, actual).value;
      EditKeepsQuota(db, o, db'.orders[o], db');
    }
  }

  lemma {:induction false} DeliveredErrors(lines: seq<Line>, actual: Cart)
    ensures DeliveredLines(lines, actual) != Failure(QuotaLeak)
  {
    if lines != [] {
      DeliveredErrors(Front(lines), actual);
    }
  }

  lemma {:induction false} UpdateStatusKeepsQuota(
    db: Db, o: OrderId, target: OrderStatus, actual: Cart, requester: Option<UserId>, catalog: Catalog, now: int)
    requires QuotaInv(db)
    ensures UpdateStatus(db, o, target, actual, requester, catalog, now) != Failure(QuotaLeak)
    ensures UpdateStatus(db, o, target, actual, requester, catalog, now).Success? ==>
              QuotaInv(UpdateStatus(db, o, target, actual, requester, catalog, now).value)
  {
    if o < |db.orders| && CheckTransition(db.orders[o], target).Success? {
      var ord := db.orders[o];
      var moved := db.(orders := db.orders[o := WithStatus(ord, target)]);
      if ord.status != Cancelled && target == Cancelled && !Settled(ord.status) {
        CancelKeepsQuota(db, o);
      } else {
        EditKeepsQuota(db, o, WithStatus(ord, target), moved);
        if ord.status != Delivered && target == Delivered {
          FulfilKeepsQuota(moved, o, actual, catalog, now);
        }
      }
    }
  }

  lemma {:induction false} FulfilKeepsQuota(db: Db, o: OrderId, actual: Cart, catalog: Catalog, now: int)
    requires QuotaInv(db) && o < |db.orders| && db.orders[o].status != Cancelled
    ensures Fulfil(db, o, actual, catalog, now) != Failure(QuotaLeak)
    ensures Fulfil(db, o, actual, catalog, now).Success? ==> QuotaInv(Fulfil(db, o, actual, catalog, now).value)
  {
    AdjustKeepsQuota(db, o, actual);
    if AdjustDelivery(db, o, actual).Success? && db.orders[o].courier.Some? {
      var db1 := AdjustDelivery(db, o, actual).value;
      var ord := db1.orders[o];
      var courier := Find(db1.stock.inventories, ord.courier.value, Courier);
      if courier.Some? {
        DeliverStockErrors(db1.stock, courier.value, ord.clientInventory, ord.lines, catalog, o, now);
        SettleErrors(db1.money, ord, o);
      }
    }
  }

  lemma {:induction false} PostErrors(s: Stock, d: Document, items: seq<(ProductId, int)>)
    ensures Post(s, d, items) != Failure(QuotaLeak)
  {
    if items != [] {
      PostErrors(s, d, Front(items));
    }
  }

  lemma {:induction false} DeliverStockErrors(
    s: Stock, courier: InventoryId, client: InventoryId, lines: seq<Line>, catalog: Catalog, o: OrderId, now: int)
    ensures DeliverStock(s, courier, client, lines, catalog, o, now) != Failure(QuotaLeak)
  {
    var tare := ReturnableItems(catalog, lines);
    var out := Document(courier, client, ClientDelivery, Some(o), now);
    PostErrors(s, out, Positive(Quantities(lines) + tare));
    if StockTransfer(s, out, Quantities(lines) + tare).Success? {
      var s1 := StockTransfer(s, out, Quantities(lines) + tare).value;
      PostErrors(s1, Document(client, courier, ClientReturn, Some(o), now), Positive(tare));
    }
  }

  lemma {:induction false} SettleErrors(m: Money, ord: Order, o: OrderId)
    ensures Settle(m, ord, o) != Failure(QuotaLeak)
  {
    var client, revenue := Find(m.accounts, ord.client, ClientAccount), Find(m.accounts, SYSTEM_USER, Revenue);
    if client.Some? && revenue.Some? && PaymentLeg(m, ord, o, client.value).Success? {
      InsertAllErrors(m, [Txn(revenue.value, client.value, ord.total, Some(o), Completed, OrderCharge)]
                         + PaymentLeg(m, ord, o, client.value).value);
    }
  }

  lemma {:induction false} InsertAllErrors(m: Money, rows: seq<Txn>)
    ensures InsertAll(m, rows) != Failure(QuotaLeak)
  {
    if rows != [] {
      InsertAllErrors(m, Front(rows));
    }
  }

  lemma {:induction false} CompletePickupKeepsQuota(db: Db, o: OrderId, catalog: Catalog, now: int)
    requires QuotaInv(db) && CompletePickup(db, o, catalog, now).Success?
    ensures QuotaInv(CompletePickup(db, o, catalog, now).value)
  {
    var db' := CompletePickup(db, o, catalog, now).value;
    EditKeepsQuota(db, o, db'.orders[o], db');
  }

  // ---- The contract steps ----

  /** Contracts may change as long as status, client and counters stay. */
  lemma {:induction false} TermsKeepQuota(db: Db, db': Db)
    requires QuotaInv(db) && db'.orders == db.orders && SameContracts(db.contracts, db'.contracts)
    requires forall c: ContractId, p: ProductId :: c < |db.contracts| ==>
      Used(db'.contracts[c].items, p) == Used(db.contracts[c].items, p)
    requires forall c :: 0 <= c < |db'.contracts| ==> LimitsOk(db'.contracts[c].items)
    ensures QuotaInv(db')
  {
  }

  lemma {:induction false} PriceItemsKeepQuota(db: Db, c: ContractId, p: ProductId, price: int, quantity: int)
    requires QuotaInv(db)
    ensures SetPriceItem(db, c, p, price, quantity).Success? ==> QuotaInv(SetPriceItem(db, c, p, price, quantity).value)
    ensures RemovePriceItem(db, c, p).Success? ==> QuotaInv(RemovePriceItem(db, c, p).value)
  {
    if SetPriceItem(db, c, p, price, quantity).Success? {
      TermsKeepQuota(db, SetPriceItem(db, c, p, price, quantity).value);
    }
    if RemovePriceItem(db, c, p).Success? {
      TermsKeepQuota(db, RemovePriceItem(db, c, p).value);
    }
  }

  lemma {:induction false} ReservedOfUnknown(orders: seq<Order>, c: ContractId, p: ProductId)
    requires forall o :: 0 <= o < |orders| ==> orders[o].contract != Some(c)
    ensures Reserved(orders, c, p) == 0
  {
    if orders != [] {
      ReservedOfUnknown(Front(orders), c, p);
      ReservedAppend(Front(orders), Last(orders), c, p);
      assert Front(orders) + [Last(orders)] == orders;
    }
  }

  lemma {:induction false} NoActiveContract(contracts: seq<Contract>, client: UserId)
    requires ActiveContract(contracts, client).None?
    ensures forall c :: 0 <= c < |contracts| && contracts[c].client == client ==> contracts[c].status != Active
  {
    if contracts != [] {
      NoActiveContract(Front(contracts), client);
      assert forall c :: 0 <= c < |contracts| - 1 ==> Front(contracts)[c] == contracts[c];
    }
  }

  lemma {:induction false} CreateContractKeepsQuota(
    db: Db, client: UserId, number: string, startDate: int, endDate: Option<int>, dueDays: int)
    requires QuotaInv(db) && CreateContract(db, client, number, startDate, endDate, dueDays).Success?
    ensures QuotaInv(CreateContract(db, client, number, startDate, endDate, dueDays).value)
  {
    var db' := CreateContract(db, client, number, startDate, endDate, dueDays).value;
    forall c: ContractId, p: ProductId | c < |db'.contracts|
      ensures Used(db'.contracts[c].items, p) == Reserved(db'.orders, c, p)
    {
      if c == |db.contracts| {
        ReservedOfUnknown(db.orders, c, p);
      }
    }
  }

  /** A contract may become ACTIVE when its client has no other, and may leave ACTIVE when no
      order of it is in preparation. */
  lemma {:induction false} MovedKeepsQuota(db: Db, c: ContractId, target: ContractStatus)
    requires QuotaInv(db) && c < |db.contracts|
    requires target == Active ==> ActiveContract(db.contracts, db.contracts[c].client) in {None, Some(c)}
    requires target != Active ==>
      forall o :: 0 <= o < |db.orders| && db.orders[o].contract == Some(c) ==> !InPreparation(db.orders[o].status)
    ensures QuotaInv(Moved(db, c, target))
  {
    var db' := Moved(db, c, target);
    if target == Active && ActiveContract(db.contracts, db.contracts[c].client).None? {
      NoActiveContract(db.contracts, db.contracts[c].client);
    }
    assert forall d: ContractId, p: ProductId :: d < |db.contracts| ==>
      Used(db'.contracts[d].items, p) == Used(db.contracts[d].items, p);
  }

  lemma {:induction false} MakeActiveKeepsQuota(db: Db, c: ContractId, source: ContractStatus)
    requires QuotaInv(db) && MakeActive(db, c, source).Success?
    ensures QuotaInv(MakeActive(db, c, source).value)
  {
    MovedKeepsQuota(db, c, Active);
  }

  /** The bulk release is exactly what the cancelled orders held. */
  lemma {:induction false} ReleasedTotals(orders: seq<Order>, contracts: seq<Contract>, c: ContractId, d: ContractId, p: ProductId)
    requires OrdersOk(orders, contracts)
    ensures AllPositive(ReleasedItems(orders, c))
    ensures Reserved(CancelledRows(orders, c), d, p) ==
            Reserved(orders, d, p) - (if d == c then Quantity(ReleasedItems(orders, c), p) else 0)
  {
    if orders == [] {
      assert CancelledRows(orders, c) == orders;
    } else {
      var front, ord := Front(orders), Last(orders);
      ReleasedTotals(front, contracts, c, d, p);
      assert orders == front + [ord];
      assert CancelledRows(orders, c) == CancelledRows(front, c) + [CancelledRow(ord, c)];
      ReservedAppend(front, ord, d, p);
      ReservedAppend(CancelledRows(front, c), CancelledRow(ord, c), d, p);
      HeldNonNegative(ord.lines, p);
      QuantityAppend(ReleasedItems(front, c), if Cancellable(ord, c) && ord.reserved then Quantities(ord.lines) else [], p);
    }
  }

  lemma {:induction false} CancelInflightKeepsQuota(db: Db, c: ContractId)
    requires QuotaInv(db) && c < |db.contracts|
    ensures CancelInflight(db, c).Success?
    ensures var db' := CancelInflight(db, c).value;
            && QuotaInv(db')
            && SameContracts(db.contracts, db'.contracts)
            && (forall o :: 0 <= o < |db'.orders| && db'.orders[o].contract == Some(c) ==> !InPreparation(db'.orders[o].status))
  {
    BulkReleaseIsExact(db, c);
    var db' := CancelInflight(db, c).value;
    forall d: ContractId, p: ProductId | d < |db'.contracts|
      ensures Used(db'.contracts[d].items, p) == Reserved(db'.orders, d, p)
    {
      ReleasedTotals(db.orders, db.contracts, c, d, p);
      QuantityCollect(ReleasedItems(db.orders, c), p);
    }
  }

  /** Returning the quota of all orders in preparation at once. */
  lemma {:induction false} BulkReleaseIsExact(db: Db, c: ContractId)
    requires QuotaInv(db) && c < |db.contracts|
    ensures ReleasesExactly(db.contracts, c, Collect(ReleasedItems(db.orders, c)))
  {
    var released := ReleasedItems(db.orders, c);
    ReleasedTotals(db.orders, db.contracts, c, c, 0);
    CollectPositive(released);
    forall p
      ensures Quantity(Collect(released), p) <= Reserved(db.orders, c, p)
    {
      QuantityCollect(released, p);
      ReleasedTotals(db.orders, db.contracts, c, c, p);
      CancelledRowsNonNegative(db.orders, db.contracts, c, p);
    }
    ReleaseIsExact(db, c, Collect(released));
  }

  lemma {:induction false} CancelledRowsNonNegative(orders: seq<Order>, contracts: seq<Contract>, c: ContractId, p: ProductId)
    requires OrdersOk(orders, contracts)
    ensures Reserved(CancelledRows(orders, c), c, p) >= 0
  {
    var rows := CancelledRows(orders, c);
    assert OrdersOk(rows, contracts);
    ReservedNonNegative(rows, contracts, c, p);
  }

  /** Changing the contract's status and cancelling its orders commute. */
  lemma {:induction false} CancelThenMove(db: Db, c: ContractId, target: ContractStatus)
    requires c < |db.contracts| && CancelInflight(db, c).Success?
    ensures |CancelInflight(db, c).value.contracts| == |db.contracts|
    ensures CancelInflight(Moved(db, c, target), c) == Success(Moved(CancelInflight(db, c).value, c, target))
  {
    var cancelled, moved := CancelInflight(db, c).value, Moved(db, c, target);
    var deltas := Collect(ReleasedItems(db.orders, c));
    if deltas != [] {
      assert CancelInflight(moved, c).value.contracts == Moved(cancelled, c, target).contracts;
    }
  }

  lemma {:induction false} StopKeepsQuota(db: Db, c: ContractId, sources: set<ContractStatus>, target: ContractStatus)
    requires QuotaInv(db) && target != Active
    ensures Stop(db, c, sources, target) != Failure(QuotaLeak)
    ensures Stop(db, c, sources, target).Success? ==> QuotaInv(Stop(db, c, sources, target).value)
  {
    if c < |db.contracts| {
      CancelInflightKeepsQuota(db, c);
      CancelThenMove(db, c, target);
      MovedKeepsQuota(CancelInflight(db, c).value, c, target);
    }
  }

  lemma {:induction false} ExpireKeepsQuota(db: Db, n: nat, today: int)
    requires QuotaInv(db) && n <= |db.contracts|
    ensures ExpireContracts(db, n, today).Success? && QuotaInv(ExpireContracts(db, n, today).value)
  {
    if n > 0 {
      ExpireKeepsQuota(db, n - 1, today);
      var before := ExpireContracts(db, n - 1, today).value;
      if Expirable(before.contracts[n - 1], today) {
        ExpireOneKeepsQuota(before, n - 1);
      }
    }
  }

  lemma {:induction false} ExpireOneKeepsQuota(db: Db, c: ContractId)
    requires QuotaInv(db) && c < |db.contracts|
    ensures CancelInflight(db, c).Success? && |CancelInflight(db, c).value.contracts| == |db.contracts|
    ensures QuotaInv(Moved(CancelInflight(db, c).value, c, Expired))
  {
    CancelInflightKeepsQuota(db, c);
    MovedKeepsQuota(CancelInflight(db, c).value, c, Expired);
  }
}
