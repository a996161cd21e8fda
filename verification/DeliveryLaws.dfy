/** Deliveries in full: what was handed over, exactly when the step commits, and everything it changes. */
module DeliveryLaws {
  import opened Base
  import opened Tally
  import opened StockLedger
  import opened Database
  import opened OrderSteps
  import opened System
  import opened LineTotals
  import opened QuotaInvariant
  import opened StockFlows
  import opened MoneyFlows
  import opened RunInvariant
  import opened StepFlows
  import opened OrderLaws
  import opened CheckoutLaws
  import OrderEvolution

  // ---- What was handed over ----

  /** Report `n` is the last one about product `p`. */
  predicate LastReport(actual: Cart, n: nat, p: ProductId) {
    n < |actual| && actual[n].0 == p && forall m :: n < m < |actual| ==> actual[m].0 != p
  }

  /** A reported product is delivered as last reported, any other as ordered. */
  ghost predicate Handed(lines: seq<Line>, actual: Cart, delivered: seq<Line>) {
    && |delivered| == |lines|
    && (forall i, n: nat :: 0 <= i < |lines| && LastReport(actual, n, lines[i].product) ==>
          delivered[i] == lines[i].(quantity := actual[n].1))
    && (forall i :: 0 <= i < |lines| && (forall n: nat :: !LastReport(actual, n, lines[i].product)) ==> delivered[i] == lines[i])
  }

  /** No report is zero, negative or above what was ordered. */
  ghost predicate Acceptable(lines: seq<Line>, actual: Cart) {
    forall i, n: nat :: 0 <= i < |lines| && LastReport(actual, n, lines[i].product) ==> 0 < actual[n].1 <= lines[i].quantity
  }

  lemma {:induction false} ReportedIsLast(actual: Cart, p: ProductId)
    ensures Reported(actual, p).None? ==> forall n: nat :: !LastReport(actual, n, p)
    ensures forall n: nat :: LastReport(actual, n, p) ==> Reported(actual, p) == Some(actual[n].1)
    ensures Reported(actual, p).Some? ==> exists n: nat :: LastReport(actual, n, p)
  {
    if actual != [] {
      var front, last := Front(actual), |actual| - 1;
      ReportedIsLast(front, p);
      if actual[last].0 == p {
        assert LastReport(actual, last, p);
      } else {
        forall n: nat
          ensures LastReport(actual, n, p) <==> LastReport(front, n, p)
        {
          assert forall m :: 0 <= m < |front| ==> front[m] == actual[m];
        }
      }
    }
  }

  lemma {:induction false} LineHanded(lines: seq<Line>, actual: Cart, i: nat)
    requires i < |lines| && DeliveredLines(lines, actual).Success?
    ensures var delivered, report := DeliveredLines(lines, actual).value, Reported(actual, lines[i].product);
            && |delivered| == |lines|
            && (report.None? ==> delivered[i] == lines[i])
            && (report.Some? ==> 0 < report.value <= lines[i].quantity && delivered[i] == lines[i].(quantity := report.value))
  {
    DeliveredLength(lines, actual);
    if i < |lines| - 1 {
      LineHanded(Front(lines), actual, i);
      assert Front(lines)[i] == lines[i];
    }
  }

  lemma {:induction false} AllAcceptable(lines: seq<Line>, actual: Cart)
    requires forall i :: 0 <= i < |lines| ==>
      Reported(actual, lines[i].product).Some? ==> 0 < Reported(actual, lines[i].product).value <= lines[i].quantity
    ensures DeliveredLines(lines, actual).Success?
  {
    if lines != [] {
      var front := Front(lines);
      assert forall i :: 0 <= i < |front| ==> front[i] == lines[i];
      AllAcceptable(front, actual);
      assert Last(lines) == lines[|lines| - 1];
    }
  }

  /** The reports are read exactly so. */
  lemma {:induction false} ReportsAreRead(lines: seq<Line>, actual: Cart)
    ensures DeliveredLines(lines, actual).Success? <==> Acceptable(lines, actual)
    ensures DeliveredLines(lines, actual).Success? ==> Handed(lines, actual, DeliveredLines(lines, actual).value)
  {
    forall i | 0 <= i < |lines|
      ensures Reported(actual, lines[i].product).None? ==> forall n: nat :: !LastReport(actual, n, lines[i].product)
      ensures forall n: nat :: LastReport(actual, n, lines[i].product) ==> Reported(actual, lines[i].product) == Some(actual[n].1)
      ensures Reported(actual, lines[i].product).Some? ==> exists n: nat :: LastReport(actual, n, lines[i].product)
    {
      ReportedIsLast(actual, lines[i].product);
    }
    if DeliveredLines(lines, actual).Success? {
      DeliveredLength(lines, actual);
      forall i | 0 <= i < |lines|
        ensures var delivered, report := DeliveredLines(lines, actual).value, Reported(actual, lines[i].product);
                && (report.None? ==> delivered[i] == lines[i])
                && (report.Some? ==> 0 < report.value <= lines[i].quantity && delivered[i] == lines[i].(quantity := report.value))
      {
        LineHanded(lines, actual, i);
      }
    }
    if Acceptable(lines, actual) {
      AllAcceptable(lines, actual);
    }
  }

  /** The reports determine the delivered lines. */
  lemma {:induction false} HandedOnce(lines: seq<Line>, actual: Cart, a: seq<Line>, b: seq<Line>)
    requires Handed(lines, actual, a) && Handed(lines, actual, b)
    ensures a == b
  {
    forall i | 0 <= i < |lines|
      ensures a[i] == b[i]
    {
      if exists n: nat :: LastReport(actual, n, lines[i].product) {
        var n: nat :| LastReport(actual, n, lines[i].product);
        assert a[i] == lines[i].(quantity := actual[n].1) == b[i];
      }
    }
  }

  lemma {:induction false} AlwaysHanded(lines: seq<Line>, actual: Cart) returns (delivered: seq<Line>)
    ensures Handed(lines, actual, delivered)
  {
    delivered := seq(|lines|, i requires 0 <= i < |lines| =>
      if Reported(actual, lines[i].product).Some? then lines[i].(quantity := Reported(actual, lines[i].product).value) else lines[i]);
    forall i | 0 <= i < |lines|
      ensures forall n: nat :: LastReport(actual, n, lines[i].product) ==> delivered[i] == lines[i].(quantity := actual[n].1)
      ensures (forall n: nat :: !LastReport(actual, n, lines[i].product)) ==> delivered[i] == lines[i]
    {
      ReportedIsLast(actual, lines[i].product);
    }
  }

  // ---- The delivery step ----

  /** The order as it stands once delivered. */
  function AsDelivered(ord: Order, actual: Cart, delivered: seq<Line>): Order {
    Logged(ord, Delivered).(lines := delivered, total := if actual == [] then ord.total else Sum(LineValues(delivered)))
  }

  /** Somebody who may act reports an ARRIVED delivery order, with acceptable quantities. */
  ghost predicate Reportable(db: Db, o: OrderId, actual: Cart, requester: Option<UserId>) {
    && o < |db.orders| && MayAct(db.orders[o], requester)
    && db.orders[o].saleType == Delivery && db.orders[o].status == Arrived && Acceptable(db.orders[o].lines, actual)
  }

  /** The courier's van holds the delivered lines and the containers they come in, at another place than the client's. */
  ghost predicate VanCovers(db: Db, ord: Order, delivered: seq<Line>, catalog: Catalog) {
    && ord.courier.Some? && Find(db.stock.inventories, ord.courier.value, Courier).Some?
    && var van := Find(db.stock.inventories, ord.courier.value, Courier).value;
    && van != ord.clientInventory
    && (forall p :: Held(delivered, p) + Containers(catalog, delivered, p) <= Balance(db.stock, van, p))
  }

  /** What the order no longer needs of its contract. */
  function Spared(lines: seq<Line>, delivered: seq<Line>): ProductId -> int {
    (p: ProductId) => Held(delivered, p) - Held(lines, p)
  }

  /** The correction of an order: it becomes its delivered self, and the contract gets the difference back. */
  lemma {:induction false} Corrected(db: Db, o: OrderId, actual: Cart, delivered: seq<Line>)
    requires QuotaInv(db) && o < |db.orders| && db.orders[o].status != Cancelled && Handed(db.orders[o].lines, actual, delivered)
    ensures AdjustDelivery(db, o, actual).Success? <==> actual == [] || Acceptable(db.orders[o].lines, actual)
    ensures actual == [] ==> delivered == db.orders[o].lines
    ensures AdjustDelivery(db, o, actual).Success? ==>
              var db1, ord := AdjustDelivery(db, o, actual).value, db.orders[o];
              && db1 == db.(orders := db1.orders, contracts := db1.contracts)
              && db1.orders == db.orders[o := ord.(lines := delivered, total := if actual == [] then ord.total else Sum(LineValues(delivered)))]
              && (if ord.contract.Some? then Counts(db.contracts, db1.contracts, ord.contract.value, Spared(ord.lines, delivered))
                  else db1.contracts == db.contracts)
  {
    var ord := db.orders[o];
    assert OrderOk(ord, db.contracts);
    if actual == [] {
      assert forall i :: 0 <= i < |ord.lines| ==> delivered[i] == ord.lines[i];
    } else {
      ReportsAreRead(ord.lines, actual);
      AdjustKeepsQuota(db, o, actual);
      if Acceptable(ord.lines, actual) {
        HandedOnce(ord.lines, actual, delivered, DeliveredLines(ord.lines, actual).value);
        ValueIsSum(delivered);
        if ord.contract.Some? {
          SparedIsReturned(db, o, actual, delivered);
        }
      }
    }
    if ord.contract.Some? && actual == [] {
      Unspared(db.contracts, ord.contract.value, ord.lines);
    }
  }

  lemma {:induction false} Unspared(contracts: seq<Contract>, c: ContractId, lines: seq<Line>)
    requires c < |contracts|
    ensures Counts(contracts, contracts, c, Spared(lines, lines))
  {
  }

  lemma {:induction false} SparedIsReturned(db: Db, o: OrderId, actual: Cart, delivered: seq<Line>)
    requires QuotaInv(db) && o < |db.orders| && db.orders[o].contract.Some? && db.orders[o].status != Cancelled
    requires DeliveredLines(db.orders[o].lines, actual) == Success(delivered)
    ensures |delivered| == |db.orders[o].lines|
    ensures var out := ReleaseQuota(db.contracts, db.orders[o].contract.value, Undelivered(db.orders[o].lines, delivered));
            out.Success? && Counts(db.contracts, out.value, db.orders[o].contract.value, Spared(db.orders[o].lines, delivered))
  {
    var ord := db.orders[o];
    var c := ord.contract.value;
    assert OrderOk(ord, db.contracts) && LimitsOk(db.contracts[c].items);
    UndeliveredReleaseIsExact(db, o, actual);
    var deltas := Undelivered(ord.lines, delivered);
    ReleaseCounts(db.contracts, c, deltas);
    DeliveredShape(ord.lines, actual);
    forall p
      ensures Returned(deltas)(p) == Spared(ord.lines, delivered)(p)
    {
      UndeliveredTotals(ord.lines, delivered, p);
    }
  }

  /** A line's quantity never exceeds what the lines hold of its product. */
  lemma {:induction false} LinesWithin(s: Stock, i: InventoryId, lines: seq<Line>)
    requires LinesAllowed(lines) && forall p :: Held(lines, p) <= Balance(s, i, p)
    ensures !Short(s, i, lines)
  {
    var items := Quantities(lines);
    HeldNonNegative(lines, 0);
    forall n | 0 <= n < |lines|
      ensures lines[n].quantity <= Balance(s, i, lines[n].product)
    {
      QuantityPositive(items, lines[n].product);
      assert items[n] == (lines[n].product, lines[n].quantity);
    }
  }

  /** The goods and the money of a delivery: both documents and the settlement, or neither. */
  lemma {:induction false} GoodsHanded(
    db: Db, ord: Order, o: OrderId, van: InventoryId, catalog: Catalog, now: int)
    requires StockOk(db.stock) && LinesAllowed(ord.lines) && Exists(db.stock, ord.clientInventory)
    requires Exists(db.stock, van) && db.stock.inventories[van].kind == Courier
    ensures !Short(db.stock, van, ord.lines) && DeliverStock(db.stock, van, ord.clientInventory, ord.lines, catalog, o, now).Success?
            <==> van != ord.clientInventory &&
                 forall p :: Held(ord.lines, p) + Containers(catalog, ord.lines, p) <= Balance(db.stock, van, p)
  {
    DeliveryFlow(db.stock, van, ord.clientInventory, ord.lines, catalog, o, now);
    ReturnableTotals(catalog, ord.lines);
    if forall p :: Held(ord.lines, p) + Containers(catalog, ord.lines, p) <= Balance(db.stock, van, p) {
      forall p
        ensures Held(ord.lines, p) <= Balance(db.stock, van, p)
      {
        assert Containers(catalog, ord.lines, p) >= 0;
      }
      LinesWithin(db.stock, van, ord.lines);
    }
  }

  /** The rest of a fulfilment, once the order is corrected. */
  function Complete(db1: Db, o: OrderId, catalog: Catalog, now: int): Result<Db>
    requires o < |db1.orders| && db1.orders[o].courier.Some?
  {
    var ord := db1.orders[o];
    var van := Find(db1.stock.inventories, ord.courier.value, Courier);
    if van.None? then Failure(CourierInventoryNotFound)
    else if Short(db1.stock, van.value, ord.lines) then Failure(Error.InsufficientStock)
    else
      var stock :- DeliverStock(db1.stock, van.value, ord.clientInventory, ord.lines, catalog, o, now);
      var money :- Settle(db1.money, ord, o);
      Success(db1.(stock := stock, money := money))
  }

  /** Only rows of this delivery were added to the stock ledger. */
  ghost predicate DeliveryLogged(s: Stock, s': Stock, van: InventoryId, client: InventoryId, o: OrderId, now: int) {
    && s.ledger <= s'.ledger
    && (forall n :: |s.ledger| <= n < |s'.ledger| ==>
          || RowFor(s'.ledger[n], Document(van, client, ClientDelivery, Some(o), now))
          || RowFor(s'.ledger[n], Document(client, van, ClientReturn, Some(o), now)))
  }

  /** What a completed delivery moved: exactly the lines, and exactly the money of one settlement. */
  ghost predicate DoneInFull(db1: Db, db': Db, o: OrderId, now: int) {
    && o < |db1.orders| && db1.orders[o].courier.Some? && Payable(db1.money, db1.orders[o])
    && var ord := db1.orders[o];
    var van := Find(db1.stock.inventories, ord.courier.value, Courier);
    && van.Some? && db' == db1.(stock := db'.stock, money := db'.money) && InOrder(db1.stock, db'.stock)
    && MovesExactly(db1.stock, db'.stock, van.value, ord.clientInventory, ord.lines)
    && DeliveryLogged(db1.stock, db'.stock, van.value, ord.clientInventory, o, now)
    && Settles(db1.money, db'.money, ord)
    && db'.money.ledger == db1.money.ledger + SettlementLedger(db1.money, ord, o)
  }

  lemma {:induction false} CompletedIff(db1: Db, o: OrderId, catalog: Catalog, now: int)
    requires o < |db1.orders| && db1.orders[o].courier.Some? && StockOk(db1.stock) && LinesAllowed(db1.orders[o].lines)
    requires Exists(db1.stock, db1.orders[o].clientInventory)
    ensures Complete(db1, o, catalog, now).Success? <==>
            VanCovers(db1, db1.orders[o], db1.orders[o].lines, catalog) && Payable(db1.money, db1.orders[o])
    ensures Complete(db1, o, catalog, now).Success? ==> DoneInFull(db1, Complete(db1, o, catalog, now).value, o, now)
  {
    var ord := db1.orders[o];
    SettledIff(db1.money, ord, o);
    var found := Find(db1.stock.inventories, ord.courier.value, Courier);
    if found.Some? {
      GoodsHanded(db1, ord, o, found.value, catalog, now);
      if Complete(db1, o, catalog, now).Success? {
        var db' := Complete(db1, o, catalog, now).value;
        DeliveryFlow(db1.stock, found.value, ord.clientInventory, ord.lines, catalog, o, now);
        DeliveryRows(db1.stock, found.value, ord.clientInventory, ord.lines, catalog, o, now, db'.stock);
        SettlementFlow(db1.money, ord, o, db'.money);
      }
    }
  }

  /** A marked, corrected and completed order is what fulfilment makes of a marked one. */
  lemma {:induction false} FulfilUnfolds(db: Db, o: OrderId, actual: Cart, catalog: Catalog, now: int)
    requires o < |db.orders|
    ensures db.orders[o].courier.None? ==> Fulfil(db, o, actual, catalog, now).Failure?
    ensures AdjustDelivery(db, o, actual).Failure? ==> Fulfil(db, o, actual, catalog, now).Failure?
    ensures db.orders[o].courier.Some? && AdjustDelivery(db, o, actual).Success? ==>
              var db1 := AdjustDelivery(db, o, actual).value;
              o < |db1.orders| && db1.orders[o].courier.Some? && Fulfil(db, o, actual, catalog, now) == Complete(db1, o, catalog, now)
  {
    if AdjustDelivery(db, o, actual).Success? {
      OrderEvolution.AdjustedOrder(db, o, actual, AdjustDelivery(db, o, actual).value);
    }
  }

  /** The database with order `o` marked and corrected, before goods and money move. */
  ghost predicate Prepared(db: Db, db1: Db, o: OrderId, actual: Cart, delivered: seq<Line>) {
    && o < |db.orders| && Rewrites(db, db1, o, AsDelivered(db.orders[o], actual, delivered))
    && (if db.orders[o].contract.Some?
        then Counts(db.contracts, db1.contracts, db.orders[o].contract.value, Spared(db.orders[o].lines, delivered))
        else db1.contracts == db.contracts)
  }

  lemma {:induction false} DeliveryPrepared(db: Db, o: OrderId, actual: Cart, delivered: seq<Line>)
    requires QuotaInv(db) && o < |db.orders| && db.orders[o].saleType == Delivery && db.orders[o].status == Arrived
    requires Handed(db.orders[o].lines, actual, delivered)
    ensures var moved := db.(orders := db.orders[o := Logged(db.orders[o], Delivered)]);
            && (AdjustDelivery(moved, o, actual).Success? <==> Acceptable(db.orders[o].lines, actual))
            && (AdjustDelivery(moved, o, actual).Success? ==>
                  && Prepared(db, AdjustDelivery(moved, o, actual).value, o, actual, delivered)
                  && LinesAllowed(delivered))
  {
    var ord := db.orders[o];
    assert OrderOk(ord, db.contracts);
    var moved := db.(orders := db.orders[o := Logged(ord, Delivered)]);
    EditKeepsQuota(db, o, Logged(ord, Delivered), moved);
    Corrected(moved, o, actual, delivered);
    ReportsAreRead(ord.lines, actual);
    if AdjustDelivery(moved, o, actual).Success? {
      AdjustShape(moved, o, actual);
      assert moved.orders[o := AsDelivered(ord, actual, delivered)] == db.orders[o := AsDelivered(ord, actual, delivered)];
    }
    if actual == [] {
      assert Acceptable(ord.lines, actual);
    }
  }

  /**
    A delivery commits exactly when an ARRIVED order is reported with acceptable quantities, the van
    covers what is handed over with its containers, and the order can be settled. It then moves exactly
    that: each reported product as last reported, every other as ordered.
   */
  ghost predicate DeliversOrder(db: Db, o: OrderId, actual: Cart, requester: Option<UserId>, catalog: Catalog, now: int, delivered: seq<Line>, out: Result<Db>)
    requires o < |db.orders|
  {
    var ord' := AsDelivered(db.orders[o], actual, delivered);
    && (out.Success? <==>
          Reportable(db, o, actual, requester) && VanCovers(db, db.orders[o], delivered, catalog) && Payable(db.money, ord'))
    && (out.Success? ==> exists db1 :: Prepared(db, db1, o, actual, delivered) && DoneInFull(db1, out.value, o, now))
  }

  lemma {:induction false} OrderDeliveredSpec(db: Db, o: OrderId, actual: Cart, requester: Option<UserId>, catalog: Catalog, now: int, delivered: seq<Line>)
    requires QuotaInv(db) && StockInv(db.orders, db.stock)
    requires o < |db.orders| && db.orders[o].status != Delivered && Handed(db.orders[o].lines, actual, delivered)
    ensures DeliversOrder(db, o, actual, requester, catalog, now, delivered, UpdateStatus(db, o, Delivered, actual, requester, catalog, now))
  {
    var ord := db.orders[o];
    MovesAreThese(ord, Delivered);
    if MayAct(ord, requester) && MayMove(ord, Delivered) {
      DeliveryDone(db, o, actual, catalog, now, delivered);
      var moved := db.(orders := db.orders[o := Logged(ord, Delivered)]);
      assert UpdateStatus(db, o, Delivered, actual, requester, catalog, now) == Fulfil(moved, o, actual, catalog, now);
    }
  }

  lemma {:induction false} OrderDelivered(db: Db, o: OrderId, actual: Cart, requester: Option<UserId>, catalog: Catalog, now: int, delivered: seq<Line>)
    requires QuotaInv(db) && StockInv(db.orders, db.stock)
    requires o < |db.orders| && db.orders[o].status != Delivered && Handed(db.orders[o].lines, actual, delivered)
    ensures DeliversOrder(db, o, actual, requester, catalog, now, delivered, OrderOutcome(db, ChangeStatus(o, Delivered, actual, requester, catalog, now)))
  {
    StatusCommand(db, o, Delivered, actual, requester, catalog, now);
    OrderDeliveredSpec(db, o, actual, requester, catalog, now, delivered);
  }

  lemma {:induction false} StatusCommand(
    db: Db, o: OrderId, target: OrderStatus, actual: Cart, requester: Option<UserId>, catalog: Catalog, now: int)
    ensures OrderOutcome(db, ChangeStatus(o, target, actual, requester, catalog, now)) ==
            UpdateStatus(db, o, target, actual, requester, catalog, now)
  {
  }

  lemma {:induction false} DeliveryDone(db: Db, o: OrderId, actual: Cart, catalog: Catalog, now: int, delivered: seq<Line>)
    requires QuotaInv(db) && StockInv(db.orders, db.stock) && o < |db.orders|
    requires db.orders[o].saleType == Delivery && db.orders[o].status == Arrived && Handed(db.orders[o].lines, actual, delivered)
    ensures var moved := db.(orders := db.orders[o := Logged(db.orders[o], Delivered)]);
            var out, ord' := Fulfil(moved, o, actual, catalog, now), AsDelivered(db.orders[o], actual, delivered);
            && (out.Success? <==>
                  Acceptable(db.orders[o].lines, actual) && VanCovers(db, db.orders[o], delivered, catalog) && Payable(db.money, ord'))
            && (out.Success? ==> exists db1 :: Prepared(db, db1, o, actual, delivered) && DoneInFull(db1, out.value, o, now))
  {
    var ord := db.orders[o];
    var moved := db.(orders := db.orders[o := Logged(ord, Delivered)]);
    DeliveryPrepared(db, o, actual, delivered);
    FulfilUnfolds(moved, o, actual, catalog, now);
    if ord.courier.Some? && AdjustDelivery(moved, o, actual).Success? {
      var db1 := AdjustDelivery(moved, o, actual).value;
      CompletedIff(db1, o, catalog, now);
    }
  }
}
