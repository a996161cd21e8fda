/** Audit logs are paths of the status machines, and completed work is frozen. */
module Lifecycle {
  import opened Base
  import opened Database
  import opened OrderSteps
  import opened ContractSteps
  import opened LineTotals

  // ---- Orders ----

  /** The edges of an order's status machine, besides staying put. */
  predicate OrderEdge(sale: SaleType, a: OrderStatus, b: OrderStatus) {
    match sale
    case Delivery =>
      || (a == New && b in {Assigned, Cancelled})
      || (a == Assigned && b in {Assigned, InTransit, Cancelled})
      || (a == InTransit && b in {Arrived, Cancelled})
      || (a == Arrived && b in {Delivered, Cancelled})
    case WarehousePickup => a == New && b in {PickupCompleted, Cancelled}
  }

  /** Couriers only carry deliveries; only pickups are handed out. */
  predicate StatusFits(sale: SaleType, status: OrderStatus) {
    if sale == Delivery then status != PickupCompleted else status in {New, PickupCompleted, Cancelled}
  }

  /** The log starts at creation, every row continues the previous one, and it ends at the status. */
  ghost predicate OrderPath(ord: Order) {
    && ord.history != []
    && ord.history[0].from == None
    && (ord.history[0].to == New || (ord.saleType == WarehousePickup && ord.history[0].to == PickupCompleted))
    && Last(ord.history).to == ord.status && StatusFits(ord.saleType, ord.status)
    && (forall k :: 0 < k < |ord.history| ==>
          && ord.history[k].from == Some(ord.history[k - 1].to)
          && (ord.history[k].to == ord.history[k - 1].to ||
              OrderEdge(ord.saleType, ord.history[k - 1].to, ord.history[k].to)))
  }

  ghost predicate OrderPaths(orders: seq<Order>) {
    forall o :: 0 <= o < |orders| ==> OrderPath(orders[o])
  }

  /** Only the status and the log decide whether an order's log is a path. */
  ghost predicate SamePath(a: Order, b: Order) {
    a.saleType == b.saleType && a.status == b.status && a.history == b.history
  }

  lemma {:induction false} ExtendPath(ord: Order, ord': Order, target: OrderStatus)
    requires OrderPath(ord) && SamePath(WithStatus(ord, target), ord')
    requires target == ord.status || OrderEdge(ord.saleType, ord.status, target)
    ensures OrderPath(ord')
  {
    var h, h' := ord.history, ord'.history;
    assert h' == h + [OrderLog(Some(ord.status), target)];
    forall k | 0 < k < |h'|
      ensures h'[k].from == Some(h'[k - 1].to)
      ensures h'[k].to == h'[k - 1].to || OrderEdge(ord'.saleType, h'[k - 1].to, h'[k].to)
    {
      assert h'[k - 1] == h[k - 1];
    }
  }

  /** A completed or cancelled order is immutable but for its log. */
  predicate Final(status: OrderStatus) {
    Settled(status) || status == Cancelled
  }

  predicate DistinctLines(lines: seq<Line>) {
    forall i, j :: 0 <= i < j < |lines| ==> lines[i].product != lines[j].product
  }

  /** A delivery order has one line per product. */
  predicate Unrepeated(ord: Order) {
    ord.saleType == Delivery ==> DistinctLines(ord.lines)
  }

  /** What every step may do to an existing order. */
  ghost predicate Evolves(a: Order, b: Order) {
    && b.client == a.client && b.clientInventory == a.clientInventory && b.saleType == a.saleType
    && (Final(a.status) ==> b == a.(history := b.history))
    && (OrderPath(a) ==> OrderPath(b))
    && (Unrepeated(a) ==> Unrepeated(b))
  }

  ghost predicate OrdersEvolve(orders: seq<Order>, orders': seq<Order>) {
    && |orders| <= |orders'|
    && (forall o :: 0 <= o < |orders| ==> Evolves(orders[o], orders'[o]))
    && (forall o :: |orders| <= o < |orders'| ==> OrderPath(orders'[o]) && Unrepeated(orders'[o]))
  }

  lemma {:induction false} EvolvesTransitive(a: seq<Order>, b: seq<Order>, c: seq<Order>)
    requires OrdersEvolve(a, b) && OrdersEvolve(b, c)
    ensures OrdersEvolve(a, c)
  {
    forall o | 0 <= o < |a|
      ensures Evolves(a[o], c[o])
    {
      assert Evolves(a[o], b[o]) && Evolves(b[o], c[o]);
    }
    forall o | |a| <= o < |c|
      ensures OrderPath(c[o]) && Unrepeated(c[o])
    {
      if o < |b| {
        assert Evolves(b[o], c[o]);
      }
    }
  }

  lemma {:induction false} EditEvolves(orders: seq<Order>, o: OrderId, ord: Order)
    requires o < |orders| && Evolves(orders[o], ord)
    ensures OrdersEvolve(orders, orders[o := ord])
  {
  }

  lemma {:induction false} MoveEvolves(ord: Order, ord': Order, target: OrderStatus)
    requires ord'.client == ord.client && ord'.clientInventory == ord.clientInventory
    requires SamePath(WithStatus(ord, target), ord')
    requires if target == ord.status then ord' == WithStatus(ord, target).(courier := ord'.courier)
             else OrderEdge(ord.saleType, ord.status, target)
    requires Final(ord.status) ==> ord'.courier == ord.courier
    requires DistinctLines(ord.lines) ==> DistinctLines(ord'.lines)
    ensures Evolves(ord, ord')
  {
    if OrderPath(ord) {
      ExtendPath(ord, ord', target);
    }
  }

  // ---- Contracts ----

  predicate ContractEdge(a: ContractStatus, b: ContractStatus) {
    match a
    case Draft => b == Active
    case Active => b in {Suspended, Terminated, Expired}
    case Suspended => b in {Active, Terminated}
    case _ => false
  }

  ghost predicate ContractPath(k: Contract) {
    && (k.history == [] ==> k.status == Draft)
    && (k.history != [] ==> k.history[0].from == Draft && Last(k.history).to == k.status)
    && (forall i :: 0 <= i < |k.history| ==> ContractEdge(k.history[i].from, k.history[i].to))
    && (forall i :: 0 < i < |k.history| ==> k.history[i].from == k.history[i - 1].to)
  }

  ghost predicate ContractPaths(contracts: seq<Contract>) {
    forall c :: 0 <= c < |contracts| ==> ContractPath(contracts[c])
  }

  /** TERMINATED and EXPIRED have no exit. */
  ghost predicate KeepsClosed(contracts: seq<Contract>, contracts': seq<Contract>) {
    && |contracts| <= |contracts'|
    && (forall c :: 0 <= c < |contracts| && contracts[c].status in {Terminated, Expired} ==>
          contracts'[c].status == contracts[c].status && contracts'[c].history == contracts[c].history)
  }

  ghost predicate SameLogs(contracts: seq<Contract>, contracts': seq<Contract>) {
    && |contracts'| == |contracts|
    && (forall c :: 0 <= c < |contracts| ==>
          contracts'[c].status == contracts[c].status && contracts'[c].history == contracts[c].history)
  }

  lemma {:induction false} MovedPath(db: Db, c: ContractId, target: ContractStatus)
    requires c < |db.contracts| && ContractPaths(db.contracts)
    requires ContractEdge(db.contracts[c].status, target)
    ensures ContractPaths(Moved(db, c, target).contracts)
    ensures KeepsClosed(db.contracts, Moved(db, c, target).contracts)
  {
    var k, k' := db.contracts[c], Moved(db, c, target).contracts[c];
    assert k'.history == k.history + [ContractLog(k.status, target)];
    assert ContractPath(k');
  }

  // ---- Totals ----

  /** The stored total is the value of the lines. */
  predicate TotalOk(ord: Order) {
    ord.total == LinesValue(ord.lines)
  }

  /** The added quantity is charged at the price its line was frozen at. */
  predicate AtLinePrice(lines: seq<Line>, p: ProductId, price: int) {
    FindLine(lines, p).Some? ==> lines[FindLine(lines, p).value].unitPrice == price
  }

  /** Adding keeps the total right exactly when the charge is at the line's frozen price. */
  lemma {:induction false} TotalAfterAdd(ord: Order, p: ProductId, quantity: int, price: int)
    requires TotalOk(ord) && quantity > 0
    ensures ord.total + price * quantity == LinesValue(AddToLines(ord.lines, p, quantity, price)) <==>
            AtLinePrice(ord.lines, p, price)
  {
    HeldAfterAdd(ord.lines, p, quantity, price, p);
    if FindLine(ord.lines, p).Some? {
      SameCharge(quantity, ord.lines[FindLine(ord.lines, p).value].unitPrice, price);
    } else {
      SameCharge(quantity, price, price);
    }
  }

  lemma {:induction false} SameCharge(quantity: int, a: int, b: int)
    requires quantity > 0
    ensures quantity * a == b * quantity <==> a == b
  {
    assert quantity * a - b * quantity == quantity * (a - b);
    if a > b {
      assert quantity * (a - b) > 0;
    } else if a < b {
      assert quantity * (b - a) > 0;
      assert quantity * (a - b) == -(quantity * (b - a));
    }
  }

  /** Removing keeps the total right, and the clamp at zero never bites. */
  lemma {:induction false} TotalAfterRemove(ord: Order, i: nat)
    requires TotalOk(ord) && LinesAllowed(ord.lines) && i < |ord.lines|
    ensures TotalOk(WithoutLine(ord, i))
    ensures ord.total - ord.lines[i].unitPrice * ord.lines[i].quantity >= 0
  {
    HeldAfterRemove(ord.lines, i, 0);
    HeldNonNegative(ord.lines[..i] + ord.lines[i + 1..], 0);
  }
}
