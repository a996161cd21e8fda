/** The order commands that neither place nor complete an order: when each commits, and what it changes. */
module OrderLaws {
  import opened Base
  import opened Tally
  import opened Quotas
  import opened StockLedger
  import opened Database
  import opened OrderSteps
  import opened System
  import opened QuotaInvariant
  import opened ContractLaws

  /** Order `o` becomes `ord`, contracts may be recounted; stock, money and all other orders stay. */
  ghost predicate Rewrites(db: Db, db': Db, o: OrderId, ord: Order) {
    o < |db.orders| && db' == db.(orders := db.orders[o := ord], contracts := db'.contracts)
  }

  /** Only the counters of contract `c` changed, each by `change`. */
  ghost predicate Counts(contracts: seq<Contract>, contracts': seq<Contract>, c: ContractId, change: ProductId -> int) {
    && c < |contracts| == |contracts'| && contracts' == contracts[c := contracts[c].(items := contracts'[c].items)]
    && contracts'[c].items.Keys == contracts[c].items.Keys
    && (forall p :: p in contracts[c].items ==>
          contracts'[c].items[p] == contracts[c].items[p].(used := contracts[c].items[p].used + change(p)))
  }

  /** The change of one product's counter. */
  function OneProduct(p: ProductId, d: int): ProductId -> int {
    (x: ProductId) => if x == p then d else 0
  }

  function Returned(items: Deltas): ProductId -> int {
    (x: ProductId) => -Quantity(items, x)
  }

  lemma {:induction false} ReleaseCounts(contracts: seq<Contract>, c: ContractId, deltas: Deltas)
    requires c < |contracts| && LimitsOk(contracts[c].items) && ReleasesExactly(contracts, c, deltas)
    ensures Counts(contracts, ReleaseQuota(contracts, c, deltas).value, c, Returned(deltas))
  {
    TermsKept(contracts, c, deltas);
    var contracts' := ReleaseQuota(contracts, c, deltas).value;
    forall p | p in contracts[c].items
      ensures contracts'[c].items[p].used == contracts[c].items[p].used - Quantity(deltas, p)
    {
      assert Used(contracts'[c].items, p) == Used(contracts[c].items, p) - Quantity(deltas, p);
    }
  }

  /** A NEW order, edited by its client or by the staff. */
  predicate Editable(db: Db, o: OrderId, requester: Option<UserId>) {
    o < |db.orders| && db.orders[o].status == New && (requester.None? || requester.value == db.orders[o].client)
  }

  /** Line `i` is the first of its product. */
  predicate FirstOf(lines: seq<Line>, i: nat, p: ProductId) {
    i < |lines| && lines[i].product == p && forall j :: 0 <= j < i ==> lines[j].product != p
  }

  lemma {:induction false} FoundFirst(lines: seq<Line>, p: ProductId)
    ensures FindLine(lines, p).Some? ==> FirstOf(lines, FindLine(lines, p).value, p)
    ensures FindLine(lines, p).None? <==> forall i :: 0 <= i < |lines| ==> lines[i].product != p
  {
    if lines != [] {
      FoundFirst(Front(lines), p);
      assert forall i :: 0 <= i < |Front(lines)| ==> Front(lines)[i] == lines[i];
    }
  }

  // ---- Adding a product ----

  /** The lines with `quantity` more of `p`: on its first line at the line's own price, or on a new line. */
  ghost predicate AddsTo(lines: seq<Line>, lines': seq<Line>, p: ProductId, quantity: int, price: int) {
    if exists i: nat :: FirstOf(lines, i, p) then
      exists i: nat :: FirstOf(lines, i, p) && lines' == lines[i := Line(p, lines[i].quantity + quantity, lines[i].unitPrice)]
    else lines' == lines + [Line(p, quantity, price)]
  }

  lemma {:induction false} LinesAdded(lines: seq<Line>, p: ProductId, quantity: int, price: int)
    requires LinesAllowed(lines) && quantity > 0
    ensures AddsTo(lines, AddToLines(lines, p, quantity, price), p, quantity, price)
    ensures LinesAllowed(AddToLines(lines, p, quantity, price)) <==>
            price >= 0 || exists i :: 0 <= i < |lines| && lines[i].product == p
  {
    FoundFirst(lines, p);
    var lines' := AddToLines(lines, p, quantity, price);
    if FindLine(lines, p).None? {
      assert lines'[|lines|] == Line(p, quantity, price);
    }
  }

  /** What the added quantity costs: the contract's price today, or the catalogue's. */
  function PriceToday(db: Db, ord: Order, p: ProductId, catalog: Catalog): int {
    if ord.contract.Some? then
      if ord.contract.value < |db.contracts| && p in db.contracts[ord.contract.value].items
      then db.contracts[ord.contract.value].items[p].price else 0
    else if p in catalog then catalog[p].price else 0
  }

  /** The contract of a NEW order, if any, has room for `quantity` more of `p`. */
  predicate Room(db: Db, ord: Order, p: ProductId, quantity: int) {
    ord.contract.Some? ==>
      && ord.contract.value < |db.contracts| && p in db.contracts[ord.contract.value].items
      && var item := db.contracts[ord.contract.value].items[p]; item.quantity == 0 || item.used + quantity <= item.quantity
  }

  lemma {:induction false} OneReserved(db: Db, c: ContractId, p: ProductId, quantity: int)
    requires c < |db.contracts| && db.contracts[c].status == Active && quantity > 0
    ensures var out, k := ReserveOne(db.contracts, c, p, quantity), db.contracts[c];
            && (out.Success? <==> p in k.items && (k.items[p].quantity == 0 || k.items[p].used + quantity <= k.items[p].quantity))
            && (out.Success? ==> out.value.1 == k.items[p].price && Counts(db.contracts, out.value.0, c, OneProduct(p, quantity)))
  {
    var cart := [(p, quantity)];
    IncrementTotals(db.contracts[c].items, cart);
    forall x
      ensures Quantity(cart, x) == if x == p then quantity else 0
    {
      assert Front(cart) == [];
    }
    assert cart[0].0 == p;
  }

  /**
    A product is added to a NEW order exactly when it is on sale and the contract has room. An
    existing line keeps its price; the total grows by today's price.
   */
  ghost predicate AddsProduct(db: Db, o: OrderId, p: ProductId, quantity: int, requester: Option<UserId>, catalog: Catalog, out: Result<Db>)
  {
    && (out.Success? <==>
          && quantity > 0 && p in catalog && catalog[p].active && Editable(db, o, requester)
          && Room(db, db.orders[o], p, quantity)
          && (PriceToday(db, db.orders[o], p, catalog) >= 0 ||
              exists i :: 0 <= i < |db.orders[o].lines| && db.orders[o].lines[i].product == p))
    && (out.Success? ==>
          var ord, price := db.orders[o], PriceToday(db, db.orders[o], p, catalog);
          && |out.value.orders| == |db.orders|
          && var ord' := out.value.orders[o];
          && Rewrites(db, out.value, o, ord')
          && ord' == ord.(lines := ord'.lines, total := ord.total + price * quantity)
          && AddsTo(ord.lines, ord'.lines, p, quantity, price)
          && (if ord.contract.Some? then Counts(db.contracts, out.value.contracts, ord.contract.value, OneProduct(p, quantity))
              else out.value.contracts == db.contracts))
  }

  lemma {:induction false} ProductAddedSpec(db: Db, o: OrderId, p: ProductId, quantity: int, requester: Option<UserId>, catalog: Catalog)
    requires QuotaInv(db)
    ensures AddsProduct(db, o, p, quantity, requester, catalog, AddProduct(db, o, p, quantity, requester, catalog))
  {
    if Editable(db, o, requester) && quantity > 0 && p in catalog {
      var ord := db.orders[o];
      assert OrderOk(ord, db.contracts);
      LinesAdded(ord.lines, p, quantity, PriceToday(db, ord, p, catalog));
      if ord.contract.Some? {
        assert LimitsOk(db.contracts[ord.contract.value].items);
        OneReserved(db, ord.contract.value, p, quantity);
      }
    }
  }

  lemma {:induction false} ProductAdded(db: Db, o: OrderId, p: ProductId, quantity: int, requester: Option<UserId>, catalog: Catalog)
    requires QuotaInv(db)
    ensures AddsProduct(db, o, p, quantity, requester, catalog, OrderOutcome(db, AddLine(o, p, quantity, requester, catalog)))
  {
    ProductAddedSpec(db, o, p, quantity, requester, catalog);
  }

  // ---- Removing a product ----

  /** The lines without the first line of `p`, and what that line was worth. */
  ghost predicate RemovesFrom(ord: Order, ord': Order, p: ProductId, i: nat) {
    && FirstOf(ord.lines, i, p)
    && ord' == ord.(lines := ord.lines[..i] + ord.lines[i + 1..],
                    total := Max(0, ord.total - ord.lines[i].unitPrice * ord.lines[i].quantity))
  }

  /**
    A product is removed from a NEW order of more than one line; its quota returns to the contract.
    Removing a product that is not there does nothing.
   */
  ghost predicate RemovesProduct(db: Db, o: OrderId, p: ProductId, requester: Option<UserId>, out: Result<Db>)
  {
    && (out.Success? <==>
          Editable(db, o, requester) &&
          (|db.orders[o].lines| > 1 || forall i :: 0 <= i < |db.orders[o].lines| ==> db.orders[o].lines[i].product != p))
    && (out.Success? ==>
          var ord := db.orders[o];
          if forall i :: 0 <= i < |ord.lines| ==> ord.lines[i].product != p then out.value == db
          else exists i: nat ::
            && |out.value.orders| == |db.orders| && Rewrites(db, out.value, o, out.value.orders[o])
            && RemovesFrom(ord, out.value.orders[o], p, i)
            && (if ord.contract.Some?
                then Counts(db.contracts, out.value.contracts, ord.contract.value, Returned([(p, ord.lines[i].quantity)]))
                else out.value.contracts == db.contracts))
  }

  lemma {:induction false} ProductRemovedSpec(db: Db, o: OrderId, p: ProductId, requester: Option<UserId>)
    requires QuotaInv(db)
    ensures RemovesProduct(db, o, p, requester, RemoveProduct(db, o, p, requester))
  {
    if Editable(db, o, requester) {
      var ord := db.orders[o];
      assert OrderOk(ord, db.contracts);
      FoundFirst(ord.lines, p);
      var found := FindLine(ord.lines, p);
      if found.Some? {
        if ord.contract.Some? {
          LineReleaseIsExact(db, o, found.value);
          assert LimitsOk(db.contracts[ord.contract.value].items);
          ReleaseCounts(db.contracts, ord.contract.value, [(p, ord.lines[found.value].quantity)]);
        }
        var out := RemoveProduct(db, o, p, requester);
        if out.Success? {
          assert RemovesFrom(ord, out.value.orders[o], p, found.value);
        }
      }
    }
  }

  lemma {:induction false} ProductRemoved(db: Db, o: OrderId, p: ProductId, requester: Option<UserId>)
    requires QuotaInv(db)
    ensures RemovesProduct(db, o, p, requester, OrderOutcome(db, RemoveLine(o, p, requester)))
  {
    ProductRemovedSpec(db, o, p, requester);
  }

  // ---- Couriers ----

  /** An order with a new status and the audit row for it. */
  function Logged(ord: Order, target: OrderStatus): Order {
    ord.(status := target, history := ord.history + [OrderLog(Some(ord.status), target)])
  }

  /** A delivery order is assigned while NEW or ASSIGNED, to a courier who has a van. */
  lemma {:induction false} CourierAssigned(db: Db, o: OrderId, courier: UserId, isCourier: bool)
    ensures var out := OrderOutcome(db, AssignTo(o, courier, isCourier));
            && (out.Success? <==>
                  && o < |db.orders| && db.orders[o].saleType == Delivery && db.orders[o].status in {New, Assigned} && isCourier
                  && (exists i :: 0 <= i < |db.stock.inventories| && db.stock.inventories[i] == Holding(courier, Courier)))
            && (out.Success? ==>
                  out.value == db.(orders := db.orders[o := Logged(db.orders[o], Assigned).(courier := Some(courier))]))
  {
  }

  // ---- Status changes ----

  /** The status changes staff, couriers and clients may make. */
  const DELIVERY_MOVES: set<(OrderStatus, OrderStatus)> :=
    {(New, Cancelled), (Assigned, InTransit), (Assigned, Cancelled), (InTransit, Arrived), (InTransit, Cancelled),
     (Arrived, Delivered), (Arrived, Cancelled)}

  const PICKUP_MOVES: set<(OrderStatus, OrderStatus)> := {(New, Cancelled)}

  predicate MayMove(ord: Order, target: OrderStatus) {
    || target == ord.status
    || (ord.status, target) in (match ord.saleType case Delivery => DELIVERY_MOVES case WarehousePickup => PICKUP_MOVES)
  }

  lemma {:induction false} MovesAreThese(ord: Order, target: OrderStatus)
    ensures CheckTransition(ord, target).Success? <==> MayMove(ord, target)
  {
    match ord.status
    case New =>
    case Assigned =>
    case InTransit =>
    case Arrived =>
    case Delivered =>
    case PickupCompleted =>
    case Cancelled =>
  }

  /** The client, the courier of the order, or staff. */
  predicate MayAct(ord: Order, requester: Option<UserId>) {
    requester.None? || requester.value == ord.client || ord.courier == requester
  }

  /** One order called off: status, log and flag, and its quota back in the contract. */
  ghost predicate CallsOffOne(db: Db, db': Db, o: OrderId) {
    && o < |db.orders| && Rewrites(db, db', o, CalledOff(db.orders[o]))
    && (if db.orders[o].contract.Some?
        then Counts(db.contracts, db'.contracts, db.orders[o].contract.value, Returned(Quantities(db.orders[o].lines)))
        else db'.contracts == db.contracts)
  }

  lemma {:induction false} OneCalledOff(db: Db, o: OrderId)
    requires QuotaInv(db) && o < |db.orders| && db.orders[o].status != Cancelled
    ensures CancelOrder(db, o).Success? && CallsOffOne(db, CancelOrder(db, o).value, o)
  {
    var ord := db.orders[o];
    assert OrderOk(ord, db.contracts);
    CancelKeepsQuota(db, o);
    if ord.contract.Some? {
      OrderReleaseIsExact(db, o);
      assert LimitsOk(db.contracts[ord.contract.value].items);
      ReleaseCounts(db.contracts, ord.contract.value, Quantities(ord.lines));
    }
  }

  /**
    A status change that completes nothing: it commits exactly along the table, for someone who may
    act. Cancelling returns the quota; any other change, staying put included, writes status and log only.
   */
  lemma {:induction false} StatusChanged(
    db: Db, o: OrderId, target: OrderStatus, actual: Cart, requester: Option<UserId>, catalog: Catalog, now: int)
    requires QuotaInv(db) && (target == Delivered ==> o < |db.orders| && db.orders[o].status == Delivered)
    ensures var out := OrderOutcome(db, ChangeStatus(o, target, actual, requester, catalog, now));
            && (out.Success? <==> o < |db.orders| && MayAct(db.orders[o], requester) && MayMove(db.orders[o], target))
            && (out.Success? ==>
                  if target == Cancelled && db.orders[o].status != Cancelled then CallsOffOne(db, out.value, o)
                  else out.value == db.(orders := db.orders[o := Logged(db.orders[o], target)]))
  {
    if o < |db.orders| {
      MovesAreThese(db.orders[o], target);
      if db.orders[o].status != Cancelled {
        OneCalledOff(db, o);
      }
    }
  }

  // ---- Stale orders ----

  /** The orders of `ids` that had the given status are called off; all others are untouched. */
  ghost predicate CallsOffStale(orders: seq<Order>, orders': seq<Order>, ids: seq<OrderId>, status: OrderStatus) {
    && |orders'| == |orders|
    && (forall o: OrderId :: o < |orders| ==>
          orders'[o] == if o in ids && orders[o].status == status then CalledOff(orders[o]) else orders[o])
  }

  lemma {:induction false} StaleCalledOff(db: Db, ids: seq<OrderId>, status: OrderStatus)
    requires QuotaInv(db) && status != Cancelled
    ensures var out := CancelStale(db, ids, status);
            && out.Success? && QuotaInv(out.value) && out.value == db.(orders := out.value.orders, contracts := out.value.contracts)
            && CallsOffStale(db.orders, out.value.orders, ids, status)
  {
    CancelStaleKeepsQuota(db, ids, status);
    if ids != [] {
      var front, o := Front(ids), Last(ids);
      StaleCalledOff(db, front, status);
      var before := CancelStale(db, front, status).value;
      if o < |before.orders| && before.orders[o].status == status {
        OneCalledOff(before, o);
      }
      FrontAndLast(ids);
      assert forall x: OrderId :: x in ids <==> x in front || x == o;
    }
  }

  /** The job calls off exactly the listed NEW orders and the listed ASSIGNED orders, and always commits. */
  lemma {:induction false} StaleDropped(db: Db, staleNew: seq<OrderId>, staleAssigned: seq<OrderId>)
    requires QuotaInv(db)
    ensures var out := OrderOutcome(db, DropStale(staleNew, staleAssigned));
            && out.Success? && out.value.stock == db.stock && out.value.money == db.money
            && |out.value.orders| == |db.orders|
            && (forall o: OrderId :: o < |db.orders| ==>
                  out.value.orders[o] ==
                  if (o in staleNew && db.orders[o].status == New) || (o in staleAssigned && db.orders[o].status == Assigned)
                  then CalledOff(db.orders[o]) else db.orders[o])
  {
    StaleCalledOff(db, staleNew, New);
    StaleCalledOff(CancelStale(db, staleNew, New).value, staleAssigned, Assigned);
  }
}
