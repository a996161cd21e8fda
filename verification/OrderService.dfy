/** The order service as it works: step by step on a session, loop by loop over the lines. */
module OrderService {
  import opened Base
  import opened Tally
  import opened Quotas
  import opened StockLedger
  import opened MoneyLedger
  import opened Database
  import opened Tara
  import opened OrderSteps
  import opened UnitOfWork

  // ---- Loops that only compute ----

  /** Lines with their frozen prices, and the total accumulated on the way. */
  method PriceLines(catalog: Catalog, terms: Option<PriceList>, cart: Cart) returns (lines: seq<Line>, total: int)
    requires Priced(catalog, terms, cart)
    ensures lines == LinesOf(catalog, terms, cart)
    ensures total == LinesValue(lines)
  {
    lines, total := [], 0;
    for n := 0 to |cart|
      invariant lines == LinesOf(catalog, terms, cart)[..n]
      invariant total == LinesValue(lines)
    {
      var (p, quantity) := cart[n];
      var price := PriceOf(catalog, terms, p);
      ghost var before := lines;
      total := total + price * quantity;
      lines := lines + [Line(p, quantity, price)];
      assert Front(lines) == before;
    }
  }

  /** The products that the cart asks for and the contract lacks. */
  method CheckListed(items: PriceList, cart: Cart) returns (r: Result<()>)
    ensures r == if Listed(items, cart) then Success(()) else Failure(ProductNotInContract)
  {
    for n := 0 to |cart|
      invariant Listed(items, cart[..n])
    {
      if cart[n].0 !in items {
        return Failure(ProductNotInContract);
      }
    }
    return Success(());
  }

  /** The container shortages, line by line. */
  method FindShortages(s: Stock, address: InventoryId, cart: Cart, exchange: seq<(ProductId, int)>)
    returns (shortages: seq<(ProductId, int)>)
    ensures shortages == Deficits(s, address, cart, exchange)
  {
    shortages := [];
    for n := 0 to |exchange|
      invariant shortages == Deficits(s, address, cart, exchange[..n])
    {
      var (tare, required) := exchange[n];
      assert Front(exchange[..n + 1]) == exchange[..n];
      var effective := Balance(s, address, tare) + LastQuantity(cart, tare);
      if effective < required {
        shortages := shortages + [(tare, required - effective)];
      }
    }
    assert exchange[..|exchange|] == exchange;
  }

  /** _build_returnable_items: `returnable_map` filled line by line. */
  method BuildReturnableItems(catalog: Catalog, lines: seq<Line>) returns (returnables: seq<(ProductId, int)>)
    ensures returnables == ReturnableItems(catalog, lines)
  {
    returnables := [];
    for n := 0 to |lines|
      invariant returnables == ReturnableItems(catalog, lines[..n])
    {
      var line := lines[n];
      var tare := Returnable(catalog, line.product);
      ghost var pairs := Paired(catalog, lines[..n]);
      assert Front(lines[..n + 1]) == lines[..n];
      if tare.Some? && line.quantity > 0 {
        returnables := Bump(returnables, tare.value, line.quantity);
        assert Front(pairs + [(tare.value, line.quantity)]) == pairs;
      } else {
        assert pairs + [] == pairs;
      }
    }
    assert lines[..|lines|] == lines;
  }

  /** Some position asks for `lack` more of `p` than the inventory holds. */
  ghost predicate LackOf(s: Stock, i: InventoryId, items: seq<(ProductId, int)>, p: ProductId, lack: int) {
    exists n :: 0 <= n < |items| && items[n].0 == p && lack == items[n].1 - Balance(s, i, p)
  }

  /** The stock check before a delivery or a pickup: what each short product lacks. */
  method CheckStock(s: Stock, i: InventoryId, lines: seq<Line>) returns (shortages: map<ProductId, int>)
    ensures shortages != map[] <==> Short(s, i, lines)
    ensures forall p :: p in shortages <==>
              exists n :: 0 <= n < |lines| && lines[n].product == p && Balance(s, i, p) < lines[n].quantity
    ensures forall p :: p in shortages ==> shortages[p] > 0 && LackOf(s, i, Quantities(lines), p, shortages[p])
  {
    shortages := map[];
    for n := 0 to |lines|
      invariant forall p :: p in shortages <==>
                  exists m :: 0 <= m < n && lines[m].product == p && Balance(s, i, p) < lines[m].quantity
      invariant forall p :: p in shortages ==> shortages[p] > 0 && LackOf(s, i, Quantities(lines), p, shortages[p])
    {
      var available := Balance(s, i, lines[n].product);
      if available < lines[n].quantity {
        shortages := shortages[lines[n].product := lines[n].quantity - available];
        assert Quantities(lines)[n] == (lines[n].product, lines[n].quantity);
      }
    }
    if Short(s, i, lines) {
      var n :| 0 <= n < |lines| && Balance(s, i, lines[n].product) < lines[n].quantity;
      assert lines[n].product in shortages;
    }
    if shortages != map[] {
      var p :| p in shortages;
    }
  }

  /** The lines as delivered, their new total, and the quota they no longer need. */
  method ReadDelivery(lines: seq<Line>, actual: Cart) returns (r: Result<(seq<Line>, int, Deltas)>)
    ensures match DeliveredLines(lines, actual)
            case Success(delivered) =>
              |delivered| == |lines| && r == Success((delivered, LinesValue(delivered), Undelivered(lines, delivered)))
            case Failure(e) => r == Failure(e)
  {
    var delivered, total, deltas := [], 0, [];
    for n := 0 to |lines|
      invariant |delivered| == n
      invariant DeliveredLines(lines[..n], actual) == Success(delivered)
      invariant total == LinesValue(delivered)
      invariant deltas == Undelivered(lines[..n], delivered)
    {
      var line, report := lines[n], Reported(actual, lines[n].product);
      assert lines[..n + 1] == lines[..n] + [line];
      if report.Some? {
        if report.value < 0 || report.value > line.quantity {
          RefusedLine(lines[..n], line, actual);
          DeliveryStops(lines, actual, n + 1);
          return Failure(DeliveryQuantityExceeded);
        }
        if report.value == 0 {
          RefusedLine(lines[..n], line, actual);
          DeliveryStops(lines, actual, n + 1);
          return Failure(DbIntegrity);
        }
        var diff := line.quantity - report.value;
        if diff > 0 {
          deltas := deltas + [(line.product, diff)];
        }
        line := line.(quantity := report.value);
      }
      OneMoreLine(lines[..n], lines[n], actual, delivered, line);
      OneMoreDelta(lines[..n], lines[n], delivered, line);
      delivered := delivered + [line];
      total := total + line.unitPrice * line.quantity;
    }
    assert lines[..|lines|] == lines;
    return Success((delivered, total, deltas));
  }

  predicate Acceptable(line: Line, report: Option<int>) {
    report.Some? ==> 0 < report.value <= line.quantity
  }

  lemma {:induction false} OneMoreLine(lines: seq<Line>, line: Line, actual: Cart, delivered: seq<Line>, next: Line)
    requires DeliveredLines(lines, actual) == Success(delivered) && |delivered| == |lines|
    requires Acceptable(line, Reported(actual, line.product))
    requires next == if Reported(actual, line.product).None? then line
                     else line.(quantity := Reported(actual, line.product).value)
    ensures DeliveredLines(lines + [line], actual) == Success(delivered + [next])
    ensures LinesValue(delivered + [next]) == LinesValue(delivered) + next.unitPrice * next.quantity
  {
    assert Front(lines + [line]) == lines && Front(delivered + [next]) == delivered;
  }

  lemma {:induction false} OneMoreDelta(lines: seq<Line>, line: Line, delivered: seq<Line>, next: Line)
    requires |delivered| == |lines|
    ensures var deltas := Undelivered(lines, delivered);
            Undelivered(lines + [line], delivered + [next]) ==
            if line.quantity > next.quantity then deltas + [(line.product, line.quantity - next.quantity)] else deltas
  {
    assert Front(lines + [line]) == lines && Front(delivered + [next]) == delivered;
  }

  lemma {:induction false} RefusedLine(lines: seq<Line>, line: Line, actual: Cart)
    requires DeliveredLines(lines, actual).Success? && !Acceptable(line, Reported(actual, line.product))
    ensures DeliveredLines(lines + [line], actual) ==
            Failure(if Reported(actual, line.product).value == 0 && line.quantity >= 0 then DbIntegrity else DeliveryQuantityExceeded)
  {
    assert Front(lines + [line]) == lines;
  }

  lemma {:induction false} DeliveryStops(lines: seq<Line>, actual: Cart, n: nat)
    requires n <= |lines| && DeliveredLines(lines[..n], actual).Failure?
    ensures DeliveredLines(lines, actual) == DeliveredLines(lines[..n], actual)
  {
    if n == |lines| {
      assert lines[..n] == lines;
    } else {
      assert Front(lines)[..n] == lines[..n];
      DeliveryStops(Front(lines), actual, n);
    }
  }

  // ---- Checkout ----

  /** _check_and_reserve_quantities: every position is checked before any is reserved. */
  method CheckAndReserve(uow: UnitOfWork, c: ContractId, cart: Cart) returns (r: Result<()>)
    requires c < |uow.contracts| && Listed(uow.contracts[c].items, cart)
    modifies uow`contracts
    ensures uow.Follows(ReserveFor(old(uow.View()), c, cart), r)
  {
    var items := uow.contracts[c].items;
    var increments := [];
    for n := 0 to |cart|
      invariant increments == cart[..n]
      invariant forall i :: 0 <= i < n ==> Fits(items[cart[i].0], cart[i].1)
    {
      var item := items[cart[n].0];
      if item.quantity != 0 {
        var available := item.quantity - item.used;
        if cart[n].1 > available {
          assert !Fits(items[cart[n].0], cart[n].1);
          return Failure(QuantityLimitExceeded);
        }
      }
      increments := increments + [cart[n]];
    }
    assert increments == cart;
    r := uow.IncrementQuantitiesUsed(c, increments);
  }

  /** The container block shared by checkout and warehouse sale. */
  method CoverContainers(
    uow: UnitOfWork, address: InventoryId, cart: Cart, exchange: seq<(ProductId, int)>, capitalise: bool, now: int)
    returns (r: Result<bool>)
    modifies uow`stock
    ensures match CoverTara(old(uow.stock), address, cart, exchange, capitalise, now)
            case Success((stock, credited)) => r == Success(credited) && uow.stock == stock
            case Failure(e) => r == Failure(e)
  {
    var shortages := FindShortages(uow.stock, address, cart, exchange);
    if shortages == [] {
      return Success(false);
    }
    if !capitalise {
      return Failure(InsufficientTara);
    }
    var _ :- CreateStockTransfer(uow, Document(uow.stock.vendor, address, InitialBalance, None, now), shortages);
    return Success(true);
  }

  /** _create_stock_transfer. */
  method CreateStockTransfer(uow: UnitOfWork, d: Document, items: seq<(ProductId, int)>) returns (r: Result<()>)
    modifies uow`stock
    ensures match StockTransfer(old(uow.stock), d, items)
            case Success(s) => r == Success(()) && uow.stock == s
            case Failure(e) => r == Failure(e)
  {
    r := uow.AddDocument(d, Positive(items));
  }

  /** create_order. */
  method CreateOrder(uow: UnitOfWork, req: Checkout, catalog: Catalog, today: int, now: int) returns (r: Result<()>)
    modifies uow`orders, uow`contracts, uow`stock
    ensures uow.Follows(OrderSteps.CreateOrder(old(uow.View()), req, catalog, today, now), r)
  {
    var _ :- CheckCart(catalog, req.cart, false);
    var contract: Option<ContractId>, terms: Option<PriceList> := None, None;
    if req.payment == ByContract {
      var c :- PayingContract(uow.contracts, req.client, req.b2b, today);
      var _ :- CheckListed(uow.contracts[c].items, req.cart);
      contract, terms := Some(c), Some(uow.contracts[c].items);
    }
    var lines, total := PriceLines(catalog, terms, req.cart);
    if contract.Some? {
      var _ :- CheckAndReserve(uow, contract.value, req.cart);
    }
    var exchange, credited := Exchange(catalog, req.cart), false;
    if exchange != [] {
      if !Exists(uow.stock, req.address) {
        return Failure(ClientInventoryNotFound);
      }
      credited :- CoverContainers(uow, req.address, req.cart, exchange, req.capitalise, now);
    }
    r := uow.AddOrder(NewOrder(req, lines, contract, credited, now).(total := total));
  }

  // ---- Editing a NEW order ----

  /** add_product_to_order. */
  method AddProduct(
    uow: UnitOfWork, o: OrderId, p: ProductId, quantity: int, requester: Option<UserId>, catalog: Catalog)
    returns (r: Result<()>)
    modifies uow`orders, uow`contracts
    ensures uow.Follows(OrderSteps.AddProduct(old(uow.View()), o, p, quantity, requester, catalog), r)
  {
    if quantity <= 0 { return Failure(ValidationError); }
    if !OnSale(catalog, p) { return Failure(ProductsUnavailable); }
    if o >= |uow.orders| { return Failure(OrderNotFound); }
    var ord := uow.orders[o];
    if !MayEdit(ord, requester) { return Failure(OrderAccessDenied); }
    if ord.status != New { return Failure(InvalidOrderStatus); }
    var price, reserved := catalog[p].price, ord.reserved;
    if OnContract(ord) {
      var c := ord.contract.value;
      if c >= |uow.contracts| { return Failure(ContractRequired); }
      if uow.contracts[c].status != Active { return Failure(ContractNotActive); }
      if p !in uow.contracts[c].items { return Failure(ProductNotInContract); }
      price, reserved := uow.contracts[c].items[p].price, true;
      var _ :- CheckAndReserve(uow, c, [(p, quantity)]);
    }
    var lines := AddToLines(ord.lines, p, quantity, price);
    if !LinesAllowed(lines) { return Failure(DbIntegrity); }
    uow.orders := uow.orders[o := ord.(lines := lines, total := ord.total + price * quantity, reserved := reserved)];
    return Success(());
  }

  /** remove_product_from_order. */
  method RemoveProduct(uow: UnitOfWork, o: OrderId, p: ProductId, requester: Option<UserId>) returns (r: Result<()>)
    modifies uow`orders, uow`contracts
    ensures uow.Follows(OrderSteps.RemoveProduct(old(uow.View()), o, p, requester), r)
  {
    if o >= |uow.orders| { return Failure(OrderNotFound); }
    var ord := uow.orders[o];
    if !MayEdit(ord, requester) { return Failure(OrderAccessDenied); }
    if ord.status != New { return Failure(InvalidOrderStatus); }
    var found := FindLine(ord.lines, p);
    if found.None? { return Success(()); }
    if |ord.lines| <= 1 { return Failure(CannotRemoveLastItem); }
    var line := ord.lines[found.value];
    var lines := ord.lines[..found.value] + ord.lines[found.value + 1..];
    var total := Max(0, ord.total - line.unitPrice * line.quantity);
    if OnContract(ord) && ord.reserved {
      var _ :- uow.DecrementQuantitiesUsed(ord.contract.value, [(p, line.quantity)]);
    }
    uow.orders := uow.orders[o := ord.(lines := lines, total := total)];
    return Success(());
  }

  /** assign_courier. */
  method AssignCourier(uow: UnitOfWork, o: OrderId, courier: UserId, isCourier: bool) returns (r: Result<()>)
    modifies uow`orders
    ensures uow.Follows(OrderSteps.AssignCourier(old(uow.View()), o, courier, isCourier), r)
  {
    if o >= |uow.orders| { return Failure(OrderNotFound); }
    var ord := uow.orders[o];
    if ord.saleType == WarehousePickup { return Failure(InvalidPickupOperation); }
    if ord.status != New && ord.status != Assigned { return Failure(CourierAssignment); }
    if !isCourier || Find(uow.stock.inventories, courier, Courier).None? { return Failure(CourierAssignment); }
    uow.orders := uow.orders[o := ord.(courier := Some(courier))];
    uow.SetStatus(o, Assigned);
    return Success(());
  }

  // ---- Status changes ----

  /** _release_order_quantities: the quota goes back, then the flag is cleared. */
  method ReleaseOrderQuantities(uow: UnitOfWork, o: OrderId) returns (r: Result<()>)
    requires o < |uow.orders| && uow.orders[o].contract.Some?
    modifies uow`orders, uow`contracts
    ensures match ReleaseQuota(old(uow.contracts), old(uow.orders)[o].contract.value, Quantities(old(uow.orders)[o].lines))
            case Success(released) =>
              && r == Success(()) && uow.contracts == released
              && uow.orders == old(uow.orders)[o := old(uow.orders)[o].(reserved := false)]
            case Failure(e) => r == Failure(e)
  {
    var ord := uow.orders[o];
    if ord.lines != [] {
      var _ :- uow.DecrementQuantitiesUsed(ord.contract.value, Quantities(ord.lines));
    }
    uow.orders := uow.orders[o := ord.(reserved := false)];
    return Success(());
  }

  /** The cancellation of one order, from update_status and from expire_stale_orders. */
  method CancelOne(uow: UnitOfWork, o: OrderId) returns (r: Result<()>)
    requires o < |uow.orders|
    modifies uow`orders, uow`contracts
    ensures uow.Follows(CancelOrder(old(uow.View()), o), r)
  {
    var ord := uow.orders[o];
    uow.SetStatus(o, Cancelled);
    if OnContract(ord) && ord.reserved {
      r := ReleaseOrderQuantities(uow, o);
      assert uow.orders == old(uow.orders)[o := WithStatus(ord, Cancelled).(reserved := false)] || r.Failure?;
    } else {
      r := Success(());
    }
  }

  /** update_status. */
  method UpdateStatus(
    uow: UnitOfWork, o: OrderId, target: OrderStatus, actual: Cart, requester: Option<UserId>, catalog: Catalog, now: int)
    returns (r: Result<()>)
    modifies uow`orders, uow`contracts, uow`stock, uow`money
    ensures uow.Follows(OrderSteps.UpdateStatus(old(uow.View()), o, target, actual, requester, catalog, now), r)
  {
    if o >= |uow.orders| { return Failure(OrderNotFound); }
    var ord := uow.orders[o];
    if requester.Some? && requester != ord.courier && requester.value != ord.client { return Failure(OrderAccessDenied); }
    var _ :- CheckTransition(ord, target);
    if ord.status != Delivered && target == Delivered {
      uow.SetStatus(o, target);
      r := HandleFulfilment(uow, o, actual, catalog, now);
    } else if ord.status != Cancelled && target == Cancelled && !Settled(ord.status) {
      r := CancelOne(uow, o);
    } else {
      uow.SetStatus(o, target);
      r := Success(());
    }
  }

  /** expire_stale_orders, for one batch. */
  method CancelBatch(uow: UnitOfWork, stale: seq<OrderId>, status: OrderStatus) returns (r: Result<()>)
    modifies uow`orders, uow`contracts
    ensures uow.Follows(CancelStale(old(uow.View()), stale, status), r)
  {
    ghost var before := uow.View();
    for n := 0 to |stale|
      invariant CancelStale(before, stale[..n], status) == Success(uow.View())
    {
      var o := stale[n];
      assert Front(stale[..n + 1]) == stale[..n];
      if o < |uow.orders| && uow.orders[o].status == status {
        var cancelled := CancelOne(uow, o);
        if cancelled.Failure? {
          StaleStops(before, stale, status, n + 1);
          return cancelled;
        }
      }
    }
    assert stale[..|stale|] == stale;
    return Success(());
  }

  lemma {:induction false} StaleStops(db: Db, stale: seq<OrderId>, status: OrderStatus, n: nat)
    requires n <= |stale| && CancelStale(db, stale[..n], status).Failure?
    ensures CancelStale(db, stale, status) == CancelStale(db, stale[..n], status)
  {
    if n == |stale| {
      assert stale[..n] == stale;
    } else {
      assert Front(stale)[..n] == stale[..n];
      StaleStops(db, Front(stale), status, n);
    }
  }

  method ExpireStaleOrders(uow: UnitOfWork, staleNew: seq<OrderId>, staleAssigned: seq<OrderId>) returns (r: Result<()>)
    modifies uow`orders, uow`contracts
    ensures uow.Follows(ExpireStale(old(uow.View()), staleNew, staleAssigned), r)
  {
    var _ :- CancelBatch(uow, staleNew, New);
    r := CancelBatch(uow, staleAssigned, Assigned);
  }

  // ---- Delivery ----

  /** The correction of an order to what was handed over. */
  method CorrectOrder(uow: UnitOfWork, o: OrderId, actual: Cart) returns (r: Result<()>)
    requires o < |uow.orders|
    modifies uow`orders, uow`contracts
    ensures uow.Follows(AdjustDelivery(old(uow.View()), o, actual), r)
  {
    if actual == [] { return Success(()); }
    var ord := uow.orders[o];
    var delivery :- ReadDelivery(ord.lines, actual);
    var (lines, total, deltas) := delivery;
    if deltas != [] && OnContract(ord) {
      var _ :- uow.DecrementQuantitiesUsed(ord.contract.value, deltas);
    }
    uow.orders := uow.orders[o := ord.(lines := lines, total := total)];
    return Success(());
  }

  /** Both documents of a delivery. */
  method ShipDelivery(
    uow: UnitOfWork, courier: InventoryId, client: InventoryId, lines: seq<Line>, catalog: Catalog, o: OrderId, now: int)
    returns (r: Result<()>)
    modifies uow`stock
    ensures match DeliverStock(old(uow.stock), courier, client, lines, catalog, o, now)
            case Success(s) => r == Success(()) && uow.stock == s
            case Failure(e) => r == Failure(e)
  {
    var tare := BuildReturnableItems(catalog, lines);
    var _ :- CreateStockTransfer(uow, Document(courier, client, ClientDelivery, Some(o), now), Quantities(lines) + tare);
    if tare != [] {
      var _ :- CreateStockTransfer(uow, Document(client, courier, ClientReturn, Some(o), now), tare);
    }
    return Success(());
  }

  /** _handle_order_fulfillment. */
  method HandleFulfilment(uow: UnitOfWork, o: OrderId, actual: Cart, catalog: Catalog, now: int) returns (r: Result<()>)
    requires o < |uow.orders|
    modifies uow`orders, uow`contracts, uow`stock, uow`money
    ensures uow.Follows(Fulfil(old(uow.View()), o, actual, catalog, now), r)
  {
    if uow.orders[o].courier.None? { return Failure(CourierNotAssigned); }
    var _ :- CorrectOrder(uow, o, actual);
    var ord := uow.orders[o];
    var courier := Find(uow.stock.inventories, ord.courier.value, Courier);
    if courier.None? { return Failure(CourierInventoryNotFound); }
    var shortages := CheckStock(uow.stock, courier.value, ord.lines);
    if shortages != map[] { return Failure(Error.InsufficientStock); }
    var _ :- ShipDelivery(uow, courier.value, ord.clientInventory, ord.lines, catalog, o, now);
    var _ :- SettleOrder(uow, ord, o);
    return Success(());
  }

  /** _process_financial_settlement and _process_pickup_settlement. */
  method SettleOrder(uow: UnitOfWork, ord: Order, o: OrderId) returns (r: Result<()>)
    modifies uow`money
    ensures match Settle(old(uow.money), ord, o)
            case Success(m) => r == Success(()) && uow.money == m
            case Failure(e) => r == Failure(e)
  {
    var accounts := uow.money.accounts;
    var client, revenue := Find(accounts, ord.client, ClientAccount), Find(accounts, SYSTEM_USER, Revenue);
    if client.None? || revenue.None? { return Failure(Error.AccountNotFound); }
    var rows := [Txn(revenue.value, client.value, ord.total, Some(o), Completed, OrderCharge)];
    if ord.payment == Cash && (ord.saleType == WarehousePickup || ord.courier.Some?) {
      var target := if ord.saleType == Delivery then Find(accounts, ord.courier.value, CourierAccount)
                    else Find(accounts, SYSTEM_USER, CashDesk);
      if target.None? { return Failure(Error.AccountNotFound); }
      rows := rows + [Txn(client.value, target.value, ord.total, Some(o), Completed, CashLeg)];
    } else if ord.payment == Card {
      var target := Find(accounts, SYSTEM_USER, CardDesk);
      if target.None? { return Failure(Error.AccountNotFound); }
      rows := rows + [Txn(client.value, target.value, ord.total, Some(o), Pending, CardLeg)];
    } else {
      assert rows + [] == rows;
    }
    r := uow.AddTxns(rows);
  }

  // ---- Warehouse pickup ----

  /** The documents of a pickup. */
  method ShipPickup(
    uow: UnitOfWork, w: InventoryId, client: InventoryId, lines: seq<Line>, walkin: bool,
    catalog: Catalog, o: OrderId, now: int) returns (r: Result<()>)
    modifies uow`stock
    ensures match PickupStock(old(uow.stock), w, client, lines, walkin, catalog, o, now)
            case Success(s) => r == Success(()) && uow.stock == s
            case Failure(e) => r == Failure(e)
  {
    var tare := BuildReturnableItems(catalog, lines);
    var handed := HandedOver(tare, lines, walkin);
    if tare != [] && !walkin {
      var _ :- CreateStockTransfer(uow, Document(uow.stock.vendor, w, InitialBalance, Some(o), now), tare);
    }
    var _ :- CreateStockTransfer(uow, Document(w, client, WarehouseSale, Some(o), now), Quantities(lines) + handed);
    if handed != [] {
      var _ :- CreateStockTransfer(uow, Document(client, w, WarehouseTaraReturn, Some(o), now), handed);
    }
    return Success(());
  }

  /** _handle_warehouse_pickup. */
  method HandlePickup(uow: UnitOfWork, o: OrderId, catalog: Catalog, now: int) returns (r: Result<()>)
    requires o < |uow.orders|
    modifies uow`stock, uow`money
    ensures uow.Follows(HandleWarehousePickup(old(uow.View()), o, catalog, now), r)
  {
    var ord := uow.orders[o];
    if ord.warehouse.None? { return Failure(WarehouseMissing); }
    var w := ord.warehouse.value;
    if !Exists(uow.stock, w) || uow.stock.inventories[w].kind != Warehouse { return Failure(Error.InventoryNotFound); }
    var shortages := CheckStock(uow.stock, w, ord.lines);
    if shortages != map[] { return Failure(Error.InsufficientStock); }
    var _ :- ShipPickup(uow, w, ord.clientInventory, ord.lines, ord.client == WALKIN_USER, catalog, o, now);
    var _ :- SettleOrder(uow, ord, o);
    return Success(());
  }

  /** complete_pickup. */
  method CompletePickup(uow: UnitOfWork, o: OrderId, catalog: Catalog, now: int) returns (r: Result<()>)
    modifies uow`orders, uow`stock, uow`money
    ensures uow.Follows(OrderSteps.CompletePickup(old(uow.View()), o, catalog, now), r)
  {
    if o >= |uow.orders| { return Failure(OrderNotFound); }
    if uow.orders[o].saleType != WarehousePickup || uow.orders[o].status != New {
      return Failure(InvalidPickupOperation);
    }
    uow.SetStatus(o, PickupCompleted);
    r := HandlePickup(uow, o, catalog, now);
  }

  /** The first half of create_warehouse_sale. */
  method OpenSaleOrder(
    uow: UnitOfWork, client: UserId, warehouse: InventoryId, cart: Cart, capitalise: bool, catalog: Catalog, now: int)
    returns (r: Result<()>)
    modifies uow`orders, uow`stock
    ensures uow.Follows(OpenSale(old(uow.View()), client, warehouse, cart, capitalise, catalog, now), r)
  {
    var _ :- CheckCart(catalog, cart, true);
    var lines, total := PriceLines(catalog, None, cart);
    if !Exists(uow.stock, warehouse) || uow.stock.inventories[warehouse].kind != Warehouse {
      return Failure(Error.InventoryNotFound);
    }
    var address := Find(uow.stock.inventories, client, Client);
    if address.None? { return Failure(ClientInventoryNotFound); }
    var exchange := if client == WALKIN_USER then [] else Exchange(catalog, cart);
    var credited :- CoverContainers(uow, address.value, cart, exchange, capitalise, now);
    r := uow.AddOrder(SaleOrder(client, address.value, warehouse, lines, credited, now).(total := total));
  }

  /** create_warehouse_sale. */
  method CreateWarehouseSale(
    uow: UnitOfWork, buyer: Option<UserId>, warehouse: InventoryId, cart: Cart, capitalise: bool, catalog: Catalog, now: int)
    returns (r: Result<()>)
    modifies uow`orders, uow`stock, uow`money
    ensures uow.Follows(OrderSteps.CreateWarehouseSale(old(uow.View()), buyer, warehouse, cart, capitalise, catalog, now), r)
  {
    var o := |uow.orders|;
    var _ :- OpenSaleOrder(uow, BuyerOf(buyer), warehouse, cart, capitalise, catalog, now);
    r := HandlePickup(uow, o, catalog, now);
  }
}
