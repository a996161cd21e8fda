/** The invariant every unit of work keeps, and what it means over whole runs. */
module RunInvariant {
  import opened Base
  import opened Tally
  import opened StockLedger
  import opened MoneyLedger
  import opened Database
  import opened Tara
  import opened OrderSteps
  import opened ContractSteps
  import opened MoneySteps
  import opened LineTotals
  import opened QuotaInvariant
  import opened StockFlows
  import opened MoneyInvariant
  import opened Lifecycle
  import opened OrderEvolution
  import opened Invoices
  import opened System
  import StockSteps

  /** Stock books in order, and every order ships to an existing inventory. */
  ghost predicate StockInv(orders: seq<Order>, s: Stock) {
    StockOk(s) && (forall o :: 0 <= o < |orders| ==> Exists(s, orders[o].clientInventory))
  }

  ghost predicate InvoicesInv(contracts: seq<Contract>) {
    forall c :: 0 <= c < |contracts| ==> InvoicesOk(contracts[c].invoices)
  }

  ghost predicate PathsInv(db: Db) {
    OrderPaths(db.orders) && ContractPaths(db.contracts)
  }

  ghost predicate Inv(db: Db) {
    && QuotaInv(db)
    && StockInv(db.orders, db.stock)
    && MoneyInv(db.orders, db.money)
    && PathsInv(db)
    && InvoicesInv(db.contracts)
  }

  // ---- Quotas ----

  lemma {:induction false} OrderWorkKeepsQuota(db: Db, cmd: OrderCommand)
    requires QuotaInv(db) && OrderOutcome(db, cmd).Success?
    ensures QuotaInv(OrderOutcome(db, cmd).value)
  {
    match cmd
    case PlaceOrder(req, catalog, today, now) => CreateOrderKeepsQuota(db, req, catalog, today, now);
    case SellAtWarehouse(buyer, w, cart, cap, catalog, now) => SaleKeepsQuota(db, buyer, w, cart, cap, catalog, now);
    case FinishPickup(o, catalog, now) => CompletePickupKeepsQuota(db, o, catalog, now);
    case AddLine(o, p, q, requester, catalog) => AddProductKeepsQuota(db, o, p, q, requester, catalog);
    case RemoveLine(o, p, requester) => RemoveProductKeepsQuota(db, o, p, requester);
    case AssignTo(o, courier, isCourier) => AssignKeepsQuota(db, o, courier, isCourier);
    case ChangeStatus(o, target, actual, requester, catalog, now) =>
      UpdateStatusKeepsQuota(db, o, target, actual, requester, catalog, now);
    case DropStale(staleNew, staleAssigned) =>
      CancelStaleKeepsQuota(db, staleNew, New);
      CancelStaleKeepsQuota(CancelStale(db, staleNew, New).value, staleAssigned, Assigned);
  }

  lemma {:induction false} ContractWorkKeepsQuota(db: Db, cmd: ContractCommand)
    requires QuotaInv(db) && ContractOutcome(db, cmd).Success?
    ensures QuotaInv(ContractOutcome(db, cmd).value)
  {
    match cmd
    case OpenContract(client, number, first, last, due) => CreateContractKeepsQuota(db, client, number, first, last, due);
    case Activate(c) => MakeActiveKeepsQuota(db, c, Draft);
    case Suspend(c) => StopKeepsQuota(db, c, {Active}, Suspended);
    case Reinstate(c) => MakeActiveKeepsQuota(db, c, Suspended);
    case Terminate(c) => StopKeepsQuota(db, c, {Active, Suspended}, Terminated);
    case ExpireDue(today) => ExpireKeepsQuota(db, |db.contracts|, today);
    case Amend(_, _, _) => TermsWorkKeepsQuota(db, cmd);
    case SetPrice(c, p, price, q) => PriceItemsKeepQuota(db, c, p, price, q);
    case RemovePrice(c, p) => PriceItemsKeepQuota(db, c, p, 0, 0);
    case Bill(_, _, _, _, _) => TermsWorkKeepsQuota(db, cmd);
    case ChangeInvoice(_, _, _) => TermsWorkKeepsQuota(db, cmd);
  }

  lemma {:induction false} TermsWorkKeepsQuota(db: Db, cmd: ContractCommand)
    requires QuotaInv(db) && ContractOutcome(db, cmd).Success? && (cmd.Amend? || cmd.Bill? || cmd.ChangeInvoice?)
    ensures QuotaInv(ContractOutcome(db, cmd).value)
  {
    TermsKeepQuota(db, ContractOutcome(db, cmd).value);
  }

  /** Stock and money work touch nothing but their own tables. */
  lemma {:induction false} StockWorkFrame(db: Db, cmd: StockCommand)
    requires StockOutcome(db, cmd).Success?
    ensures StockOutcome(db, cmd).value == db.(stock := StockOutcome(db, cmd).value.stock)
  {
    match cmd
    case MoveStock(req, catalog, now) =>
    case CreditTara(address, items, now) =>
    case CreditDeficit(client, address, cart, catalog, now) =>
    case OpenInventory(owner, kind) =>
  }

  lemma {:induction false} MoneyWorkFrame(db: Db, cmd: MoneyCommand)
    requires MoneyOutcome(db, cmd).Success?
    ensures MoneyOutcome(db, cmd).value == db.(money := MoneyOutcome(db, cmd).value.money)
  {
    match cmd
    case PostManually(from, to, amount, about) =>
    case TakePayment(client, amount, tender, about) =>
    case ResolvePending(n, verified) =>
    case OpenAccount(owner, kind) =>
  }

  lemma {:induction false} StepKeepsQuota(db: Db, cmd: Command)
    requires QuotaInv(db)
    ensures QuotaInv(Step(db, cmd))
  {
    match cmd
    case OrderWork(c) =>
      if OrderOutcome(db, c).Success? {
        OrderWorkKeepsQuota(db, c);
      }
    case ContractWork(c) =>
      if ContractOutcome(db, c).Success? {
        ContractWorkKeepsQuota(db, c);
      }
    case StockWork(c) =>
      if StockOutcome(db, c).Success? {
        StockWorkFrame(db, c);
      }
    case MoneyWork(c) =>
      if MoneyOutcome(db, c).Success? {
        MoneyWorkFrame(db, c);
      }
  }

  // ---- Stock, money, logs and invoices: order work ----

  /** Everything but the quotas, for one order step. */
  ghost predicate OrderStepOk(db: Db, db': Db) {
    && OrdersEvolve(db.orders, db'.orders)
    && OnlyCounters(db.contracts, db'.contracts)
    && StockInv(db'.orders, db'.stock) && db.stock.ledger <= db'.stock.ledger
    && MoneyInv(db'.orders, db'.money) && db.money.ledger <= db'.money.ledger && db'.money.accounts == db.money.accounts
  }

  lemma {:induction false} CalmStepOk(db: Db, db': Db)
    requires StockInv(db.orders, db.stock) && MoneyInv(db.orders, db.money) && CalmStep(db, db')
    ensures OrderStepOk(db, db')
  {
    OrdersKeepMoney(db.orders, db'.orders, db.money);
    forall o | 0 <= o < |db'.orders|
      ensures Exists(db'.stock, db'.orders[o].clientInventory)
    {
      assert Evolves(db.orders[o], db'.orders[o]);
    }
  }

  /** A step that completes one order. */
  lemma {:induction false} ClosingStepOk(db: Db, db': Db, o: OrderId)
    requires StockInv(db.orders, db.stock) && MoneyInv(db.orders, db.money)
    requires Closing(db.orders, db'.orders, o) && Settle(db.money, db'.orders[o], o) == Success(db'.money)
    requires OnlyCounters(db.contracts, db'.contracts)
    requires InOrder(db.stock, db'.stock) && Exists(db.stock, db'.orders[o].clientInventory)
    ensures OrderStepOk(db, db')
  {
    SettlingKeepsMoney(db.orders, db'.orders, db.money, o, db'.money);
    var _ := SettlementRows(db.money, db'.orders[o], o, db'.money);
    forall x | 0 <= x < |db'.orders|
      ensures Exists(db'.stock, db'.orders[x].clientInventory)
    {
      if x != o {
        assert db'.orders[x] == db.orders[x];
      }
    }
  }

  lemma {:induction false} DeficitsPositive(s: Stock, address: InventoryId, cart: Cart, exchange: seq<(ProductId, int)>)
    ensures AllPositive(Deficits(s, address, cart, exchange))
  {
    if exchange != [] {
      DeficitsPositive(s, address, cart, Front(exchange));
    }
  }

  /** Crediting containers to an address keeps the books. */
  lemma {:induction false} CoverTaraOk(
    s: Stock, address: InventoryId, cart: Cart, exchange: seq<(ProductId, int)>, capitalise: bool, now: int)
    requires StockOk(s) && CoverTara(s, address, cart, exchange, capitalise, now).Success?
    ensures InOrder(s, CoverTara(s, address, cart, exchange, capitalise, now).value.0)
  {
    var shortages := Deficits(s, address, cart, exchange);
    if shortages != [] {
      DeficitsPositive(s, address, cart, exchange);
      OneDocument(s, Document(s.vendor, address, InitialBalance, None, now), shortages);
    }
  }

  lemma {:induction false} PlaceOrderOk(db: Db, req: Checkout, catalog: Catalog, today: int, now: int)
    requires StockInv(db.orders, db.stock) && MoneyInv(db.orders, db.money)
    requires CreateOrder(db, req, catalog, today, now).Success?
    ensures OrderStepOk(db, CreateOrder(db, req, catalog, today, now).value)
  {
    var db' := CreateOrder(db, req, catalog, today, now).value;
    CreateOrderCalm(db, req, catalog, today, now);
    CheckoutTaraOk(db.stock, req, catalog, now);
    NewOrderOk(db, db');
  }

  lemma {:induction false} CheckoutTaraOk(s: Stock, req: Checkout, catalog: Catalog, now: int)
    requires StockOk(s) && CheckoutTara(s, req, catalog, now).Success?
    ensures InOrder(s, CheckoutTara(s, req, catalog, now).value.0)
  {
    var exchange := Exchange(catalog, req.cart);
    if exchange != [] {
      CoverTaraOk(s, req.address, req.cart, exchange, req.capitalise, now);
    }
  }

  lemma {:induction false} NewOrderOk(db: Db, db': Db)
    requires StockInv(db.orders, db.stock) && MoneyInv(db.orders, db.money) && InOrder(db.stock, db'.stock)
    requires Calm(db.orders, db'.orders) && |db'.orders| == |db.orders| + 1
    requires OnlyCounters(db.contracts, db'.contracts) && db'.money == db.money
    requires Exists(db'.stock, Last(db'.orders).clientInventory)
    ensures OrderStepOk(db, db')
  {
    OrdersKeepMoney(db.orders, db'.orders, db.money);
    forall o | 0 <= o < |db'.orders|
      ensures Exists(db'.stock, db'.orders[o].clientInventory)
    {
      if o < |db.orders| {
        assert Evolves(db.orders[o], db'.orders[o]);
      }
    }
  }

  lemma {:induction false} PickupHandlingOk(db: Db, o: OrderId, catalog: Catalog, now: int)
    requires o < |db.orders| && StockOk(db.stock) && LinesAllowed(db.orders[o].lines)
    requires Exists(db.stock, db.orders[o].clientInventory)
    requires HandleWarehousePickup(db, o, catalog, now).Success?
    ensures InOrder(db.stock, HandleWarehousePickup(db, o, catalog, now).value.stock)
  {
    var ord := db.orders[o];
    PickupFlow(db.stock, ord.warehouse.value, ord.clientInventory, ord.lines, ord.client == WALKIN_USER, catalog, o, now);
  }

  lemma {:induction false} SaleOk(
    db: Db, buyer: Option<UserId>, w: InventoryId, cart: Cart, capitalise: bool, catalog: Catalog, now: int)
    requires StockInv(db.orders, db.stock) && MoneyInv(db.orders, db.money)
    requires CreateWarehouseSale(db, buyer, w, cart, capitalise, catalog, now).Success?
    ensures OrderStepOk(db, CreateWarehouseSale(db, buyer, w, cart, capitalise, catalog, now).value)
  {
    var db' := CreateWarehouseSale(db, buyer, w, cart, capitalise, catalog, now).value;
    var db1 := SaleShape(db, buyer, w, cart, capitalise, catalog, now, db');
    OpenSaleOk(db, BuyerOf(buyer), w, cart, capitalise, catalog, now, db1);
    PickupHandlingOk(db1, |db.orders|, catalog, now);
    HandlingShape(db1, |db.orders|, catalog, now, db');
    SaleCloses(db, db1, catalog, now, db');
    ClosingStepOk(db, db', |db.orders|);
  }

  lemma {:induction false} OpenSaleOk(
    db: Db, client: UserId, w: InventoryId, cart: Cart, capitalise: bool, catalog: Catalog, now: int, db1: Db)
    requires StockOk(db.stock) && OpenSale(db, client, w, cart, capitalise, catalog, now) == Success(db1)
    ensures InOrder(db.stock, db1.stock) && db1.money == db.money && db1.contracts == db.contracts
    ensures db1.orders != [] && db1.orders == db.orders + [Last(db1.orders)]
    ensures var ord := Last(db1.orders);
            && Exists(db.stock, ord.clientInventory) && LinesAllowed(ord.lines)
            && ord.saleType == WarehousePickup && ord.status == PickupCompleted
            && ord.history == [OrderLog(None, PickupCompleted)]
  {
    OpenSaleShape(db, client, w, cart, capitalise, catalog, now, db1);
    var exchange := if client == WALKIN_USER then [] else Exchange(catalog, cart);
    CoverTaraOk(db.stock, Find(db.stock.inventories, client, Client).value, cart, exchange, capitalise, now);
  }

  lemma {:induction false} FinishPickupOk(db: Db, o: OrderId, catalog: Catalog, now: int)
    requires StockInv(db.orders, db.stock) && MoneyInv(db.orders, db.money) && OrdersOk(db.orders, db.contracts)
    requires CompletePickup(db, o, catalog, now).Success?
    ensures OrderStepOk(db, CompletePickup(db, o, catalog, now).value)
  {
    var db' := CompletePickup(db, o, catalog, now).value;
    PickupCloses(db, o, catalog, now);
    assert OrderOk(db.orders[o], db.contracts);
    FinishPickupStock(db, o, catalog, now);
    ClosingStepOk(db, db', o);
  }

  lemma {:induction false} FinishPickupStock(db: Db, o: OrderId, catalog: Catalog, now: int)
    requires CompletePickup(db, o, catalog, now).Success? && StockOk(db.stock)
    requires LinesAllowed(db.orders[o].lines) && Exists(db.stock, db.orders[o].clientInventory)
    ensures var db' := CompletePickup(db, o, catalog, now).value;
            InOrder(db.stock, db'.stock) && db'.contracts == db.contracts &&
            db'.orders == db.orders[o := WithStatus(db.orders[o], PickupCompleted)]
  {
    PickupHandlingOk(db.(orders := db.orders[o := WithStatus(db.orders[o], PickupCompleted)]), o, catalog, now);
  }

  /** The stock side of a fulfilment. */
  lemma {:induction false} FulfilStockOk(db: Db, o: OrderId, actual: Cart, catalog: Catalog, now: int)
    requires o < |db.orders| && StockOk(db.stock) && LinesAllowed(db.orders[o].lines)
    requires Exists(db.stock, db.orders[o].clientInventory)
    requires Fulfil(db, o, actual, catalog, now).Success?
    ensures InOrder(db.stock, Fulfil(db, o, actual, catalog, now).value.stock)
    ensures OnlyCounters(db.contracts, Fulfil(db, o, actual, catalog, now).value.contracts)
  {
    AdjustShape(db, o, actual);
    var db1 := AdjustDelivery(db, o, actual).value;
    var ord := db1.orders[o];
    var courier := Find(db1.stock.inventories, ord.courier.value, Courier).value;
    DeliveryFlow(db1.stock, courier, ord.clientInventory, ord.lines, catalog, o, now);
  }

  lemma {:induction false} AdjustShape(db: Db, o: OrderId, actual: Cart)
    requires o < |db.orders| && LinesAllowed(db.orders[o].lines) && AdjustDelivery(db, o, actual).Success?
    ensures var db1 := AdjustDelivery(db, o, actual).value;
            && |db1.orders| == |db.orders| && db1.stock == db.stock && db1.money == db.money
            && OnlyCounters(db.contracts, db1.contracts)
            && LinesAllowed(db1.orders[o].lines)
            && db1.orders[o].clientInventory == db.orders[o].clientInventory
  {
    if actual != [] {
      DeliveredShape(db.orders[o].lines, actual);
    }
  }

  lemma {:induction false} DeliveryOk(db: Db, o: OrderId, actual: Cart, requester: Option<UserId>, catalog: Catalog, now: int)
    requires StockInv(db.orders, db.stock) && MoneyInv(db.orders, db.money) && OrdersOk(db.orders, db.contracts)
    requires o < |db.orders| && db.orders[o].status != Delivered
    requires UpdateStatus(db, o, Delivered, actual, requester, catalog, now).Success?
    ensures OrderStepOk(db, UpdateStatus(db, o, Delivered, actual, requester, catalog, now).value)
  {
    var db' := UpdateStatus(db, o, Delivered, actual, requester, catalog, now).value;
    DeliveryCloses(db, o, actual, requester, catalog, now);
    assert OrderOk(db.orders[o], db.contracts) && Evolves(db.orders[o], db'.orders[o]);
    var moved := db.(orders := db.orders[o := WithStatus(db.orders[o], Delivered)]);
    FulfilStockOk(moved, o, actual, catalog, now);
    ClosingStepOk(db, db', o);
  }

  /** Status changes that are not deliveries. */
  lemma {:induction false} ChangeStatusCalm(
    db: Db, o: OrderId, target: OrderStatus, actual: Cart, requester: Option<UserId>, catalog: Catalog, now: int)
    requires OrderPaths(db.orders) && UpdateStatus(db, o, target, actual, requester, catalog, now).Success?
    requires target == Delivered ==> db.orders[o].status == Delivered
    ensures CalmStep(db, UpdateStatus(db, o, target, actual, requester, catalog, now).value)
  {
    var ord := db.orders[o];
    if ord.status != Cancelled && target == Cancelled && !Settled(ord.status) {
      assert OrderPath(ord);
      CancelCalm(db, o);
    } else {
      MoveCalm(db, o, target);
    }
  }

  lemma {:induction false} DropStaleCalm(db: Db, staleNew: seq<OrderId>, staleAssigned: seq<OrderId>)
    requires OrderPaths(db.orders) && ExpireStale(db, staleNew, staleAssigned).Success?
    ensures CalmStep(db, ExpireStale(db, staleNew, staleAssigned).value)
  {
    var db1, db' := CancelStale(db, staleNew, New).value, ExpireStale(db, staleNew, staleAssigned).value;
    CancelStaleCalm(db, staleNew, New);
    assert OrderPaths(db1.orders) by {
      assert forall o :: 0 <= o < |db.orders| ==> OrderPath(db.orders[o]) && Evolves(db.orders[o], db1.orders[o]);
    }
    CancelStaleCalm(db1, staleAssigned, Assigned);
    CalmTransitive(db.orders, db1.orders, db'.orders);
  }

  lemma {:induction false} OrderWorkOk(db: Db, cmd: OrderCommand)
    requires Inv(db) && OrderOutcome(db, cmd).Success?
    ensures OrderStepOk(db, OrderOutcome(db, cmd).value)
  {
    match cmd
    case PlaceOrder(req, catalog, today, now) => PlaceOrderOk(db, req, catalog, today, now);
    case SellAtWarehouse(buyer, w, cart, cap, catalog, now) => SaleOk(db, buyer, w, cart, cap, catalog, now);
    case FinishPickup(o, catalog, now) => FinishPickupOk(db, o, catalog, now);
    case AddLine(o, p, q, requester, catalog) =>
      AddLineCalm(db, o, p, q, requester, catalog);
      CalmStepOk(db, AddProduct(db, o, p, q, requester, catalog).value);
    case RemoveLine(o, p, requester) =>
      RemoveLineCalm(db, o, p, requester);
      CalmStepOk(db, RemoveProduct(db, o, p, requester).value);
    case AssignTo(o, courier, isCourier) =>
      AssignCalm(db, o, courier, isCourier);
      CalmStepOk(db, AssignCourier(db, o, courier, isCourier).value);
    case ChangeStatus(o, target, actual, requester, catalog, now) =>
      if target == Delivered && db.orders[o].status != Delivered {
        DeliveryOk(db, o, actual, requester, catalog, now);
      } else {
        ChangeStatusCalm(db, o, target, actual, requester, catalog, now);
        CalmStepOk(db, UpdateStatus(db, o, target, actual, requester, catalog, now).value);
      }
    case DropStale(staleNew, staleAssigned) =>
      DropStaleCalm(db, staleNew, staleAssigned);
      CalmStepOk(db, ExpireStale(db, staleNew, staleAssigned).value);
  }

  // ---- Logs and invoices: contract work ----

  /** Contract work cancels orders at most, and never reopens a closed contract. */
  ghost predicate ContractStepOk(db: Db, db': Db) {
    && Calm(db.orders, db'.orders) && |db'.orders| == |db.orders|
    && db'.stock == db.stock && db'.money == db.money
    && ContractPaths(db'.contracts) && KeepsClosed(db.contracts, db'.contracts)
    && InvoicesInv(db'.contracts)
  }

  ghost predicate ContractsOk(contracts: seq<Contract>) {
    ContractPaths(contracts) && InvoicesInv(contracts)
  }

  /** A change of terms, prices or invoices. */
  lemma {:induction false} TermsStepOk(db: Db, db': Db)
    requires ContractsOk(db.contracts) && InvoicesInv(db'.contracts)
    requires db' == db.(contracts := db'.contracts) && SameLogs(db.contracts, db'.contracts)
    ensures ContractStepOk(db, db')
  {
    EvolvesReflexive(db.orders);
    forall c | 0 <= c < |db'.contracts|
      ensures ContractPath(db'.contracts[c])
    {
      assert ContractPath(db.contracts[c]);
    }
  }

  lemma {:induction false} MovedStepOk(db: Db, c: ContractId, target: ContractStatus)
    requires c < |db.contracts| && ContractsOk(db.contracts) && ContractEdge(db.contracts[c].status, target)
    ensures ContractStepOk(db, Moved(db, c, target))
  {
    MovedPath(db, c, target);
    EvolvesReflexive(db.orders);
    var db' := Moved(db, c, target);
    forall d | 0 <= d < |db'.contracts|
      ensures InvoicesOk(db'.contracts[d].invoices)
    {
      assert InvoicesOk(db.contracts[d].invoices);
    }
  }

  lemma {:induction false} CancelInflightStepOk(db: Db, c: ContractId)
    requires OrderPaths(db.orders) && ContractsOk(db.contracts) && CancelInflight(db, c).Success?
    ensures ContractStepOk(db, CancelInflight(db, c).value)
    ensures OnlyCounters(db.contracts, CancelInflight(db, c).value.contracts)
  {
    var db' := CancelInflight(db, c).value;
    CancelledRowsCalm(db.orders, c);
    ReleaseOnlyCounters(db.contracts, c, Collect(ReleasedItems(db.orders, c)));
    forall d | 0 <= d < |db'.contracts|
      ensures ContractPath(db'.contracts[d]) && InvoicesOk(db'.contracts[d].invoices)
    {
      assert ContractPath(db.contracts[d]) && InvoicesOk(db.contracts[d].invoices);
    }
  }

  lemma {:induction false} ContractStepsCompose(a: Db, b: Db, c: Db)
    requires ContractStepOk(a, b) && ContractStepOk(b, c)
    ensures ContractStepOk(a, c)
  {
    CalmTransitive(a.orders, b.orders, c.orders);
  }

  lemma {:induction false} PathsAfter(db: Db, db': Db)
    requires OrderPaths(db.orders) && OrdersEvolve(db.orders, db'.orders)
    ensures OrderPaths(db'.orders)
  {
    forall o | 0 <= o < |db'.orders|
      ensures OrderPath(db'.orders[o])
    {
      if o < |db.orders| {
        assert Evolves(db.orders[o], db'.orders[o]) && OrderPath(db.orders[o]);
      }
    }
  }

  lemma {:induction false} StopStepOk(db: Db, c: ContractId, sources: set<ContractStatus>, target: ContractStatus)
    requires OrderPaths(db.orders) && ContractsOk(db.contracts) && Stop(db, c, sources, target).Success?
    requires forall source :: source in sources ==> ContractEdge(source, target)
    ensures ContractStepOk(db, Stop(db, c, sources, target).value)
  {
    MovedStepOk(db, c, target);
    CancelInflightStepOk(Moved(db, c, target), c);
    ContractStepsCompose(db, Moved(db, c, target), Stop(db, c, sources, target).value);
  }

  lemma {:induction false} ExpireStepOk(db: Db, n: nat, today: int)
    requires OrderPaths(db.orders) && ContractsOk(db.contracts)
    requires n <= |db.contracts| && ExpireContracts(db, n, today).Success?
    ensures ContractStepOk(db, ExpireContracts(db, n, today).value)
  {
    if n == 0 {
      TermsStepOk(db, db);
    } else {
      ExpireStepOk(db, n - 1, today);
      var before := ExpireContracts(db, n - 1, today).value;
      if Expirable(before.contracts[n - 1], today) {
        PathsAfter(db, before);
        ExpireOneOk(before, n - 1);
        ContractStepsCompose(db, before, ExpireContracts(db, n, today).value);
      }
    }
  }

  lemma {:induction false} ExpireOneOk(db: Db, c: ContractId)
    requires OrderPaths(db.orders) && ContractsOk(db.contracts) && c < |db.contracts| && db.contracts[c].status == Active
    requires CancelInflight(db, c).Success?
    ensures |CancelInflight(db, c).value.contracts| == |db.contracts|
    ensures ContractStepOk(db, Moved(CancelInflight(db, c).value, c, Expired))
  {
    CancelInflightStepOk(db, c);
    var cancelled := CancelInflight(db, c).value;
    MovedStepOk(cancelled, c, Expired);
    ContractStepsCompose(db, cancelled, Moved(cancelled, c, Expired));
  }

  lemma {:induction false} OpenContractOk(
    db: Db, client: UserId, number: string, first: int, last: Option<int>, due: int)
    requires ContractsOk(db.contracts) && CreateContract(db, client, number, first, last, due).Success?
    ensures ContractStepOk(db, CreateContract(db, client, number, first, last, due).value)
  {
    EvolvesReflexive(db.orders);
  }

  lemma {:induction false} InvoiceWorkOk(db: Db, c: ContractId, invoices: seq<Invoice>)
    requires ContractsOk(db.contracts) && c < |db.contracts| && InvoicesOk(invoices)
    ensures ContractStepOk(db, WithInvoices(db, c, invoices))
  {
    var db' := WithInvoices(db, c, invoices);
    forall d | 0 <= d < |db'.contracts|
      ensures InvoicesOk(db'.contracts[d].invoices)
    {
      assert InvoicesOk(db.contracts[d].invoices);
    }
    TermsStepOk(db, db');
  }

  lemma {:induction false} ItemsWorkOk(db: Db, db': Db)
    requires ContractsOk(db.contracts) && db' == db.(contracts := db'.contracts)
    requires SameLogs(db.contracts, db'.contracts)
    requires forall c :: 0 <= c < |db.contracts| ==> db'.contracts[c].invoices == db.contracts[c].invoices
    ensures ContractStepOk(db, db')
  {
    forall c | 0 <= c < |db'.contracts|
      ensures InvoicesOk(db'.contracts[c].invoices)
    {
      assert InvoicesOk(db.contracts[c].invoices);
    }
    TermsStepOk(db, db');
  }

  lemma {:induction false} BillingOk(db: Db, c: ContractId, first: int, last: int, year: nat, month: nat)
    requires ContractsOk(db.contracts) && GenerateInvoice(db, c, first, last, year, month).Success?
    ensures ContractStepOk(db, GenerateInvoice(db, c, first, last, year, month).value)
  {
    GenerateKeepsInvoices(db, c, first, last, year, month);
    InvoiceWorkOk(db, c, GenerateInvoice(db, c, first, last, year, month).value.contracts[c].invoices);
  }

  lemma {:induction false} InvoiceChangeOk(db: Db, c: ContractId, n: nat, target: InvoiceStatus)
    requires ContractsOk(db.contracts) && MoveInvoice(db, c, n, target).Success?
    ensures ContractStepOk(db, MoveInvoice(db, c, n, target).value)
  {
    MoveKeepsInvoices(db, c, n, target);
    InvoiceWorkOk(db, c, MoveInvoice(db, c, n, target).value.contracts[c].invoices);
  }

  lemma {:induction false} ActivationOk(db: Db, c: ContractId, source: ContractStatus)
    requires ContractsOk(db.contracts) && MakeActive(db, c, source).Success? && ContractEdge(source, Active)
    ensures ContractStepOk(db, MakeActive(db, c, source).value)
  {
    MovedStepOk(db, c, Active);
  }

  /** Changes of terms and prices. */
  lemma {:induction false} TermsWorkOk(db: Db, cmd: ContractCommand)
    requires ContractsOk(db.contracts) && ContractOutcome(db, cmd).Success?
    requires cmd.Amend? || cmd.SetPrice? || cmd.RemovePrice?
    ensures ContractStepOk(db, ContractOutcome(db, cmd).value)
  {
    ItemsWorkOk(db, ContractOutcome(db, cmd).value);
  }

  lemma {:induction false} ContractWorkOk(db: Db, cmd: ContractCommand)
    requires OrderPaths(db.orders) && ContractsOk(db.contracts) && ContractOutcome(db, cmd).Success?
    ensures ContractStepOk(db, ContractOutcome(db, cmd).value)
  {
    match cmd
    case OpenContract(client, number, first, last, due) => OpenContractOk(db, client, number, first, last, due);
    case Activate(c) => ActivationOk(db, c, Draft);
    case Suspend(c) => StopStepOk(db, c, {Active}, Suspended);
    case Reinstate(c) => ActivationOk(db, c, Suspended);
    case Terminate(c) => StopStepOk(db, c, {Active, Suspended}, Terminated);
    case ExpireDue(today) => ExpireStepOk(db, |db.contracts|, today);
    case Amend(_, _, _) => TermsWorkOk(db, cmd);
    case SetPrice(_, _, _, _) => TermsWorkOk(db, cmd);
    case RemovePrice(_, _) => TermsWorkOk(db, cmd);
    case Bill(c, first, last, year, month) => BillingOk(db, c, first, last, year, month);
    case ChangeInvoice(c, n, target) => InvoiceChangeOk(db, c, n, target);
  }

  // ---- Stock and money work ----

  lemma {:induction false} UntouchedInventory(inventories: seq<Inventory>, ledger: seq<StockRow>, i: InventoryId, p: ProductId)
    requires forall n :: 0 <= n < |ledger| ==> RowAllowed(inventories, ledger[n])
    requires i >= |inventories|
    ensures LedgerBalance(ledger, i, p) == 0
  {
    if ledger != [] {
      UntouchedInventory(inventories, Front(ledger), i, p);
    }
  }

  lemma {:induction false} OpenInventoryOk(s: Stock, owner: UserId, kind: InventoryType)
    requires StockOk(s)
    ensures StockOk(s.(inventories := s.inventories + [Holding(owner, kind)]))
  {
    var s' := s.(inventories := s.inventories + [Holding(owner, kind)]);
    forall n | 0 <= n < |s'.ledger|
      ensures RowAllowed(s'.inventories, s'.ledger[n])
    {
      assert RowAllowed(s.inventories, s.ledger[n]);
    }
    forall i: InventoryId, p: ProductId | Exists(s', i) && s'.inventories[i].kind != VirtualVendor
      ensures Balance(s', i, p) >= 0
    {
      if i == |s.inventories| {
        BalanceIsLedgerFold(s, i, p);
        UntouchedInventory(s.inventories, s.ledger, i, p);
      } else {
        assert Balance(s, i, p) >= 0;
      }
    }
  }

  lemma {:induction false} CreditTaraOk(db: Db, address: InventoryId, items: Cart, now: int)
    requires StockOk(db.stock) && StockSteps.CapitaliseTara(db, address, items, now).Success?
    ensures InOrder(db.stock, StockSteps.CapitaliseTara(db, address, items, now).value.stock)
  {
    PositiveIsIdentity(items);
    OneDocument(db.stock, Document(db.stock.vendor, address, InitialBalance, None, now), items);
  }

  lemma {:induction false} CreditDeficitOk(
    db: Db, client: UserId, address: InventoryId, cart: Cart, catalog: Catalog, now: int)
    requires StockOk(db.stock) && StockSteps.CapitaliseDeficit(db, client, address, cart, catalog, now).Success?
    ensures InOrder(db.stock, StockSteps.CapitaliseDeficit(db, client, address, cart, catalog, now).value.stock)
  {
    var shortages := Deficits(db.stock, address, [], Exchange(catalog, cart));
    DeficitsPositive(db.stock, address, [], Exchange(catalog, cart));
    if Exists(db.stock, address) {
      OneDocument(db.stock, Document(db.stock.vendor, address, InitialBalance, None, now), shortages);
    }
  }

  lemma {:induction false} StockWorkOk(db: Db, cmd: StockCommand)
    requires StockOk(db.stock) && StockOutcome(db, cmd).Success?
    ensures StockOk(StockOutcome(db, cmd).value.stock)
    ensures |StockOutcome(db, cmd).value.stock.inventories| >= |db.stock.inventories|
    ensures db.stock.ledger <= StockOutcome(db, cmd).value.stock.ledger
  {
    match cmd
    case MoveStock(req, catalog, now) => TransferFlow(db, req, catalog, now);
    case CreditTara(address, items, now) => CreditTaraOk(db, address, items, now);
    case CreditDeficit(client, address, cart, catalog, now) => CreditDeficitOk(db, client, address, cart, catalog, now);
    case OpenInventory(owner, kind) => OpenInventoryOk(db.stock, owner, kind);
  }

  /** Money rows are never rewritten; a PENDING row is resolved at most once. */
  ghost predicate RowsKept(ledger: seq<Txn>, ledger': seq<Txn>) {
    && |ledger| <= |ledger'|
    && (forall n :: 0 <= n < |ledger| ==>
          && ledger'[n] == ledger[n].(status := ledger'[n].status)
          && (ledger[n].status != Pending ==> ledger'[n].status == ledger[n].status))
  }

  lemma {:induction false} MoneyWorkOk(db: Db, cmd: MoneyCommand)
    requires MoneyInv(db.orders, db.money) && MoneyOutcome(db, cmd).Success?
    ensures MoneyInv(db.orders, MoneyOutcome(db, cmd).value.money)
    ensures RowsKept(db.money.ledger, MoneyOutcome(db, cmd).value.money.ledger)
  {
    match cmd
    case PostManually(from, to, amount, about) =>
      PostingKeepsMoney(db.orders, db.money, Txn(from, to, amount, about, Completed, Manual));
    case TakePayment(client, amount, tender, about) =>
      var account, target := Find(db.money.accounts, client, ClientAccount).value, TenderAccount(db.money, tender).value;
      PostingKeepsMoney(db.orders, db.money,
        Txn(account, target, amount, about, if tender == ByCard then Pending else Completed, Payment));
    case ResolvePending(n, verified) =>
      ResolvingKeepsMoney(db.orders, db.money, n, if verified then Completed else Rejected);
    case OpenAccount(owner, kind) => OpeningKeepsMoney(db.orders, db.money, owner, kind);
  }

  // ---- The theorem ----

  lemma {:induction false} OrderStepKeepsInv(db: Db, db': Db)
    requires Inv(db) && QuotaInv(db') && OrderStepOk(db, db')
    ensures Inv(db')
  {
    PathsAfter(db, db');
    forall c | 0 <= c < |db'.contracts|
      ensures ContractPath(db'.contracts[c]) && InvoicesOk(db'.contracts[c].invoices)
    {
      assert ContractPath(db.contracts[c]) && InvoicesOk(db.contracts[c].invoices);
    }
  }

  lemma {:induction false} ContractStepKeepsInv(db: Db, db': Db)
    requires Inv(db) && QuotaInv(db') && ContractStepOk(db, db')
    ensures Inv(db')
  {
    PathsAfter(db, db');
    OrdersKeepMoney(db.orders, db'.orders, db.money);
    forall o | 0 <= o < |db'.orders|
      ensures Exists(db'.stock, db'.orders[o].clientInventory)
    {
      assert Evolves(db.orders[o], db'.orders[o]);
    }
  }

  /** Every unit of work keeps the invariant. */
  lemma {:induction false} StepKeepsInv(db: Db, cmd: Command)
    requires Inv(db)
    ensures Inv(Step(db, cmd))
  {
    StepKeepsQuota(db, cmd);
    match cmd
    case OrderWork(c) =>
      if OrderOutcome(db, c).Success? {
        OrderWorkOk(db, c);
        OrderStepKeepsInv(db, OrderOutcome(db, c).value);
      }
    case ContractWork(c) =>
      if ContractOutcome(db, c).Success? {
        ContractWorkOk(db, c);
        ContractStepKeepsInv(db, ContractOutcome(db, c).value);
      }
    case StockWork(c) =>
      if StockOutcome(db, c).Success? {
        StockWorkFrame(db, c);
        StockWorkOk(db, c);
      }
    case MoneyWork(c) =>
      if MoneyOutcome(db, c).Success? {
        MoneyWorkFrame(db, c);
        MoneyWorkOk(db, c);
      }
  }

  lemma {:induction false} StartsInOrder()
    ensures Inv(EMPTY)
  {
  }

  /** The invariant holds in every state of every run. */
  lemma {:induction false} RunKeepsInv(db: Db, cmds: seq<Command>)
    requires Inv(db)
    ensures Inv(Run(db, cmds))
  {
    if cmds != [] {
      RunKeepsInv(db, Front(cmds));
      StepKeepsInv(Run(db, Front(cmds)), Last(cmds));
    }
  }
}
