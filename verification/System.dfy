/** The whole back office as one state machine: every unit of work is one atomic step. */
module System {
  import opened Base
  import opened StockLedger
  import opened MoneyLedger
  import opened Database
  import opened OrderSteps
  import opened ContractSteps
  import opened StockSteps
  import opened MoneySteps

  datatype OrderCommand =
    | PlaceOrder(req: Checkout, catalog: Catalog, today: int, now: int)
    | SellAtWarehouse(buyer: Option<UserId>, warehouse: InventoryId, cart: Cart, capitalise: bool, catalog: Catalog, now: int)
    | FinishPickup(order: OrderId, catalog: Catalog, now: int)
    | AddLine(order: OrderId, product: ProductId, quantity: int, requester: Option<UserId>, catalog: Catalog)
    | RemoveLine(order: OrderId, product: ProductId, requester: Option<UserId>)
    | AssignTo(order: OrderId, courier: UserId, isCourier: bool)
    | ChangeStatus(order: OrderId, target: OrderStatus, actual: Cart, requester: Option<UserId>, catalog: Catalog, now: int)
    | DropStale(staleNew: seq<OrderId>, staleAssigned: seq<OrderId>)

  datatype ContractCommand =
    | OpenContract(client: UserId, number: string, startDate: int, endDate: Option<int>, dueDays: int)
    | Activate(contract: ContractId)
    | Suspend(contract: ContractId)
    | Reinstate(contract: ContractId)
    | Terminate(contract: ContractId)
    | ExpireDue(today: int)
    | Amend(contract: ContractId, newEndDate: Option<Option<int>>, newDueDays: Option<Option<int>>)
    | SetPrice(contract: ContractId, product: ProductId, price: int, quantity: int)
    | RemovePrice(contract: ContractId, product: ProductId)
    | Bill(contract: ContractId, first: int, last: int, year: nat, month: nat)
    | ChangeInvoice(contract: ContractId, invoice: nat, invoiceTarget: InvoiceStatus)

  datatype StockCommand =
    | MoveStock(transfer: TransferRequest, catalog: Catalog, now: int)
    | CreditTara(address: InventoryId, cart: Cart, now: int)
    | CreditDeficit(client: UserId, address: InventoryId, cart: Cart, catalog: Catalog, now: int)
    | OpenInventory(owner: UserId, kind: InventoryType)

  datatype MoneyCommand =
    | PostManually(from: AccountId, to: AccountId, amount: int, about: Option<OrderId>)
    | TakePayment(client: UserId, amount: int, tender: Tender, about: Option<OrderId>)
    | ResolvePending(txn: nat, verified: bool)
    | OpenAccount(owner: UserId, account: AccountType)

  datatype Command =
    | OrderWork(order: OrderCommand)
    | ContractWork(contract: ContractCommand)
    | StockWork(stock: StockCommand)
    | MoneyWork(money: MoneyCommand)

  function OrderOutcome(db: Db, cmd: OrderCommand): Result<Db> {
    match cmd
    case PlaceOrder(req, catalog, today, now) => CreateOrder(db, req, catalog, today, now)
    case SellAtWarehouse(buyer, w, cart, cap, catalog, now) => CreateWarehouseSale(db, buyer, w, cart, cap, catalog, now)
    case FinishPickup(o, catalog, now) => CompletePickup(db, o, catalog, now)
    case AddLine(o, p, q, requester, catalog) => AddProduct(db, o, p, q, requester, catalog)
    case RemoveLine(o, p, requester) => RemoveProduct(db, o, p, requester)
    case AssignTo(o, courier, isCourier) => AssignCourier(db, o, courier, isCourier)
    case ChangeStatus(o, target, actual, requester, catalog, now) => UpdateStatus(db, o, target, actual, requester, catalog, now)
    case DropStale(staleNew, staleAssigned) => ExpireStale(db, staleNew, staleAssigned)
  }

  function ContractOutcome(db: Db, cmd: ContractCommand): Result<Db> {
    match cmd
    case OpenContract(client, number, first, last, due) => CreateContract(db, client, number, first, last, due)
    case Activate(c) => MakeActive(db, c, Draft)
    case Suspend(c) => Stop(db, c, {Active}, Suspended)
    case Reinstate(c) => MakeActive(db, c, Suspended)
    case Terminate(c) => Stop(db, c, {Active, Suspended}, Terminated)
    case ExpireDue(today) => ExpireContracts(db, |db.contracts|, today)
    case Amend(c, endDate, due) => UpdateTerms(db, c, endDate, due)
    case SetPrice(c, p, price, q) => SetPriceItem(db, c, p, price, q)
    case RemovePrice(c, p) => RemovePriceItem(db, c, p)
    case Bill(c, first, last, year, month) => GenerateInvoice(db, c, first, last, year, month)
    case ChangeInvoice(c, n, target) => MoveInvoice(db, c, n, target)
  }

  function StockOutcome(db: Db, cmd: StockCommand): Result<Db> {
    match cmd
    case MoveStock(req, catalog, now) => CreateTransfer(db, req, catalog, now)
    case CreditTara(address, items, now) => CapitaliseTara(db, address, items, now)
    case CreditDeficit(client, address, cart, catalog, now) => CapitaliseDeficit(db, client, address, cart, catalog, now)
    case OpenInventory(owner, kind) =>
      if Virtual(kind) then Failure(ValidationError)
      else Success(db.(stock := db.stock.(inventories := db.stock.inventories + [Holding(owner, kind)])))
  }

  function MoneyOutcome(db: Db, cmd: MoneyCommand): Result<Db> {
    match cmd
    case PostManually(from, to, amount, about) => CreateTransaction(db, from, to, amount, about)
    case TakePayment(client, amount, tender, about) => AcceptPayment(db, client, amount, tender, about)
    case ResolvePending(n, verified) => ResolveTransaction(db, n, verified)
    case OpenAccount(owner, kind) => Success(db.(money := WithAccount(db.money, owner, kind)))
  }

  /** What a unit of work does: commit a new database or fail. */
  function Outcome(db: Db, cmd: Command): Result<Db> {
    match cmd
    case OrderWork(c) => OrderOutcome(db, c)
    case ContractWork(c) => ContractOutcome(db, c)
    case StockWork(c) => StockOutcome(db, c)
    case MoneyWork(c) => MoneyOutcome(db, c)
  }

  /** A failed unit of work is rolled back. */
  function Step(db: Db, cmd: Command): Db {
    var out := Outcome(db, cmd);
    if out.Success? then out.value else db
  }

  function Run(db: Db, cmds: seq<Command>): Db {
    if cmds == [] then db else Step(Run(db, Front(cmds)), Last(cmds))
  }

  /** The database after start-up: the two system inventories and nothing else. */
  const EMPTY: Db := Db([], [],
    Stock([Holding(SYSTEM_USER, VirtualVendor), Holding(SYSTEM_USER, VirtualLoss)], 0, 1, [], []),
    Books([], [], []))
}
