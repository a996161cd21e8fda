/** The services behind one door: a command is executed, then committed or rolled back. */
module BackOffice {
  import opened Base
  import opened Database
  import opened System
  import opened UnitOfWork
  import opened RunInvariant
  import MoneyLedger
  import OrderService
  import ContractService
  import StockService
  import BillingService

  method DoOrderWork(uow: UnitOfWork, cmd: OrderCommand) returns (r: Result<()>)
    modifies uow`orders, uow`contracts, uow`stock, uow`money
    ensures uow.Follows(OrderOutcome(old(uow.View()), cmd), r)
  {
    match cmd
    case PlaceOrder(req, catalog, today, now) => r := OrderService.CreateOrder(uow, req, catalog, today, now);
    case SellAtWarehouse(buyer, w, cart, cap, catalog, now) =>
      r := OrderService.CreateWarehouseSale(uow, buyer, w, cart, cap, catalog, now);
    case FinishPickup(o, catalog, now) => r := OrderService.CompletePickup(uow, o, catalog, now);
    case AddLine(o, p, q, requester, catalog) => r := OrderService.AddProduct(uow, o, p, q, requester, catalog);
    case RemoveLine(o, p, requester) => r := OrderService.RemoveProduct(uow, o, p, requester);
    case AssignTo(o, courier, isCourier) => r := OrderService.AssignCourier(uow, o, courier, isCourier);
    case ChangeStatus(o, target, actual, requester, catalog, now) =>
      r := OrderService.UpdateStatus(uow, o, target, actual, requester, catalog, now);
    case DropStale(staleNew, staleAssigned) => r := OrderService.ExpireStaleOrders(uow, staleNew, staleAssigned);
  }

  method DoContractWork(uow: UnitOfWork, cmd: ContractCommand) returns (r: Result<()>)
    modifies uow`orders, uow`contracts
    ensures uow.Follows(ContractOutcome(old(uow.View()), cmd), r)
  {
    match cmd
    case OpenContract(client, number, first, last, due) =>
      r := ContractService.CreateContract(uow, client, number, first, last, due);
    case Activate(c) => r := ContractService.ActivateContract(uow, c, Draft);
    case Suspend(c) => r := ContractService.StopContract(uow, c, {Active}, Suspended);
    case Reinstate(c) => r := ContractService.ActivateContract(uow, c, Suspended);
    case Terminate(c) => r := ContractService.StopContract(uow, c, {Active, Suspended}, Terminated);
    case ExpireDue(today) => r := ContractService.RunExpireJob(uow, today);
    case Amend(c, endDate, due) => r := ContractService.UpdateContract(uow, c, endDate, due);
    case SetPrice(c, p, price, q) => r := ContractService.SetPriceItem(uow, c, p, price, q);
    case RemovePrice(c, p) => r := ContractService.RemovePriceItem(uow, c, p);
    case Bill(c, first, last, year, month) => r := ContractService.GenerateInvoice(uow, c, first, last, year, month);
    case ChangeInvoice(c, n, target) => r := ContractService.ChangeInvoiceStatus(uow, c, n, target);
  }

  method DoStockWork(uow: UnitOfWork, cmd: StockCommand) returns (r: Result<()>)
    modifies uow`stock
    ensures uow.Follows(StockOutcome(old(uow.View()), cmd), r)
  {
    match cmd
    case MoveStock(req, catalog, now) => r := StockService.CreateTransfer(uow, req, catalog, now);
    case CreditTara(address, items, now) => r := StockService.CapitaliseTara(uow, address, items, now);
    case CreditDeficit(client, address, cart, catalog, now) =>
      r := StockService.CapitaliseDeficit(uow, client, address, cart, catalog, now);
    case OpenInventory(owner, kind) => r := StockService.OpenInventory(uow, owner, kind);
  }

  method DoMoneyWork(uow: UnitOfWork, cmd: MoneyCommand) returns (r: Result<()>)
    modifies uow`money
    ensures uow.Follows(MoneyOutcome(old(uow.View()), cmd), r)
  {
    match cmd
    case PostManually(from, to, amount, about) => r := BillingService.CreateTransaction(uow, from, to, amount, about);
    case TakePayment(client, amount, tender, about) => r := BillingService.AcceptPayment(uow, client, amount, tender, about);
    case ResolvePending(n, verified) => r := BillingService.ResolveTransaction(uow, n, verified);
    case OpenAccount(owner, kind) =>
      uow.money := MoneyLedger.WithAccount(uow.money, owner, kind);
      r := Success(());
  }

  /** One unit of work: it commits what its specification says, or fails and leaves no trace. */
  method Execute(uow: UnitOfWork, cmd: Command) returns (r: Result<()>)
    requires uow.View() == uow.committed
    modifies uow
    ensures uow.View() == uow.committed == Step(old(uow.committed), cmd)
    ensures match Outcome(old(uow.committed), cmd)
            case Success(_) => r == Success(())
            case Failure(e) => r == Failure(e) && uow.committed == old(uow.committed)
  {
    match cmd {
      case OrderWork(c) => r := DoOrderWork(uow, c);
      case ContractWork(c) => r := DoContractWork(uow, c);
      case StockWork(c) => r := DoStockWork(uow, c);
      case MoneyWork(c) => r := DoMoneyWork(uow, c);
    }
    uow.Close(r);
  }

  /** Whatever is asked of a fresh back office, in whatever order, the books stay right. */
  method Serve(cmds: seq<Command>) returns (uow: UnitOfWork)
    ensures fresh(uow)
    ensures uow.committed == Run(EMPTY, cmds)
    ensures Inv(uow.committed)
  {
    uow := new UnitOfWork(EMPTY);
    for n := 0 to |cmds|
      invariant fresh(uow)
      invariant uow.View() == uow.committed == Run(EMPTY, cmds[..n])
    {
      assert Front(cmds[..n + 1]) == cmds[..n];
      var _ := Execute(uow, cmds[n]);
    }
    assert cmds[..|cmds|] == cmds;
    StartsInOrder();
    RunKeepsInv(EMPTY, cmds);
  }
}
