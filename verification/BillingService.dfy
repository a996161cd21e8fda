/** The billing service as it works. */
module BillingService {
  import opened Base
  import opened MoneyLedger
  import opened MoneySteps
  import opened UnitOfWork

  method AddRow(uow: UnitOfWork, t: Txn) returns (r: Result<()>)
    modifies uow`money
    ensures uow.Follows(MoneySteps.Post(old(uow.View()), t), r)
  {
    if t.order.Some? && t.order.value >= |uow.orders| { return Failure(DbIntegrity); }
    r := uow.AddTxn(t);
  }

  method CreateTransaction(uow: UnitOfWork, from: AccountId, to: AccountId, amount: int, order: Option<OrderId>)
    returns (r: Result<()>)
    modifies uow`money
    ensures uow.Follows(MoneySteps.CreateTransaction(old(uow.View()), from, to, amount, order), r)
  {
    if amount <= 0 { return Failure(ValidationError); }
    if from == to { return Failure(SelfTransfer); }
    if from >= |uow.money.accounts| || to >= |uow.money.accounts| { return Failure(Error.AccountNotFound); }
    r := AddRow(uow, Txn(from, to, amount, order, Completed, Manual));
  }

  method AcceptPayment(uow: UnitOfWork, client: UserId, amount: int, tender: Tender, order: Option<OrderId>)
    returns (r: Result<()>)
    modifies uow`money
    ensures uow.Follows(MoneySteps.AcceptPayment(old(uow.View()), client, amount, tender, order), r)
  {
    if amount <= 0 { return Failure(ValidationError); }
    var accounts := uow.money.accounts;
    var account := Find(accounts, client, ClientAccount);
    if account.None? { return Failure(Error.AccountNotFound); }
    var target, status := Find(accounts, SYSTEM_USER, CashDesk), Completed;
    if tender == ByCard {
      target, status := Find(accounts, SYSTEM_USER, CardDesk), Pending;
    } else if tender == ByBank {
      target := Find(accounts, SYSTEM_USER, Bank);
    }
    if target.None? { return Failure(Error.AccountNotFound); }
    r := AddRow(uow, Txn(account.value, target.value, amount, order, status, Payment));
  }

  /** verify_transaction and reject_transaction; the update trigger moves the money of a verified row. */
  method ResolveTransaction(uow: UnitOfWork, n: nat, verified: bool) returns (r: Result<()>)
    modifies uow`money
    ensures uow.Follows(MoneySteps.ResolveTransaction(old(uow.View()), n, verified), r)
  {
    var ledger, balances := uow.money.ledger, uow.money.balances;
    if n >= |ledger| { return Failure(TransactionNotFound); }
    var t := ledger[n];
    if t.status != Pending { return Failure(InvalidTransactionStatus); }
    if verified {
      balances := balances[t.from := balances[t.from] - t.amount];
      balances := balances[t.to := balances[t.to] + t.amount];
    }
    ledger := ledger[n := t.(status := if verified then Completed else Rejected)];
    uow.money := uow.money.(balances := balances, ledger := ledger);
    return Success(());
  }
}
