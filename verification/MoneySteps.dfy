/** The units of work of the billing service. */
module MoneySteps {
  import opened Base
  import opened MoneyLedger
  import opened Database

  predicate OrderKnown(db: Db, order: Option<OrderId>) {
    order.Some? ==> order.value < |db.orders|
  }

  function Post(db: Db, t: Txn): Result<Db> {
    if !OrderKnown(db, t.order) then Failure(DbIntegrity)
    else
      var money :- InsertTxn(db.money, t);
      Success(db.(money := money))
  }

  /** create_transaction: a manual posting, COMPLETED at once. */
  function CreateTransaction(db: Db, from: AccountId, to: AccountId, amount: int, order: Option<OrderId>): Result<Db> {
    if amount <= 0 then Failure(ValidationError)
    else if from == to then Failure(SelfTransfer)
    else if from >= |db.money.accounts| || to >= |db.money.accounts| then Failure(Error.AccountNotFound)
    else Post(db, Txn(from, to, amount, order, Completed, Manual))
  }

  datatype Tender = ByCash | ByCard | ByBank

  function TenderAccount(m: Money, tender: Tender): Option<AccountId> {
    match tender
    case ByCash => Find(m.accounts, SYSTEM_USER, CashDesk)
    case ByCard => Find(m.accounts, SYSTEM_USER, CardDesk)
    case ByBank => Find(m.accounts, SYSTEM_USER, Bank)
  }

  /** accept_payment: card money stays PENDING until it is verified. */
  function AcceptPayment(db: Db, client: UserId, amount: int, tender: Tender, order: Option<OrderId>): Result<Db> {
    if amount <= 0 then Failure(ValidationError)
    else
      var account, target := Find(db.money.accounts, client, ClientAccount), TenderAccount(db.money, tender);
      if account.None? || target.None? then Failure(Error.AccountNotFound)
      else Post(db, Txn(account.value, target.value, amount, order, if tender == ByCard then Pending else Completed, Payment))
  }

  /** verify_transaction and reject_transaction. */
  function ResolveTransaction(db: Db, n: nat, verified: bool): Result<Db> {
    var money :- Resolve(db.money, n, if verified then Completed else Rejected);
    Success(db.(money := money))
  }
}
