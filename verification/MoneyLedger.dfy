/**
  The money ledger and the account balances its trigger keeps: only COMPLETED rows move money,
  when inserted or when a PENDING row becomes COMPLETED.
 */
module MoneyLedger {
  import opened Base

  datatype AccountType =
    | Revenue | CashDesk | CardDesk | Bank | Discount | ClientAccount | CourierAccount | Expense | Admin

  datatype TxnStatus = Pending | Completed | Rejected

  /** What a row was written for: the `reason` column. */
  datatype Purpose =
    | OrderCharge  // Revenue -> Client, written by a settlement
    | CashLeg      // Client -> Courier or cash desk, written by a settlement
    | CardLeg      // Client -> card account, written PENDING by a settlement
    | Payment      // Client -> cash desk, card or bank account, taken at the cashbox
    | Manual       // any two accounts, posted by an accountant

  datatype Txn = Txn(
    from: AccountId, to: AccountId, amount: int, order: Option<OrderId>, status: TxnStatus, purpose: Purpose)

  datatype Books = Books(accounts: seq<Holding<AccountType>>, balances: seq<int>, ledger: seq<Txn>)

  /** Books whose rows satisfy the table constraints. */
  type Money = b: Books | BooksRows(b) witness Books([], [], [])

  predicate BooksRows(b: Books) {
    && |b.balances| == |b.accounts|
    && (forall n :: 0 <= n < |b.ledger| ==> TxnAllowed(b.accounts, b.ledger[n]))
  }

  predicate TxnAllowed(accounts: seq<Holding<AccountType>>, t: Txn) {
    t.amount > 0 && t.from != t.to && t.from < |accounts| && t.to < |accounts|
  }

  function TxnEffect(t: Txn, a: AccountId): int {
    if t.status != Completed then 0
    else if t.to == a then t.amount
    else if t.from == a then -t.amount
    else 0
  }

  /** An account's balance recomputed from history. */
  function LedgerNet(ledger: seq<Txn>, a: AccountId): int {
    if ledger == [] then 0 else LedgerNet(Front(ledger), a) + TxnEffect(Last(ledger), a)
  }

  function Apply(balances: seq<int>, t: Txn): (after: seq<int>)
    requires t.from < |balances| && t.to < |balances|
    ensures |after| == |balances|
  {
    if t.status != Completed then balances
    else
      var debited := balances[t.from := balances[t.from] - t.amount];
      debited[t.to := debited[t.to] + t.amount]
  }

  /** One ledger insert with its trigger. */
  function InsertTxn(m: Money, t: Txn): Result<Money>
  {
    if !TxnAllowed(m.accounts, t) then Failure(DbIntegrity)
    else Success(m.(balances := Apply(m.balances, t), ledger := m.ledger + [t]))
  }

  /** Several inserts in one unit of work. */
  function InsertAll(m: Money, rows: seq<Txn>): Result<Money>
  {
    if rows == [] then Success(m)
    else
      var before :- InsertAll(m, Front(rows));
      InsertTxn(before, Last(rows))
  }

  /** verify_transaction and reject_transaction: a PENDING row takes its final status. */
  function Resolve(m: Money, n: nat, status: TxnStatus): Result<Money>
  {
    if n >= |m.ledger| then Failure(TransactionNotFound)
    else if m.ledger[n].status != Pending then Failure(InvalidTransactionStatus)
    else
      var t := m.ledger[n].(status := status);
      Success(m.(balances := Apply(m.balances, t), ledger := m.ledger[n := t]))
  }

  /** A new account starts at zero. */
  function WithAccount(m: Money, owner: UserId, kind: AccountType): Money {
    m.(accounts := m.accounts + [Holding(owner, kind)], balances := m.balances + [0])
  }

  /** The state a database is in between units of work. */
  ghost predicate MoneyOk(m: Money) {
    && (forall a :: 0 <= a < |m.balances| ==> m.balances[a] == LedgerNet(m.ledger, a))
    && Sum(m.balances) == 0
  }

  lemma {:induction false} ApplySum(balances: seq<int>, t: Txn)
    requires t.from < |balances| && t.to < |balances| && t.from != t.to
    ensures Sum(Apply(balances, t)) == Sum(balances)
    ensures forall a :: 0 <= a < |balances| ==> Apply(balances, t)[a] == balances[a] + TxnEffect(t, a)
  {
    if t.status == Completed {
      var debited := balances[t.from := balances[t.from] - t.amount];
      SumUpdate(balances, t.from, balances[t.from] - t.amount);
      SumUpdate(debited, t.to, debited[t.to] + t.amount);
    }
  }

  lemma {:induction false} LedgerNetUpdate(ledger: seq<Txn>, n: nat, t: Txn, a: AccountId)
    requires n < |ledger|
    ensures LedgerNet(ledger[n := t], a) == LedgerNet(ledger, a) - TxnEffect(ledger[n], a) + TxnEffect(t, a)
  {
    if n == |ledger| - 1 {
      assert Front(ledger[n := t]) == Front(ledger);
    } else {
      assert Front(ledger[n := t]) == Front(ledger)[n := t];
      LedgerNetUpdate(Front(ledger), n, t, a);
    }
  }

  lemma {:induction false} InsertKeepsOk(m: Money, t: Txn)
    requires MoneyOk(m) && InsertTxn(m, t).Success?
    ensures MoneyOk(InsertTxn(m, t).value)
  {
    ApplySum(m.balances, t);
    assert Front(m.ledger + [t]) == m.ledger;
  }

  lemma {:induction false} InsertAllKeepsOk(m: Money, rows: seq<Txn>)
    requires MoneyOk(m) && InsertAll(m, rows).Success?
    ensures MoneyOk(InsertAll(m, rows).value)
    ensures InsertAll(m, rows).value == m.(balances := InsertAll(m, rows).value.balances, ledger := m.ledger + rows)
    ensures forall n :: 0 <= n < |rows| ==> TxnAllowed(m.accounts, rows[n])
  {
    if rows == [] {
      assert m.ledger + rows == m.ledger;
    } else {
      InsertAllKeepsOk(m, Front(rows));
      InsertKeepsOk(InsertAll(m, Front(rows)).value, Last(rows));
      assert m.ledger + rows == m.ledger + Front(rows) + [Last(rows)];
    }
  }

  lemma {:induction false} ResolveKeepsOk(m: Money, n: nat, status: TxnStatus)
    requires MoneyOk(m) && Resolve(m, n, status).Success?
    ensures MoneyOk(Resolve(m, n, status).value)
  {
    var t := m.ledger[n].(status := status);
    ApplySum(m.balances, t);
    forall a | 0 <= a < |m.balances|
      ensures Apply(m.balances, t)[a] == LedgerNet(m.ledger[n := t], a)
    {
      LedgerNetUpdate(m.ledger, n, t, a);
    }
  }
}
