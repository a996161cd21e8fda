/** The money commands in full: exactly when each commits, and everything it changes. */
module MoneyLaws {
  import opened Base
  import opened MoneyLedger
  import opened Database
  import opened MoneySteps
  import opened MoneyFlows
  import opened System

  /** Only the money books differ, and no account was opened or closed. */
  ghost predicate OnlyMoney(db: Db, db': Db) {
    db' == db.(money := db'.money) && db'.money.accounts == db.money.accounts
  }

  predicate Known(db: Db, about: Option<OrderId>) {
    about.Some? ==> about.value < |db.orders|
  }

  /** A manual posting commits exactly when it is well formed, and moves its amount at once. */
  lemma {:induction false} ManualPosting(db: Db, from: AccountId, to: AccountId, amount: int, about: Option<OrderId>)
    ensures var out := Outcome(db, MoneyWork(PostManually(from, to, amount, about)));
            && (out.Success? <==> amount > 0 && from != to && from < |db.money.accounts| && to < |db.money.accounts| && Known(db, about))
            && (out.Success? ==>
                  && OnlyMoney(db, out.value)
                  && out.value.money.ledger == db.money.ledger + [Txn(from, to, amount, about, Completed, Manual)]
                  && Flows(db.money.balances, out.value.money.balances, from, to, amount))
  {
    var out := Outcome(db, MoneyWork(PostManually(from, to, amount, about)));
    if out.Success? {
      InsertFlow(db.money, Txn(from, to, amount, about, Completed, Manual), out.value.money);
    }
  }

  /**
    A payment goes from the client's account to the cash desk, the card account or the bank. Cash and
    bank money arrives at once; card money waits PENDING.
   */
  lemma {:induction false} PaymentTaken(db: Db, client: UserId, amount: int, tender: Tender, about: Option<OrderId>)
    ensures var out := Outcome(db, MoneyWork(TakePayment(client, amount, tender, about)));
            var account := Find(db.money.accounts, client, ClientAccount);
            var kind := match tender case ByCash => CashDesk case ByCard => CardDesk case ByBank => Bank;
            var target := Find(db.money.accounts, SYSTEM_USER, kind);
            && (out.Success? <==> amount > 0 && account.Some? && target.Some? && Known(db, about))
            && (out.Success? ==>
                  && OnlyMoney(db, out.value)
                  && out.value.money.ledger == db.money.ledger +
                     [Txn(account.value, target.value, amount, about, if tender == ByCard then Pending else Completed, Payment)]
                  && (if tender == ByCard then out.value.money.balances == db.money.balances
                      else Flows(db.money.balances, out.value.money.balances, account.value, target.value, amount)))
  {
    var out := Outcome(db, MoneyWork(TakePayment(client, amount, tender, about)));
    if out.Success? {
      var account, target := Find(db.money.accounts, client, ClientAccount).value, TenderAccount(db.money, tender).value;
      InsertFlow(db.money, Txn(account, target, amount, about, if tender == ByCard then Pending else Completed, Payment),
                 out.value.money);
    }
  }

  /**
    A PENDING row is verified or rejected, once. Verified, it becomes COMPLETED and its amount moves;
    rejected, it becomes REJECTED and nothing moves. No other row changes.
   */
  lemma {:induction false} PendingResolved(db: Db, n: nat, verified: bool)
    ensures var out := Outcome(db, MoneyWork(ResolvePending(n, verified)));
            && (out.Success? <==> n < |db.money.ledger| && db.money.ledger[n].status == Pending)
            && (out.Success? ==>
                  var t, m, m' := db.money.ledger[n], db.money, out.value.money;
                  && OnlyMoney(db, out.value) && |m'.ledger| == |m.ledger|
                  && m'.ledger[n] == t.(status := if verified then Completed else Rejected)
                  && (forall k :: 0 <= k < |m.ledger| && k != n ==> m'.ledger[k] == m.ledger[k])
                  && (if verified then Flows(m.balances, m'.balances, t.from, t.to, t.amount) else m'.balances == m.balances))
  {
    if n < |db.money.ledger| {
      ApplySum(db.money.balances, db.money.ledger[n].(status := if verified then Completed else Rejected));
    }
  }

  /** A new account starts at zero; the others keep their balance. */
  lemma {:induction false} AccountOpened(db: Db, owner: UserId, kind: AccountType)
    ensures var out := Outcome(db, MoneyWork(OpenAccount(owner, kind)));
            && out.Success? && out.value == db.(money := out.value.money) && out.value.money.ledger == db.money.ledger
            && out.value.money.accounts == db.money.accounts + [Holding(owner, kind)]
            && out.value.money.balances == db.money.balances + [0]
  {
  }
}
