/** Who holds an order's money after its settlement, and after a card payment is resolved. */
module MoneyFlows {
  import opened Base
  import opened MoneyLedger
  import opened Database
  import opened OrderSteps

  /** The account that cash reaches when the order is completed, if cash changes hands then. */
  function CashHolder(m: Money, ord: Order): Option<AccountId> {
    if ord.payment != Cash then None
    else if ord.saleType == WarehousePickup then Find(m.accounts, SYSTEM_USER, CashDesk)
    else if ord.courier.None? then None
    else Find(m.accounts, ord.courier.value, CourierAccount)
  }

  /** Exactly `amount` leaves `from` and rests with `to`; every other account is as before. */
  ghost predicate Flows(before: seq<int>, after: seq<int>, from: AccountId, to: AccountId, amount: int) {
    && |after| == |before|
    && (forall a :: 0 <= a < |before| ==>
          after[a] == before[a] + (if a == to then amount else 0) - (if a == from then amount else 0))
  }

  lemma {:induction false} InsertFlow(m: Money, t: Txn, m': Money)
    requires InsertTxn(m, t) == Success(m')
    ensures m'.accounts == m.accounts && m'.ledger == m.ledger + [t]
    ensures if t.status == Completed then Flows(m.balances, m'.balances, t.from, t.to, t.amount)
            else m'.balances == m.balances
  {
    ApplySum(m.balances, t);
  }

  lemma {:induction false} OneInsert(m: Money, t: Txn)
    ensures InsertAll(m, [t]) == InsertTxn(m, t)
  {
    var none: seq<Txn> := [];
    assert Front([t]) == none && Last([t]) == t;
    assert InsertAll(m, none) == Success(m);
  }

  /** The two inserts of a settlement, one after the other. */
  lemma {:induction false} TwoInserts(m: Money, a: Txn, b: Txn, m': Money) returns (m1: Money)
    requires InsertAll(m, [a] + [b]) == Success(m')
    ensures InsertTxn(m, a) == Success(m1) && InsertTxn(m1, b) == Success(m')
  {
    assert Front([a] + [b]) == [a];
    OneInsert(m, a);
    m1 := InsertAll(m, [a]).value;
  }

  /**
    A settlement takes the total from the revenue account. It rests with the courier or the cash
    desk when cash changes hands, and stays the client's debt otherwise.
   */
  lemma {:induction false} SettlementFlow(m: Money, ord: Order, o: OrderId, m': Money)
    requires Settle(m, ord, o) == Success(m')
    ensures Find(m.accounts, ord.client, ClientAccount).Some? && Find(m.accounts, SYSTEM_USER, Revenue).Some?
    ensures var holder := CashHolder(m, ord);
            Flows(m.balances, m'.balances, Find(m.accounts, SYSTEM_USER, Revenue).value,
                  if holder.Some? then holder.value else Find(m.accounts, ord.client, ClientAccount).value, ord.total)
  {
    var client, revenue := Find(m.accounts, ord.client, ClientAccount).value, Find(m.accounts, SYSTEM_USER, Revenue).value;
    var charge := Txn(revenue, client, ord.total, Some(o), Completed, OrderCharge);
    var legs := PaymentLeg(m, ord, o, client).value;
    if legs == [] {
      assert [charge] + legs == [charge];
      OneInsert(m, charge);
      InsertFlow(m, charge, m');
    } else {
      assert [charge] + legs == [charge] + [legs[0]];
      var m1 := TwoInserts(m, charge, legs[0], m');
      InsertFlow(m, charge, m1);
      InsertFlow(m1, legs[0], m');
    }
  }

  /**
    A card order: verifying the PENDING row its settlement wrote moves the debt from the client to
    the card account; rejecting it leaves the debt with the client.
   */
  lemma {:induction false} CardFlow(m: Money, ord: Order, o: OrderId, m1: Money, status: TxnStatus, m2: Money)
    requires ord.payment == Card && Settle(m, ord, o) == Success(m1) && (status == Completed || status == Rejected)
    requires Resolve(m1, |m.ledger| + 1, status) == Success(m2)
    ensures Find(m.accounts, ord.client, ClientAccount).Some? && Find(m.accounts, SYSTEM_USER, Revenue).Some?
    ensures Find(m.accounts, SYSTEM_USER, CardDesk).Some?
    ensures Flows(m.balances, m2.balances, Find(m.accounts, SYSTEM_USER, Revenue).value,
                  if status == Completed then Find(m.accounts, SYSTEM_USER, CardDesk).value
                  else Find(m.accounts, ord.client, ClientAccount).value, ord.total)
    ensures Resolve(m2, |m.ledger| + 1, Completed) == Failure(InvalidTransactionStatus)
  {
    SettlementFlow(m, ord, o, m1);
    var client, revenue := Find(m.accounts, ord.client, ClientAccount).value, Find(m.accounts, SYSTEM_USER, Revenue).value;
    var charge := Txn(revenue, client, ord.total, Some(o), Completed, OrderCharge);
    var leg := PaymentLeg(m, ord, o, client).value[0];
    var m0 := TwoInserts(m, charge, leg, m1);
    assert m1.ledger[|m.ledger| + 1] == leg;
    ApplySum(m1.balances, leg.(status := status));
  }

  /** Every card settlement leaves a PENDING row that can still be resolved. */
  lemma {:induction false} CardAwaits(m: Money, ord: Order, o: OrderId, m1: Money, status: TxnStatus)
    requires ord.payment == Card && Settle(m, ord, o) == Success(m1)
    ensures Resolve(m1, |m.ledger| + 1, status).Success?
  {
    var client, revenue := Find(m.accounts, ord.client, ClientAccount).value, Find(m.accounts, SYSTEM_USER, Revenue).value;
    var charge := Txn(revenue, client, ord.total, Some(o), Completed, OrderCharge);
    var leg := PaymentLeg(m, ord, o, client).value[0];
    var m0 := TwoInserts(m, charge, leg, m1);
    assert m1.ledger[|m.ledger| + 1] == leg;
  }

  // ---- When an order can be settled, and the rows it leaves ----

  /** The accounts a settlement needs are there, and there is something to charge. */
  predicate Payable(m: Money, ord: Order) {
    && ord.total > 0
    && Find(m.accounts, ord.client, ClientAccount).Some? && Find(m.accounts, SYSTEM_USER, Revenue).Some?
    && (ord.payment == Card ==> Find(m.accounts, SYSTEM_USER, CardDesk).Some?)
    && (ord.payment == Cash && ord.saleType == WarehousePickup ==> Find(m.accounts, SYSTEM_USER, CashDesk).Some?)
    && (ord.payment == Cash && ord.saleType == Delivery && ord.courier.Some? ==>
          Find(m.accounts, ord.courier.value, CourierAccount).Some?)
  }

  /** The charge, then the cash that changed hands or the card payment that waits. */
  function SettlementLedger(m: Money, ord: Order, o: OrderId): seq<Txn>
    requires Payable(m, ord)
  {
    var client, revenue := Find(m.accounts, ord.client, ClientAccount).value, Find(m.accounts, SYSTEM_USER, Revenue).value;
    var charge := Txn(revenue, client, ord.total, Some(o), Completed, OrderCharge);
    if CashHolder(m, ord).Some? then [charge, Txn(client, CashHolder(m, ord).value, ord.total, Some(o), Completed, CashLeg)]
    else if ord.payment == Card then
      [charge, Txn(client, Find(m.accounts, SYSTEM_USER, CardDesk).value, ord.total, Some(o), Pending, CardLeg)]
    else [charge]
  }

  lemma {:induction false} PairInserted(m: Money, a: Txn, b: Txn)
    requires TxnAllowed(m.accounts, a) && TxnAllowed(m.accounts, b)
    ensures InsertAll(m, [a, b]).Success? && InsertAll(m, [a, b]).value.ledger == m.ledger + [a, b]
    ensures InsertAll(m, [a, b]).value.accounts == m.accounts
  {
    assert Front([a, b]) == [a];
    OneInsert(m, a);
    assert m.ledger + [a] + [b] == m.ledger + [a, b];
  }

  lemma {:induction false} PairRefused(m: Money, a: Txn, b: Txn)
    requires !TxnAllowed(m.accounts, a)
    ensures InsertAll(m, [a]).Failure? && InsertAll(m, [a, b]).Failure?
  {
    assert Front([a, b]) == [a];
    OneInsert(m, a);
  }

  /** An order is settled exactly when it is payable, with exactly these rows. */
  lemma {:induction false} SettledIff(m: Money, ord: Order, o: OrderId)
    ensures Settle(m, ord, o).Success? <==> Payable(m, ord)
    ensures Settle(m, ord, o).Success? ==>
              && Settle(m, ord, o).value.accounts == m.accounts
              && Settle(m, ord, o).value.ledger == m.ledger + SettlementLedger(m, ord, o)
  {
    var client, revenue := Find(m.accounts, ord.client, ClientAccount), Find(m.accounts, SYSTEM_USER, Revenue);
    if client.Some? && revenue.Some? {
      var charge := Txn(revenue.value, client.value, ord.total, Some(o), Completed, OrderCharge);
      var legs := PaymentLeg(m, ord, o, client.value);
      OneInsert(m, charge);
      if legs.Success? && legs.value == [] {
        assert [charge] + legs.value == [charge];
      } else if legs.Success? {
        assert [charge] + legs.value == [charge, legs.value[0]];
        if ord.total > 0 {
          PairInserted(m, charge, legs.value[0]);
        } else {
          PairRefused(m, charge, legs.value[0]);
        }
      }
    }
  }
}
