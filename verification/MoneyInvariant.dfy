/**
  Settlement and debt: every order is charged exactly once and exactly when it is completed, and
  a client's balance is the settled orders less the payments, plus manual postings.
 */
module MoneyInvariant {
  import opened Base
  import opened MoneyLedger
  import opened Database
  import opened OrderSteps

  /** The three sides of a client's account: charged, paid, posted by hand. */
  datatype Side = Charged | PaidIn | Posted

  function SideOf(purpose: Purpose): Side {
    match purpose
    case OrderCharge => Charged
    case Manual => Posted
    case _ => PaidIn
  }

  /** The charge rows a ledger holds for one order. */
  function Charges(ledger: seq<Txn>, o: OrderId): seq<Txn> {
    if ledger == [] then []
    else
      var t := Last(ledger);
      if t.purpose == OrderCharge && t.order == Some(o) then Charges(Front(ledger), o) + [t] else Charges(Front(ledger), o)
  }

  /** The net effect on an account of the rows of one side. */
  function NetOf(ledger: seq<Txn>, a: AccountId, side: Side): int {
    if ledger == [] then 0
    else NetOf(Front(ledger), a, side) + (if SideOf(Last(ledger).purpose) == side then TxnEffect(Last(ledger), a) else 0)
  }

  /** COMPLETED payments out of an account; PENDING and REJECTED rows count for nothing. */
  function PaidOut(ledger: seq<Txn>, a: AccountId): int {
    if ledger == [] then 0
    else
      var t := Last(ledger);
      PaidOut(Front(ledger), a) + (if SideOf(t.purpose) == PaidIn && t.status == Completed && t.from == a then t.amount else 0)
  }

  function Due(ord: Order, client: UserId): int {
    if ord.client == client && Settled(ord.status) then ord.total else 0
  }

  function Dues(orders: seq<Order>, client: UserId): seq<int> {
    seq(|orders|, i requires 0 <= i < |orders| => Due(orders[i], client))
  }

  /** The totals of the client's completed orders, from the orders table alone. */
  function SettledTotal(orders: seq<Order>, client: UserId): int {
    Sum(Dues(orders, client))
  }

  /** What the ledger must hold for an order. */
  function ExpectedCharges(m: Money, ord: Order, o: OrderId): Option<seq<Txn>> {
    if !Settled(ord.status) then Some([])
    else
      var client, revenue := Find(m.accounts, ord.client, ClientAccount), Find(m.accounts, SYSTEM_USER, Revenue);
      if client.None? || revenue.None? then None
      else Some([Txn(revenue.value, client.value, ord.total, Some(o), Completed, OrderCharge)])
  }

  predicate RowOk(accounts: seq<Holding<AccountType>>, orders: nat, t: Txn) {
    && TxnAllowed(accounts, t)
    && (t.purpose == OrderCharge ==>
          && t.order.Some? && t.order.value < orders && t.status == Completed
          && accounts[t.from].kind == Revenue && accounts[t.to].kind == ClientAccount)
    && (SideOf(t.purpose) == PaidIn ==> accounts[t.from].kind == ClientAccount && accounts[t.to].kind != ClientAccount)
  }

  ghost predicate RowsOk(orders: nat, m: Money) {
    forall n :: 0 <= n < |m.ledger| ==> RowOk(m.accounts, orders, m.ledger[n])
  }

  /** Exactly one charge, for the order's total, iff the order is completed. */
  ghost predicate ChargedOnce(orders: seq<Order>, m: Money) {
    forall o :: 0 <= o < |orders| ==> ExpectedCharges(m, orders[o], o) == Some(Charges(m.ledger, o))
  }

  ghost predicate ChargesAddUp(orders: seq<Order>, m: Money) {
    forall client: UserId, a: AccountId :: Find(m.accounts, client, ClientAccount) == Some(a) ==>
      NetOf(m.ledger, a, Charged) == SettledTotal(orders, client)
  }

  ghost predicate MoneyInv(orders: seq<Order>, m: Money) {
    MoneyOk(m) && RowsOk(|orders|, m) && ChargedOnce(orders, m) && ChargesAddUp(orders, m)
  }

  // ---- What the invariant says ----

  lemma {:induction false} NetSplits(ledger: seq<Txn>, a: AccountId)
    ensures LedgerNet(ledger, a) == NetOf(ledger, a, Charged) + NetOf(ledger, a, PaidIn) + NetOf(ledger, a, Posted)
  {
    if ledger != [] {
      NetSplits(Front(ledger), a);
    }
  }

  lemma {:induction false} PaymentsAreOutgoing(accounts: seq<Holding<AccountType>>, orders: nat, ledger: seq<Txn>, a: AccountId)
    requires forall n :: 0 <= n < |ledger| ==> RowOk(accounts, orders, ledger[n])
    requires a < |accounts| && accounts[a].kind == ClientAccount
    ensures NetOf(ledger, a, PaidIn) == -PaidOut(ledger, a)
  {
    if ledger != [] {
      PaymentsAreOutgoing(accounts, orders, Front(ledger), a);
    }
  }

  /**
    The debt identity: a client's balance is the totals of the completed orders, less the
    COMPLETED payments, plus net manual postings; and all balances sum to zero.
   */
  lemma {:induction false} DebtIdentity(orders: seq<Order>, m: Money, client: UserId, a: AccountId)
    requires MoneyInv(orders, m) && Find(m.accounts, client, ClientAccount) == Some(a)
    ensures m.balances[a] == SettledTotal(orders, client) - PaidOut(m.ledger, a) + NetOf(m.ledger, a, Posted)
    ensures Sum(m.balances) == 0
  {
    NetSplits(m.ledger, a);
    PaymentsAreOutgoing(m.accounts, |orders|, m.ledger, a);
  }

  // ---- Ledger folds under append and update ----

  lemma {:induction false} NetAppend(ledger: seq<Txn>, rows: seq<Txn>, a: AccountId, side: Side)
    ensures NetOf(ledger + rows, a, side) == NetOf(ledger, a, side) + NetOf(rows, a, side)
  {
    if rows == [] {
      assert ledger + rows == ledger;
    } else {
      assert Front(ledger + rows) == ledger + Front(rows);
      NetAppend(ledger, Front(rows), a, side);
    }
  }

  lemma {:induction false} ChargesAppend(ledger: seq<Txn>, rows: seq<Txn>, o: OrderId)
    ensures Charges(ledger + rows, o) == Charges(ledger, o) + Charges(rows, o)
  {
    if rows == [] {
      assert ledger + rows == ledger;
    } else {
      assert Front(ledger + rows) == ledger + Front(rows);
      ChargesAppend(ledger, Front(rows), o);
      var t := Last(rows);
      assert Last(ledger + rows) == t;
      if t.purpose == OrderCharge && t.order == Some(o) {
        assert Charges(ledger, o) + Charges(Front(rows), o) + [t] == Charges(ledger, o) + (Charges(Front(rows), o) + [t]);
      }
    }
  }

  /** Rows that are not charges leave the charges alone. */
  lemma {:induction false} NoCharges(rows: seq<Txn>, o: OrderId, a: AccountId)
    requires forall n :: 0 <= n < |rows| ==> rows[n].purpose != OrderCharge
    ensures Charges(rows, o) == [] && NetOf(rows, a, Charged) == 0
  {
    if rows != [] {
      NoCharges(Front(rows), o, a);
    }
  }

  lemma {:induction false} UnchargedOrder(accounts: seq<Holding<AccountType>>, ledger: seq<Txn>, o: OrderId)
    requires forall n :: 0 <= n < |ledger| ==> RowOk(accounts, o, ledger[n])
    ensures Charges(ledger, o) == []
  {
    if ledger != [] {
      UnchargedOrder(accounts, Front(ledger), o);
    }
  }

  lemma {:induction false} FoldsIgnoreResolution(ledger: seq<Txn>, n: nat, t: Txn, o: OrderId, a: AccountId)
    requires n < |ledger| && ledger[n].purpose != OrderCharge && t.purpose == ledger[n].purpose
    ensures Charges(ledger[n := t], o) == Charges(ledger, o)
    ensures NetOf(ledger[n := t], a, Charged) == NetOf(ledger, a, Charged)
  {
    if n == |ledger| - 1 {
      assert Front(ledger[n := t]) == Front(ledger);
    } else {
      assert Front(ledger[n := t]) == Front(ledger)[n := t];
      FoldsIgnoreResolution(Front(ledger), n, t, o, a);
    }
  }

  // ---- Steps that only post payments ----

  lemma {:induction false} PostingKeepsMoney(orders: seq<Order>, m: Money, t: Txn)
    requires MoneyInv(orders, m) && InsertTxn(m, t).Success?
    requires t.purpose != OrderCharge && RowOk(m.accounts, |orders|, t)
    ensures MoneyInv(orders, InsertTxn(m, t).value)
  {
    InsertKeepsOk(m, t);
    forall o
      ensures Charges(m.ledger + [t], o) == Charges(m.ledger, o)
    {
      ChargesAppend(m.ledger, [t], o);
      NoCharges([t], o, 0);
    }
    forall a
      ensures NetOf(m.ledger + [t], a, Charged) == NetOf(m.ledger, a, Charged)
    {
      NetAppend(m.ledger, [t], a, Charged);
      NoCharges([t], 0, a);
    }
  }

  lemma {:induction false} ResolvingKeepsMoney(orders: seq<Order>, m: Money, n: nat, status: TxnStatus)
    requires MoneyInv(orders, m) && Resolve(m, n, status).Success?
    ensures MoneyInv(orders, Resolve(m, n, status).value)
  {
    ResolveKeepsOk(m, n, status);
    var t := m.ledger[n].(status := status);
    var m' := Resolve(m, n, status).value;
    assert RowOk(m.accounts, |orders|, m.ledger[n]);
    forall o
      ensures Charges(m'.ledger, o) == Charges(m.ledger, o)
    {
      FoldsIgnoreResolution(m.ledger, n, t, o, 0);
    }
    forall a
      ensures NetOf(m'.ledger, a, Charged) == NetOf(m.ledger, a, Charged)
    {
      FoldsIgnoreResolution(m.ledger, n, t, 0, a);
    }
  }

  // ---- Steps that change orders ----

  /** For the money side only the client, the total and whether the order is completed matter. */
  predicate SameDue(a: Order, b: Order) {
    a.client == b.client && (Settled(a.status) <==> Settled(b.status)) && (Settled(a.status) ==> a.total == b.total)
  }

  ghost predicate OnlyUnsettledAdded(orders: seq<Order>, orders': seq<Order>) {
    && |orders| <= |orders'|
    && (forall o :: 0 <= o < |orders| ==> SameDue(orders[o], orders'[o]))
    && (forall o :: |orders| <= o < |orders'| ==> !Settled(orders'[o].status))
  }

  lemma {:induction false} TotalsOfSame(orders: seq<Order>, orders': seq<Order>, client: UserId)
    requires OnlyUnsettledAdded(orders, orders')
    ensures SettledTotal(orders', client) == SettledTotal(orders, client)
  {
    if |orders'| > |orders| {
      TotalsOfSame(orders, Front(orders'), client);
      assert Front(Dues(orders', client)) == Dues(Front(orders'), client);
    } else {
      assert Dues(orders', client) == Dues(orders, client);
    }
  }

  lemma {:induction false} OrdersKeepMoney(orders: seq<Order>, orders': seq<Order>, m: Money)
    requires MoneyInv(orders, m) && OnlyUnsettledAdded(orders, orders')
    ensures MoneyInv(orders', m)
  {
    forall o | 0 <= o < |orders'|
      ensures ExpectedCharges(m, orders'[o], o) == Some(Charges(m.ledger, o))
    {
      if o >= |orders| {
        UnchargedOrder(m.accounts, m.ledger, o);
      } else {
        assert SameDue(orders[o], orders'[o]);
      }
    }
    forall client: UserId
      ensures SettledTotal(orders', client) == SettledTotal(orders, client)
    {
      TotalsOfSame(orders, orders', client);
    }
  }

  // ---- Settlement ----

  /** The rows a settlement writes: one charge to the client, and no other charge. */
  lemma {:induction false} SettlementRows(m: Money, ord: Order, o: OrderId, m': Money) returns (legs: seq<Txn>)
    requires MoneyOk(m) && Settle(m, ord, o) == Success(m')
    ensures Find(m.accounts, ord.client, ClientAccount).Some? && Find(m.accounts, SYSTEM_USER, Revenue).Some?
    ensures MoneyOk(m') && m'.accounts == m.accounts && ord.total > 0
    ensures m'.ledger == m.ledger +
              ([Txn(Find(m.accounts, SYSTEM_USER, Revenue).value, Find(m.accounts, ord.client, ClientAccount).value,
                    ord.total, Some(o), Completed, OrderCharge)] + legs)
    ensures forall n :: 0 <= n < |legs| ==> SideOf(legs[n].purpose) == PaidIn && RowOk(m.accounts, 0, legs[n])
  {
    var client, revenue := Find(m.accounts, ord.client, ClientAccount), Find(m.accounts, SYSTEM_USER, Revenue);
    legs := PaymentLeg(m, ord, o, client.value).value;
    var rows := [Txn(revenue.value, client.value, ord.total, Some(o), Completed, OrderCharge)] + legs;
    InsertAllKeepsOk(m, rows);
    assert TxnAllowed(m.accounts, rows[0]);
    forall n | 0 <= n < |legs|
      ensures RowOk(m.accounts, 0, legs[n])
    {
      assert legs[n] == rows[n + 1];
    }
  }

  /** Order `o` becomes completed; the other orders stay. */
  ghost predicate Completes(orders: seq<Order>, orders': seq<Order>, o: OrderId) {
    && o < |orders'| && Settled(orders'[o].status)
    && (if o < |orders| then orders' == orders[o := orders'[o]] && !Settled(orders[o].status)
        else orders' == orders + [orders'[o]])
  }

  /** A ledger extended by one charge and by rows that are no charges. */
  lemma {:induction false} OneCharge(ledger: seq<Txn>, charge: Txn, legs: seq<Txn>, x: OrderId, b: AccountId)
    requires charge.purpose == OrderCharge && charge.order.Some?
    requires forall n :: 0 <= n < |legs| ==> legs[n].purpose != OrderCharge
    ensures Charges(ledger + ([charge] + legs), x) == Charges(ledger, x) + (if charge.order == Some(x) then [charge] else [])
    ensures NetOf(ledger + ([charge] + legs), b, Charged) == NetOf(ledger, b, Charged) + TxnEffect(charge, b)
  {
    ChargesAppend(ledger, [charge] + legs, x);
    ChargesAppend([charge], legs, x);
    NetAppend(ledger, [charge] + legs, b, Charged);
    NetAppend([charge], legs, b, Charged);
    NoCharges(legs, x, b);
    assert Front([charge]) == [];
  }

  /**
    Settling an order that was not completed before - or a new one - charges it once and adds its
    total to the client's debt.
   */
  lemma {:induction false} SettlingKeepsMoney(orders: seq<Order>, orders': seq<Order>, m: Money, o: OrderId, m': Money)
    requires MoneyInv(orders, m) && Completes(orders, orders', o)
    requires Settle(m, orders'[o], o) == Success(m')
    ensures MoneyInv(orders', m')
  {
    var ord := orders'[o];
    var legs := SettlementRows(m, ord, o, m');
    var a, r := Find(m.accounts, ord.client, ClientAccount).value, Find(m.accounts, SYSTEM_USER, Revenue).value;
    var charge := Txn(r, a, ord.total, Some(o), Completed, OrderCharge);
    SettlingRowsOk(orders, orders', m, o, m', charge, legs);
    SettlingChargesOnce(orders, orders', m, o, m', charge, legs);
    forall client: UserId, b: AccountId | Find(m'.accounts, client, ClientAccount) == Some(b)
      ensures NetOf(m'.ledger, b, Charged) == SettledTotal(orders', client)
    {
      SettledAfter(orders, orders', o, client);
      OneCharge(m.ledger, charge, legs, 0, b);
      assert b == a <==> client == ord.client;
    }
  }

  lemma {:induction false} SettlingRowsOk(
    orders: seq<Order>, orders': seq<Order>, m: Money, o: OrderId, m': Money, charge: Txn, legs: seq<Txn>)
    requires RowsOk(|orders|, m) && |orders| <= |orders'| && o < |orders'|
    requires m'.accounts == m.accounts && m'.ledger == m.ledger + ([charge] + legs)
    requires charge.purpose == OrderCharge && RowOk(m.accounts, |orders'|, charge)
    requires forall n :: 0 <= n < |legs| ==> legs[n].purpose != OrderCharge && RowOk(m.accounts, 0, legs[n])
    ensures RowsOk(|orders'|, m')
  {
    forall n | 0 <= n < |m'.ledger|
      ensures RowOk(m'.accounts, |orders'|, m'.ledger[n])
    {
      if n < |m.ledger| {
        assert RowOk(m.accounts, |orders|, m.ledger[n]);
      } else if n > |m.ledger| {
        assert m'.ledger[n] == legs[n - |m.ledger| - 1];
      }
    }
  }

  lemma {:induction false} SettlingChargesOnce(
    orders: seq<Order>, orders': seq<Order>, m: Money, o: OrderId, m': Money, charge: Txn, legs: seq<Txn>)
    requires ChargedOnce(orders, m) && RowsOk(|orders|, m) && Completes(orders, orders', o)
    requires m'.accounts == m.accounts && m'.ledger == m.ledger + ([charge] + legs)
    requires charge.purpose == OrderCharge && charge.order == Some(o)
    requires ExpectedCharges(m, orders'[o], o) == Some([charge])
    requires forall n :: 0 <= n < |legs| ==> legs[n].purpose != OrderCharge
    ensures ChargedOnce(orders', m')
  {
    forall x | 0 <= x < |orders'|
      ensures ExpectedCharges(m', orders'[x], x) == Some(Charges(m'.ledger, x))
    {
      OneCharge(m.ledger, charge, legs, x, 0);
      assert Charges(m.ledger, x) + [] == Charges(m.ledger, x) && [] + [charge] == [charge];
      if x != o {
        assert orders'[x] == orders[x];
      } else if o == |orders| {
        UnchargedOrder(m.accounts, m.ledger, o);
      }
      assert x < |orders| ==> ExpectedCharges(m, orders[x], x) == Some(Charges(m.ledger, x));
    }
  }

  lemma {:induction false} SettledAfter(orders: seq<Order>, orders': seq<Order>, o: OrderId, client: UserId)
    requires Completes(orders, orders', o)
    ensures SettledTotal(orders', client) ==
            SettledTotal(orders, client) + (if orders'[o].client == client then orders'[o].total else 0)
  {
    if o < |orders| {
      assert Dues(orders', client) == Dues(orders, client)[o := Due(orders'[o], client)];
      SumUpdate(Dues(orders, client), o, Due(orders'[o], client));
    } else {
      assert Front(Dues(orders', client)) == Dues(orders, client);
    }
  }

  // ---- New accounts ----

  lemma {:induction false} UntouchedAccount(accounts: seq<Holding<AccountType>>, ledger: seq<Txn>, a: AccountId)
    requires forall n :: 0 <= n < |ledger| ==> TxnAllowed(accounts, ledger[n])
    requires a >= |accounts|
    ensures LedgerNet(ledger, a) == 0 && NetOf(ledger, a, Charged) == 0
  {
    if ledger != [] {
      UntouchedAccount(accounts, Front(ledger), a);
    }
  }

  lemma {:induction false} NothingSettled(orders: seq<Order>, client: UserId)
    requires forall o :: 0 <= o < |orders| && Settled(orders[o].status) ==> orders[o].client != client
    ensures SettledTotal(orders, client) == 0
  {
    if orders != [] {
      NothingSettled(Front(orders), client);
      assert Front(Dues(orders, client)) == Dues(Front(orders), client);
    }
  }

  lemma {:induction false} OpeningKeepsMoney(orders: seq<Order>, m: Money, owner: UserId, kind: AccountType)
    requires MoneyInv(orders, m)
    ensures MoneyInv(orders, WithAccount(m, owner, kind))
  {
    var m' := WithAccount(m, owner, kind);
    UntouchedAccount(m.accounts, m.ledger, |m.accounts|);
    SumAppend(m.balances, [0]);
    assert Front([0]) == [];
    forall u: UserId, k: AccountType
      ensures Find(m.accounts, u, k).Some? ==> Find(m'.accounts, u, k) == Find(m.accounts, u, k)
      ensures Find(m.accounts, u, k).None? && Find(m'.accounts, u, k).Some? ==> Find(m'.accounts, u, k) == Some(|m.accounts|)
    {
      FindAppend(m.accounts, Holding(owner, kind), u, k);
    }
    assert RowsOk(|orders|, m') by {
      forall n | 0 <= n < |m'.ledger|
        ensures RowOk(m'.accounts, |orders|, m'.ledger[n])
      {
        assert RowOk(m.accounts, |orders|, m.ledger[n]);
      }
    }
    assert ChargedOnce(orders, m') by {
      forall o | 0 <= o < |orders|
        ensures ExpectedCharges(m', orders[o], o) == Some(Charges(m'.ledger, o))
      {
        assert ExpectedCharges(m, orders[o], o) == Some(Charges(m.ledger, o));
      }
    }
    forall client: UserId, a: AccountId | Find(m'.accounts, client, ClientAccount) == Some(a)
      ensures NetOf(m'.ledger, a, Charged) == SettledTotal(orders, client)
    {
      if Find(m.accounts, client, ClientAccount).None? {
        forall o | 0 <= o < |orders| && Settled(orders[o].status)
          ensures orders[o].client != client
        {
          assert ExpectedCharges(m, orders[o], o).Some?;
        }
        NothingSettled(orders, client);
      }
    }
  }
}
