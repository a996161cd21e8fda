/** The contract commands in full: exactly when each commits, and everything it changes. */
module ContractLaws {
  import opened Base
  import opened Tally
  import opened Quotas
  import opened Database
  import opened ContractSteps
  import opened QuotaInvariant
  import opened System
  import opened Digits
  import opened Invoices

  // ---- Opening and activating ----

  /** A contract opens as an empty DRAFT, unless the client has an ACTIVE one or the number is taken. */
  lemma {:induction false} ContractOpened(
    db: Db, client: UserId, number: string, startDate: int, endDate: Option<int>, dueDays: int)
    ensures var out := Outcome(db, ContractWork(OpenContract(client, number, startDate, endDate, dueDays)));
            && (out.Success? <==>
                  && 1 <= dueDays <= 365 && (endDate.Some? ==> startDate < endDate.value)
                  && (forall c :: 0 <= c < |db.contracts| ==> db.contracts[c].number != number)
                  && (forall c :: 0 <= c < |db.contracts| && db.contracts[c].client == client ==> db.contracts[c].status != Active))
            && (out.Success? ==> out.value == db.(contracts := db.contracts +
                  [Contract(client, number, Draft, startDate, endDate, dueDays, map[], [], [])]))
  {
  }

  /** A contract with a new status and the audit row for it. */
  function Relabelled(k: Contract, target: ContractStatus): Contract {
    k.(status := target, history := k.history + [ContractLog(k.status, target)])
  }

  /** Activation leaves DRAFT, reinstatement leaves SUSPENDED; both need the client to have no ACTIVE contract. */
  lemma {:induction false} ContractActivated(db: Db, c: ContractId, reinstated: bool)
    ensures var out := Outcome(db, ContractWork(if reinstated then Reinstate(c) else Activate(c)));
            && (out.Success? <==>
                  && c < |db.contracts| && db.contracts[c].status == (if reinstated then Suspended else Draft)
                  && (forall d :: 0 <= d < |db.contracts| && db.contracts[d].client == db.contracts[c].client ==>
                        db.contracts[d].status != Active))
            && (out.Success? ==> out.value == db.(contracts := db.contracts[c := Relabelled(db.contracts[c], Active)]))
  {
  }

  // ---- Stopping ----

  /** Orders in preparation: not on the road yet. */
  predicate Preparing(ord: Order, c: ContractId) {
    ord.contract == Some(c) && (ord.status == New || ord.status == Assigned)
  }

  function CalledOff(ord: Order): Order {
    ord.(status := Cancelled, reserved := false, history := ord.history + [OrderLog(Some(ord.status), Cancelled)])
  }

  /** Orders of `stopped` contracts in preparation are cancelled with one log row; all others are untouched. */
  ghost predicate CallsOff(orders: seq<Order>, orders': seq<Order>, stopped: ContractId -> bool) {
    && |orders'| == |orders|
    && (forall o :: 0 <= o < |orders| ==>
          orders'[o] == if orders[o].contract.Some? && stopped(orders[o].contract.value) && Preparing(orders[o], orders[o].contract.value)
                        then CalledOff(orders[o]) else orders[o])
  }

  /** The terms stay; each counter is what the orders hold now. */
  ghost predicate Recounted(k: Contract, k': Contract, orders': seq<Order>, c: ContractId) {
    && k' == k.(items := k'.items) && k'.items.Keys == k.items.Keys
    && (forall p :: p in k.items ==> k'.items[p] == k.items[p].(used := Reserved(orders', c, p)))
  }

  function Only(c: ContractId): ContractId -> bool {
    (d: ContractId) => d == c
  }

  lemma {:induction false} RowsCalledOff(orders: seq<Order>, c: ContractId)
    ensures CallsOff(orders, CancelledRows(orders, c), Only(c))
  {
  }

  /** The bulk cancellation, order by order and counter by counter. */
  lemma {:induction false} InflightCalledOff(db: Db, c: ContractId)
    requires QuotaInv(db) && c < |db.contracts|
    ensures var out := CancelInflight(db, c);
            && out.Success? && out.value == db.(orders := out.value.orders, contracts := out.value.contracts)
            && CallsOff(db.orders, out.value.orders, Only(c))
            && |out.value.contracts| == |db.contracts| && Recounted(db.contracts[c], out.value.contracts[c], out.value.orders, c)
            && (forall d :: 0 <= d < |db.contracts| && d != c ==> out.value.contracts[d] == db.contracts[d])
  {
    CancelInflightKeepsQuota(db, c);
    RowsCalledOff(db.orders, c);
    var db' := CancelInflight(db, c).value;
    BulkReleaseIsExact(db, c);
    TermsKept(db.contracts, c, Collect(ReleasedItems(db.orders, c)));
    forall p | p in db.contracts[c].items
      ensures db'.contracts[c].items[p].used == Reserved(db'.orders, c, p)
    {
      assert Used(db'.contracts[c].items, p) == Reserved(db'.orders, c, p);
    }
  }

  lemma {:induction false} TermsKept(contracts: seq<Contract>, c: ContractId, deltas: Deltas)
    requires c < |contracts| && LimitsOk(contracts[c].items) && ReleaseQuota(contracts, c, deltas).Success?
    ensures |ReleaseQuota(contracts, c, deltas).value| == |contracts|
    ensures SameTerms(contracts[c].items, ReleaseQuota(contracts, c, deltas).value[c].items)
  {
    if deltas != [] {
      DecrementTotals(contracts[c].items, deltas);
    }
  }

  /**
    Suspension needs an ACTIVE contract, termination an ACTIVE or SUSPENDED one. Its orders that are
    NEW or ASSIGNED are cancelled, orders on the road and all others stay as they are.
   */
  lemma {:induction false} ContractStopped(db: Db, c: ContractId, terminated: bool)
    requires QuotaInv(db)
    ensures var out := Outcome(db, ContractWork(if terminated then Terminate(c) else Suspend(c)));
            var target := if terminated then Terminated else Suspended;
            && (out.Success? <==>
                  c < |db.contracts| && (db.contracts[c].status == Active || (terminated && db.contracts[c].status == Suspended)))
            && (out.Success? ==>
                  && out.value == db.(orders := out.value.orders, contracts := out.value.contracts)
                  && CallsOff(db.orders, out.value.orders, Only(c))
                  && |out.value.contracts| == |db.contracts|
                  && Recounted(Relabelled(db.contracts[c], target), out.value.contracts[c], out.value.orders, c)
                  && (forall d :: 0 <= d < |db.contracts| && d != c ==> out.value.contracts[d] == db.contracts[d]))
  {
    if c < |db.contracts| {
      InflightCalledOff(db, c);
      CancelThenMove(db, c, if terminated then Terminated else Suspended);
    }
  }

  // ---- Expiry ----

  /** ACTIVE, with a last day that has passed. */
  predicate Overdue(k: Contract, today: int) {
    k.status == Active && k.endDate.Some? && k.endDate.value < today
  }

  /** The overdue contracts among the first `n`. */
  function OverdueBefore(contracts: seq<Contract>, n: nat, today: int): ContractId -> bool {
    (c: ContractId) => c < n && c < |contracts| && Overdue(contracts[c], today)
  }

  /** The first `n` contracts have been through the expiry job. */
  ghost predicate ExpiredUpTo(db: Db, db': Db, n: nat, today: int) {
    && db' == db.(orders := db'.orders, contracts := db'.contracts) && |db'.contracts| == |db.contracts|
    && CallsOff(db.orders, db'.orders, OverdueBefore(db.contracts, n, today))
    && (forall c :: 0 <= c < |db.contracts| ==>
          if c < n && Overdue(db.contracts[c], today)
          then Recounted(Relabelled(db.contracts[c], Expired), db'.contracts[c], db'.orders, c)
          else db'.contracts[c] == db.contracts[c])
  }

  /** What other contracts' cancellations leave of a counter. */
  lemma {:induction false} OthersKeepClaims(orders: seq<Order>, orders': seq<Order>, c: ContractId, d: ContractId, p: ProductId)
    requires c != d && CallsOff(orders, orders', Only(c))
    ensures Reserved(orders', d, p) == Reserved(orders, d, p)
  {
    assert Claims(orders', d, p) == Claims(orders, d, p);
  }

  lemma {:induction false} CallsOffCompose(a: seq<Order>, b: seq<Order>, c: seq<Order>, contracts: seq<Contract>, n: nat, today: int)
    requires n < |contracts| && Overdue(contracts[n], today)
    requires CallsOff(a, b, OverdueBefore(contracts, n, today)) && CallsOff(b, c, Only(n))
    ensures CallsOff(a, c, OverdueBefore(contracts, n + 1, today))
  {
  }

  lemma {:induction false} ExpiryStep(db: Db, before: Db, n: nat, today: int)
    requires QuotaInv(before) && n < |db.contracts| && ExpiredUpTo(db, before, n, today) && Overdue(db.contracts[n], today)
    ensures CancelInflight(before, n).Success? && |CancelInflight(before, n).value.contracts| == |db.contracts|
    ensures ExpiredUpTo(db, Moved(CancelInflight(before, n).value, n, Expired), n + 1, today)
  {
    InflightCalledOff(before, n);
    var db' := Moved(CancelInflight(before, n).value, n, Expired);
    CallsOffCompose(db.orders, before.orders, db'.orders, db.contracts, n, today);
    forall c | 0 <= c < |db.contracts|
      ensures if c < n + 1 && Overdue(db.contracts[c], today)
              then Recounted(Relabelled(db.contracts[c], Expired), db'.contracts[c], db'.orders, c)
              else db'.contracts[c] == db.contracts[c]
    {
      if c < n && Overdue(db.contracts[c], today) {
        forall p
          ensures Reserved(db'.orders, c, p) == Reserved(before.orders, c, p)
        {
          OthersKeepClaims(before.orders, db'.orders, n, c, p);
        }
      }
    }
  }

  lemma {:induction false} NothingYet(db: Db, today: int)
    ensures ExpiredUpTo(db, db, 0, today)
  {
  }

  lemma {:induction false} JobUnfolds(db: Db, n: nat, today: int, before: Db)
    requires n < |db.contracts| && ExpireContracts(db, n, today) == Success(before)
    ensures |before.contracts| == |db.contracts|
    ensures !Expirable(before.contracts[n], today) ==> ExpireContracts(db, n + 1, today) == Success(before)
    ensures Expirable(before.contracts[n], today) && CancelInflight(before, n).Success? &&
            |CancelInflight(before, n).value.contracts| == |db.contracts| ==>
              ExpireContracts(db, n + 1, today) == Success(Moved(CancelInflight(before, n).value, n, Expired))
  {
  }

  lemma {:induction false} QuotaAfter(db: Db, n: nat, today: int, before: Db)
    requires QuotaInv(db) && n <= |db.contracts| && ExpireContracts(db, n, today) == Success(before)
    ensures QuotaInv(before)
  {
    ExpireKeepsQuota(db, n, today);
  }

  lemma {:induction false} ExpiredNext(db: Db, n: nat, today: int, before: Db) returns (db': Db)
    requires QuotaInv(before) && n < |db.contracts| && ExpireContracts(db, n, today) == Success(before)
    requires ExpiredUpTo(db, before, n, today)
    ensures ExpireContracts(db, n + 1, today) == Success(db') && ExpiredUpTo(db, db', n + 1, today)
  {
    JobUnfolds(db, n, today, before);
    ExpiryNext(db, before, n, today);
    db' := if Expirable(before.contracts[n], today) then Moved(CancelInflight(before, n).value, n, Expired) else before;
  }

  lemma {:induction false} ExpiredSoFar(db: Db, n: nat, today: int) returns (db': Db)
    requires QuotaInv(db) && n <= |db.contracts|
    ensures ExpireContracts(db, n, today) == Success(db') && ExpiredUpTo(db, db', n, today)
  {
    if n == 0 {
      db' := db;
      NothingYet(db, today);
    } else {
      var before := ExpiredSoFar(db, n - 1, today);
      QuotaAfter(db, n - 1, today, before);
      db' := ExpiredNext(db, n - 1, today, before);
    }
  }

  /** One turn of the job's loop. */
  lemma {:induction false} ExpiryNext(db: Db, before: Db, n: nat, today: int)
    requires QuotaInv(before) && n < |db.contracts| && ExpiredUpTo(db, before, n, today)
    ensures Expirable(before.contracts[n], today) ==>
              && CancelInflight(before, n).Success? && |CancelInflight(before, n).value.contracts| == |db.contracts|
              && ExpiredUpTo(db, Moved(CancelInflight(before, n).value, n, Expired), n + 1, today)
    ensures !Expirable(before.contracts[n], today) ==> ExpiredUpTo(db, before, n + 1, today)
  {
    assert before.contracts[n] == db.contracts[n];
    if Overdue(db.contracts[n], today) {
      ExpiryStep(db, before, n, today);
    } else {
      NotOverdue(db, before, n, today);
    }
  }

  lemma {:induction false} NotOverdue(db: Db, before: Db, n: nat, today: int)
    requires n < |db.contracts| && ExpiredUpTo(db, before, n, today) && !Overdue(db.contracts[n], today)
    ensures ExpiredUpTo(db, before, n + 1, today)
  {
  }

  /**
    The expiry job always commits: exactly the ACTIVE contracts whose last day has passed expire, their
    NEW and ASSIGNED orders are cancelled, and nothing else changes.
   */
  lemma {:induction false} ContractsExpired(db: Db, today: int)
    requires QuotaInv(db)
    ensures var out := Outcome(db, ContractWork(ExpireDue(today)));
            out.Success? && ExpiredUpTo(db, out.value, |db.contracts|, today)
  {
    var _ := ExpiredSoFar(db, |db.contracts|, today);
  }

  // ---- Terms and prices ----

  /** Only the terms that were sent change; null is an end date, never a number of days. */
  lemma {:induction false} TermsAmended(db: Db, c: ContractId, endDate: Option<Option<int>>, dueDays: Option<Option<int>>)
    ensures var out := Outcome(db, ContractWork(Amend(c, endDate, dueDays)));
            && (out.Success? <==>
                  && c < |db.contracts| && (dueDays.Some? ==> dueDays.value.Some? && 1 <= dueDays.value.value <= 365)
                  && (var last := if endDate.Some? then endDate.value else db.contracts[c].endDate;
                      last.Some? ==> db.contracts[c].startDate < last.value))
            && (out.Success? ==>
                  var k, k' := db.contracts[c], out.value.contracts[c];
                  && |out.value.contracts| == |db.contracts|
                  && out.value == db.(contracts := db.contracts[c := k'])
                  && k' == k.(endDate := if endDate.Some? then endDate.value else k.endDate,
                              dueDays := if dueDays.Some? then dueDays.value.value else k.dueDays))
  {
  }

  /** A price may be set at any time; a limit may not fall below what is used. A new item starts unused. */
  lemma {:induction false} PriceWasSet(db: Db, c: ContractId, p: ProductId, price: int, quantity: int)
    ensures var out := Outcome(db, ContractWork(SetPrice(c, p, price, quantity)));
            && (out.Success? <==>
                  && price >= 0 && quantity >= 0 && c < |db.contracts|
                  && (p in db.contracts[c].items && quantity > 0 ==> db.contracts[c].items[p].used <= quantity))
            && (out.Success? ==>
                  var k := db.contracts[c];
                  var used := if p in k.items then k.items[p].used else 0;
                  out.value == db.(contracts := db.contracts[c := k.(items := k.items[p := PriceItem(price, quantity, used)])]))
  {
  }

  /** A price item goes exactly when it exists and nothing of it is used. */
  lemma {:induction false} PriceWasRemoved(db: Db, c: ContractId, p: ProductId)
    ensures var out := Outcome(db, ContractWork(RemovePrice(c, p)));
            && (out.Success? <==>
                  c < |db.contracts| && p in db.contracts[c].items && db.contracts[c].items[p].used <= 0)
            && (out.Success? ==>
                  && |out.value.contracts| == |db.contracts|
                  && out.value == db.(contracts := db.contracts[c := db.contracts[c].(items := out.value.contracts[c].items)])
                  && p !in out.value.contracts[c].items
                  && (forall x :: x != p ==> (x in out.value.contracts[c].items <==> x in db.contracts[c].items))
                  && (forall x :: x in out.value.contracts[c].items ==> out.value.contracts[c].items[x] == db.contracts[c].items[x]))
  {
  }

  // ---- Invoices ----

  /** What one order adds to the bill of contract `c` for the days `first` to `last`, both included. */
  function BillShare(ord: Order, c: ContractId, first: int, last: int): int {
    if && ord.contract == Some(c) && ord.status in {Delivered, PickupCompleted}
       && first * MICROS_PER_DAY <= ord.createdAt && ord.createdAt < last * MICROS_PER_DAY + MICROS_PER_DAY
    then ord.total else 0
  }

  function BillShares(orders: seq<Order>, c: ContractId, first: int, last: int): seq<int> {
    seq(|orders|, i requires 0 <= i < |orders| => BillShare(orders[i], c, first, last))
  }

  lemma {:induction false} BilledIsSum(orders: seq<Order>, c: ContractId, first: int, last: int)
    ensures Billed(orders, c, first, last) == Sum(BillShares(orders, c, first, last))
  {
    if orders != [] {
      BilledIsSum(Front(orders), c, first, last);
      assert Front(BillShares(orders, c, first, last)) == BillShares(Front(orders), c, first, last);
    }
  }

  /** Some invoice for exactly these days has not been cancelled. */
  predicate Invoiced(k: Contract, first: int, last: int) {
    exists n :: 0 <= n < |k.invoices| && (k.invoices[n].periodFrom, k.invoices[n].periodTo) == (first, last) &&
                k.invoices[n].status in {InvoiceDraft, Issued, PartiallyPaid, Paid, InvoiceStatus.Overdue}
  }

  /** An invoice is a DRAFT for the sum of the period's completed orders, due after the contract's days. */
  lemma {:induction false} InvoiceWritten(db: Db, c: ContractId, first: int, last: int, year: nat, month: nat)
    ensures var out := Outcome(db, ContractWork(Bill(c, first, last, year, month)));
            out.Success? ==>
              && c < |db.contracts| && first < last
              && var k, amount := db.contracts[c], Sum(BillShares(db.orders, c, first, last));
              var number := k.number + "/" + Decimal(year) + "-" + Padded(month, 2) + "-" + Padded(|k.invoices| + 1, 3);
              && amount >= 0
              && !Invoiced(k, first, last)
              && out.value == db.(contracts := db.contracts[c :=
                   k.(invoices := k.invoices + [Invoice(number, InvoiceDraft, first, last, amount, last + k.dueDays)])])
  {
    BilledIsSum(db.orders, c, first, last);
  }

  /** It is written exactly when the period is in order, has no live invoice and its sum is not negative. */
  lemma {:induction false} InvoiceWrittenIff(db: Db, c: ContractId, first: int, last: int, year: nat, month: nat)
    requires c < |db.contracts| && InvoicesOk(db.contracts[c].invoices)
    ensures Outcome(db, ContractWork(Bill(c, first, last, year, month))).Success? <==>
            first < last && Sum(BillShares(db.orders, c, first, last)) >= 0 && !Invoiced(db.contracts[c], first, last)
  {
    BilledIsSum(db.orders, c, first, last);
    GenerateKeepsInvoices(db, c, first, last, year, month);
  }

  /** The ways an invoice may go. */
  const INVOICE_MOVES: set<(InvoiceStatus, InvoiceStatus)> :=
    {(InvoiceDraft, Issued), (Issued, Paid), (InvoiceStatus.Overdue, Paid), (Issued, InvoiceStatus.Overdue), (InvoiceDraft, Annulled), (Issued, Annulled)}

  lemma {:induction false} InvoiceMoved(db: Db, c: ContractId, n: nat, target: InvoiceStatus)
    ensures var out := Outcome(db, ContractWork(ChangeInvoice(c, n, target)));
            && (out.Success? <==>
                  c < |db.contracts| && n < |db.contracts[c].invoices| &&
                  (db.contracts[c].invoices[n].status, target) in INVOICE_MOVES)
            && (out.Success? ==>
                  var k := db.contracts[c];
                  out.value == db.(contracts := db.contracts[c := k.(invoices := k.invoices[n := k.invoices[n].(status := target)])]))
  {
  }
}
