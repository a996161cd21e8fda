/** The contract service as it works: step by step on a session. */
module ContractService {
  import opened Base
  import opened Tally
  import opened Quotas
  import opened Database
  import opened ContractSteps
  import opened UnitOfWork

  // ---- Bulk cancellation ----

  /** What bulk_cancel_by_contract remembers of one order: id, old status, quota flag. */
  datatype Seized = Seized(id: OrderId, status: OrderStatus, reserved: bool)

  /** The orders the bulk cancellation selects, in table order. */
  function Selection(orders: seq<Order>, c: ContractId): seq<Seized> {
    if orders == [] then []
    else
      var ord := Last(orders);
      Selection(Front(orders), c) +
      (if Cancellable(ord, c) then [Seized(|orders| - 1, ord.status, ord.reserved)] else [])
  }

  /** How far a pass over the selection has come, as a position in the orders table. */
  function Reached(chosen: seq<Seized>, n: nat, size: nat): nat
    requires n <= |chosen|
  {
    if n == |chosen| then size else chosen[n].id
  }

  lemma {:induction false} SelectionExact(orders: seq<Order>, c: ContractId)
    ensures forall n :: 0 <= n < |Selection(orders, c)| ==>
              var s := Selection(orders, c)[n];
              s.id < |orders| && Cancellable(orders[s.id], c) && s == Seized(s.id, orders[s.id].status, orders[s.id].reserved)
    ensures forall n, m :: 0 <= n < m < |Selection(orders, c)| ==> Selection(orders, c)[n].id < Selection(orders, c)[m].id
  {
    if orders != [] {
      var front := Front(orders);
      SelectionExact(front, c);
      assert forall i :: 0 <= i < |front| ==> front[i] == orders[i];
    }
  }

  /** Between two selected orders there is nothing to cancel. */
  lemma {:induction false} SelectionComplete(orders: seq<Order>, c: ContractId, i: OrderId)
    requires i < |orders| && Cancellable(orders[i], c)
    ensures exists n :: 0 <= n < |Selection(orders, c)| && Selection(orders, c)[n].id == i
  {
    var chosen := Selection(orders, c);
    if i == |orders| - 1 {
      assert chosen[|chosen| - 1].id == i;
    } else {
      var front := Front(orders);
      assert front[i] == orders[i];
      SelectionComplete(front, c, i);
      var n :| 0 <= n < |Selection(front, c)| && Selection(front, c)[n].id == i;
      assert chosen[n].id == i;
    }
  }

  lemma {:induction false} NothingBetween(orders: seq<Order>, c: ContractId, n: nat, i: OrderId)
    requires n < |Selection(orders, c)| && i < |orders|
    requires Cancellable(orders[i], c)
    ensures i < Reached(Selection(orders, c), n + 1, |orders|) <==>
            i < Reached(Selection(orders, c), n, |orders|) || i == Selection(orders, c)[n].id
  {
    var chosen := Selection(orders, c);
    SelectionExact(orders, c);
    SelectionComplete(orders, c, i);
    var m :| 0 <= m < |chosen| && chosen[m].id == i;
    assert m < n ==> chosen[m].id < chosen[n].id;
    assert m > n ==> chosen[n].id < chosen[m].id;
    assert n + 1 < |chosen| && m < n + 1 ==> chosen[m].id < chosen[n + 1].id;
    assert n + 1 < |chosen| && m > n + 1 ==> chosen[n + 1].id < chosen[m].id;
  }

  lemma {:induction false} NothingBefore(orders: seq<Order>, c: ContractId, i: OrderId)
    requires i < |orders| && i < Reached(Selection(orders, c), 0, |orders|)
    ensures !Cancellable(orders[i], c)
  {
    if Cancellable(orders[i], c) {
      SelectionExact(orders, c);
      SelectionComplete(orders, c, i);
    }
  }

  /** bulk_cancel_by_contract: the status only; flags and logs come later. */
  method BulkCancelByContract(uow: UnitOfWork, c: ContractId) returns (cancelled: seq<Seized>)
    modifies uow`orders
    ensures cancelled == Selection(old(uow.orders), c)
    ensures |uow.orders| == |old(uow.orders)|
    ensures forall i :: 0 <= i < |uow.orders| ==>
              uow.orders[i] == if Cancellable(old(uow.orders)[i], c) then old(uow.orders)[i].(status := Cancelled)
                               else old(uow.orders)[i]
  {
    ghost var before := uow.orders;
    cancelled := [];
    for n := 0 to |uow.orders|
      invariant |uow.orders| == |before|
      invariant cancelled == Selection(before[..n], c)
      invariant forall i :: 0 <= i < |before| ==>
                  uow.orders[i] == if i < n && Cancellable(before[i], c) then before[i].(status := Cancelled) else before[i]
    {
      assert Front(before[..n + 1]) == before[..n];
      var ord := uow.orders[n];
      if Cancellable(ord, c) {
        cancelled := cancelled + [Seized(n, ord.status, ord.reserved)];
        uow.orders := uow.orders[n := ord.(status := Cancelled)];
      }
    }
    assert before[..|before|] == before;
  }

  /** `product_totals`: the quantities of many positions, totalled per product. */
  method ProductTotals(items: seq<(ProductId, int)>) returns (totals: seq<(ProductId, int)>)
    ensures totals == Collect(items)
  {
    totals := [];
    for n := 0 to |items|
      invariant totals == Collect(items[..n])
    {
      assert Front(items[..n + 1]) == items[..n];
      totals := Bump(totals, items[n].0, items[n].1);
    }
    assert items[..|items|] == items;
  }

  /** get_by_orders, for the orders that hold quota. */
  function PositionsOf(orders: seq<Order>, chosen: seq<Seized>): seq<(ProductId, int)>
    requires forall n :: 0 <= n < |chosen| ==> chosen[n].id < |orders|
  {
    if chosen == [] then []
    else
      PositionsOf(orders, Front(chosen)) +
      (if Last(chosen).reserved then Quantities(orders[Last(chosen).id].lines) else [])
  }

  /** Only the lines of the orders matter. */
  lemma {:induction false} PositionsStay(orders: seq<Order>, orders': seq<Order>, chosen: seq<Seized>)
    requires |orders| <= |orders'|
    requires forall n :: 0 <= n < |chosen| ==> chosen[n].id < |orders|
    requires forall i :: 0 <= i < |orders| ==> orders[i].lines == orders'[i].lines
    ensures PositionsOf(orders', chosen) == PositionsOf(orders, chosen)
  {
    if chosen != [] {
      assert forall n :: 0 <= n < |Front(chosen)| ==> Front(chosen)[n] == chosen[n];
      PositionsStay(orders, orders', Front(chosen));
    }
  }

  lemma {:induction false} PositionsAreReleased(orders: seq<Order>, c: ContractId)
    ensures forall n :: 0 <= n < |Selection(orders, c)| ==> Selection(orders, c)[n].id < |orders|
    ensures PositionsOf(orders, Selection(orders, c)) == ReleasedItems(orders, c)
  {
    SelectionExact(orders, c);
    if orders != [] {
      var front, ord := Front(orders), Last(orders);
      PositionsAreReleased(front, c);
      SelectionExact(front, c);
      PositionsStay(front, orders, Selection(front, c));
      if Cancellable(ord, c) {
        assert Front(Selection(orders, c)) == Selection(front, c);
      } else {
        assert Selection(orders, c) == Selection(front, c);
      }
    }
  }

  /** Clearing the quota flags of the cancelled orders. */
  method ClearFlags(uow: UnitOfWork, cancelled: seq<Seized>)
    requires forall n :: 0 <= n < |cancelled| ==> cancelled[n].id < |uow.orders|
    modifies uow`orders
    ensures |uow.orders| == |old(uow.orders)|
    ensures forall i :: 0 <= i < |uow.orders| ==> uow.orders[i] == old(uow.orders)[i].(reserved := uow.orders[i].reserved)
    ensures forall i :: 0 <= i < |uow.orders| ==>
              uow.orders[i].reserved ==
              (old(uow.orders)[i].reserved && !exists n :: 0 <= n < |cancelled| && cancelled[n].reserved && cancelled[n].id == i)
  {
    for k := 0 to |cancelled|
      invariant |uow.orders| == |old(uow.orders)|
      invariant forall i :: 0 <= i < |uow.orders| ==> uow.orders[i] == old(uow.orders)[i].(reserved := uow.orders[i].reserved)
      invariant forall i :: 0 <= i < |uow.orders| ==>
                  uow.orders[i].reserved ==
                  (old(uow.orders)[i].reserved && !exists n :: 0 <= n < k && cancelled[n].reserved && cancelled[n].id == i)
    {
      var id := cancelled[k].id;
      if cancelled[k].reserved {
        uow.orders := uow.orders[id := uow.orders[id].(reserved := false)];
      }
    }
  }

  /** One audit row per cancelled order. */
  method LogCancellations(uow: UnitOfWork, cancelled: seq<Seized>, c: ContractId, ghost before: seq<Order>)
    requires cancelled == Selection(before, c) && |uow.orders| == |before|
    modifies uow`orders
    ensures |uow.orders| == |before|
    ensures forall i :: 0 <= i < |before| ==>
              uow.orders[i] == if Cancellable(before[i], c)
                               then Logged(old(uow.orders)[i], before[i].status) else old(uow.orders)[i]
  {
    SelectionExact(before, c);
    forall i | 0 <= i < |before| && i < Reached(cancelled, 0, |before|)
      ensures !Cancellable(before[i], c)
    {
      NothingBefore(before, c, i);
    }
    for n := 0 to |cancelled|
      invariant |uow.orders| == |before|
      invariant forall i :: 0 <= i < |before| ==>
                  uow.orders[i] == if Cancellable(before[i], c) && i < Reached(cancelled, n, |before|)
                                   then Logged(old(uow.orders)[i], before[i].status) else old(uow.orders)[i]
    {
      var id := cancelled[n].id;
      forall i | 0 <= i < |before| && Cancellable(before[i], c)
        ensures i < Reached(cancelled, n + 1, |before|) <==> i < Reached(cancelled, n, |before|) || i == id
      {
        NothingBetween(before, c, n, i);
      }
      uow.orders := uow.orders[id := Logged(uow.orders[id], cancelled[n].status)];
    }
  }

  function Logged(ord: Order, status: OrderStatus): Order {
    ord.(history := ord.history + [OrderLog(Some(status), Cancelled)])
  }

  /** The flags and the audit rows together complete what the bulk update began. */
  method FinishCancellation(uow: UnitOfWork, cancelled: seq<Seized>, c: ContractId, ghost before: seq<Order>)
    requires cancelled == Selection(before, c) && |uow.orders| == |before|
    requires forall i :: 0 <= i < |before| ==>
               uow.orders[i] == if Cancellable(before[i], c) then before[i].(status := Cancelled) else before[i]
    modifies uow`orders
    ensures uow.orders == CancelledRows(before, c)
  {
    SelectionExact(before, c);
    ClearFlags(uow, cancelled);
    LogCancellations(uow, cancelled, c, before);
    forall i | 0 <= i < |before|
      ensures uow.orders[i] == CancelledRow(before[i], c)
    {
      if Cancellable(before[i], c) {
        SelectionComplete(before, c, i);
      }
    }
  }

  /** _cancel_inflight_orders. */
  method CancelInflightOrders(uow: UnitOfWork, c: ContractId) returns (r: Result<()>)
    modifies uow`orders, uow`contracts
    ensures uow.Follows(CancelInflight(old(uow.View()), c), r)
  {
    ghost var before := uow.orders;
    var cancelled := BulkCancelByContract(uow, c);
    PositionsAreReleased(before, c);
    PositionsStay(before, uow.orders, cancelled);
    var totals := ProductTotals(PositionsOf(uow.orders, cancelled));
    if totals != [] {
      var _ :- uow.DecrementQuantitiesUsed(c, totals);
    }
    FinishCancellation(uow, cancelled, c, before);
    return Success(());
  }

  // ---- Lifecycle ----

  /** A status update with its audit row. */
  method MoveContract(uow: UnitOfWork, c: ContractId, target: ContractStatus)
    requires c < |uow.contracts|
    modifies uow`contracts
    ensures uow.View() == Moved(old(uow.View()), c, target)
  {
    var k := uow.contracts[c];
    uow.contracts := uow.contracts[c := k.(status := target, history := k.history + [ContractLog(k.status, target)])];
  }

  method CreateContract(
    uow: UnitOfWork, client: UserId, number: string, startDate: int, endDate: Option<int>, dueDays: int)
    returns (r: Result<()>)
    modifies uow`contracts
    ensures uow.Follows(ContractSteps.CreateContract(old(uow.View()), client, number, startDate, endDate, dueDays), r)
  {
    if !DueDaysAllowed(dueDays) { return Failure(ValidationError); }
    if ActiveContract(uow.contracts, client).Some? { return Failure(ContractAlreadyActive); }
    if endDate.Some? && endDate.value <= startDate { return Failure(DbIntegrity); }
    for n := 0 to |uow.contracts|
      invariant uow.contracts == old(uow.contracts)
      invariant forall i :: 0 <= i < n ==> uow.contracts[i].number != number
    {
      if uow.contracts[n].number == number { return Failure(DbIntegrity); }
    }
    uow.contracts := uow.contracts + [Contract(client, number, Draft, startDate, endDate, dueDays, map[], [], [])];
    return Success(());
  }

  /** activate_contract and reinstate_contract. */
  method ActivateContract(uow: UnitOfWork, c: ContractId, source: ContractStatus) returns (r: Result<()>)
    modifies uow`contracts
    ensures uow.Follows(MakeActive(old(uow.View()), c, source), r)
  {
    if c >= |uow.contracts| { return Failure(ContractNotFound); }
    if uow.contracts[c].status != source { return Failure(ContractStatusTransition); }
    var existing := ActiveContract(uow.contracts, uow.contracts[c].client);
    if existing.Some? && existing.value != c { return Failure(ContractAlreadyActive); }
    MoveContract(uow, c, Active);
    return Success(());
  }

  /** suspend_contract and terminate_contract. */
  method StopContract(uow: UnitOfWork, c: ContractId, sources: set<ContractStatus>, target: ContractStatus)
    returns (r: Result<()>)
    modifies uow`orders, uow`contracts
    ensures uow.Follows(Stop(old(uow.View()), c, sources, target), r)
  {
    if c >= |uow.contracts| { return Failure(ContractNotFound); }
    if uow.contracts[c].status !in sources { return Failure(ContractStatusTransition); }
    MoveContract(uow, c, target);
    r := CancelInflightOrders(uow, c);
  }

  /** run_expire_job. */
  method RunExpireJob(uow: UnitOfWork, today: int) returns (r: Result<()>)
    modifies uow`orders, uow`contracts
    ensures uow.Follows(ExpireContracts(old(uow.View()), |old(uow.contracts)|, today), r)
  {
    ghost var before := uow.View();
    for n := 0 to |uow.contracts|
      invariant |uow.contracts| == |before.contracts|
      invariant ExpireContracts(before, n, today) == Success(uow.View())
    {
      if Expirable(uow.contracts[n], today) {
        var cancelled := CancelInflightOrders(uow, n);
        if cancelled.Failure? {
          ExpireStops(before, n + 1, |before.contracts|, today);
          return cancelled;
        }
        MoveContract(uow, n, Expired);
      }
    }
    return Success(());
  }

  lemma {:induction false} ExpireStops(db: Db, n: nat, size: nat, today: int)
    requires n <= size <= |db.contracts| && ExpireContracts(db, n, today).Failure?
    ensures ExpireContracts(db, size, today) == ExpireContracts(db, n, today)
    decreases size
  {
    if n < size {
      ExpireStops(db, n, size - 1, today);
    }
  }

  /** update_contract. */
  method UpdateContract(uow: UnitOfWork, c: ContractId, endDate: Option<Option<int>>, dueDays: Option<Option<int>>)
    returns (r: Result<()>)
    modifies uow`contracts
    ensures uow.Follows(UpdateTerms(old(uow.View()), c, endDate, dueDays), r)
  {
    if dueDays.Some? && dueDays.value.Some? && !DueDaysAllowed(dueDays.value.value) { return Failure(ValidationError); }
    if c >= |uow.contracts| { return Failure(ContractNotFound); }
    var k := uow.contracts[c];
    if endDate.Some? {
      k := k.(endDate := endDate.value);
    }
    if dueDays.Some? {
      if dueDays.value.None? { return Failure(DbIntegrity); }
      k := k.(dueDays := dueDays.value.value);
    }
    if k.endDate.Some? && k.endDate.value <= k.startDate { return Failure(DbIntegrity); }
    uow.contracts := uow.contracts[c := k];
    return Success(());
  }

  // ---- Prices and invoices ----

  method SetPriceItem(uow: UnitOfWork, c: ContractId, p: ProductId, price: int, quantity: int) returns (r: Result<()>)
    modifies uow`contracts
    ensures uow.Follows(ContractSteps.SetPriceItem(old(uow.View()), c, p, price, quantity), r)
  {
    if price < 0 || quantity < 0 { return Failure(ValidationError); }
    if c >= |uow.contracts| { return Failure(DbIntegrity); }
    var items := uow.contracts[c].items;
    if p in items {
      if quantity > 0 && quantity < items[p].used { return Failure(PriceItemHasUsage); }
      items := items[p := items[p].(price := price, quantity := quantity)];
    } else {
      items := items[p := PriceItem(price, quantity, 0)];
    }
    uow.contracts := uow.contracts[c := uow.contracts[c].(items := items)];
    return Success(());
  }

  method RemovePriceItem(uow: UnitOfWork, c: ContractId, p: ProductId) returns (r: Result<()>)
    modifies uow`contracts
    ensures uow.Follows(ContractSteps.RemovePriceItem(old(uow.View()), c, p), r)
  {
    if c >= |uow.contracts| || p !in uow.contracts[c].items { return Failure(PriceItemNotFound); }
    if uow.contracts[c].items[p].used > 0 { return Failure(PriceItemHasUsage); }
    uow.contracts := uow.contracts[c := uow.contracts[c].(items := uow.contracts[c].items - {p})];
    return Success(());
  }

  /** `sum(o.total_amount for o in delivered_orders)`. */
  method BilledTotal(orders: seq<Order>, c: ContractId, first: int, last: int) returns (amount: int)
    ensures amount == Billed(orders, c, first, last)
  {
    amount := 0;
    for n := 0 to |orders|
      invariant amount == Billed(orders[..n], c, first, last)
    {
      assert Front(orders[..n + 1]) == orders[..n];
      if InPeriod(orders[n], c, first, last) {
        amount := amount + orders[n].total;
      }
    }
    assert orders[..|orders|] == orders;
  }

  method GenerateInvoice(uow: UnitOfWork, c: ContractId, first: int, last: int, year: nat, month: nat)
    returns (r: Result<()>)
    modifies uow`contracts
    ensures uow.Follows(ContractSteps.GenerateInvoice(old(uow.View()), c, first, last, year, month), r)
  {
    if c >= |uow.contracts| { return Failure(ContractNotFound); }
    var k := uow.contracts[c];
    if PeriodTaken(k.invoices, first, last) { return Failure(DuplicateInvoicePeriod); }
    var amount := BilledTotal(uow.orders, c, first, last);
    var number := InvoiceNumber(k.number, year, month, |k.invoices| + 1);
    if last <= first || amount < 0 || exists n :: 0 <= n < |k.invoices| && k.invoices[n].number == number {
      return Failure(DbIntegrity);
    }
    var invoice := Invoice(number, InvoiceDraft, first, last, amount, last + k.dueDays);
    uow.contracts := uow.contracts[c := k.(invoices := k.invoices + [invoice])];
    return Success(());
  }

  /** issue_invoice, mark_invoice_paid, cancel_invoice and one row of run_overdue_job. */
  method ChangeInvoiceStatus(uow: UnitOfWork, c: ContractId, n: nat, target: InvoiceStatus) returns (r: Result<()>)
    modifies uow`contracts
    ensures uow.Follows(MoveInvoice(old(uow.View()), c, n, target), r)
  {
    if c >= |uow.contracts| || n >= |uow.contracts[c].invoices| { return Failure(InvoiceNotFound); }
    var k := uow.contracts[c];
    if k.invoices[n].status !in InvoiceSources(target) { return Failure(InvalidInvoiceTransition); }
    uow.contracts := uow.contracts[c := k.(invoices := k.invoices[n := k.invoices[n].(status := target)])];
    return Success(());
  }
}
