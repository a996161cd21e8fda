/** The units of work of the contract service. */
module ContractSteps {
  import opened Base
  import opened Tally
  import opened Quotas
  import opened Database
  import opened Digits

  // ---- Cancelling the orders in preparation ----

  predicate Cancellable(ord: Order, c: ContractId) {
    ord.contract == Some(c) && (ord.status == New || ord.status == Assigned)
  }

  function CancelledRow(ord: Order, c: ContractId): Order {
    if Cancellable(ord, c) then WithStatus(ord, Cancelled).(reserved := false) else ord
  }

  /** The orders table after every cancellable order of the contract is cancelled. */
  function CancelledRows(orders: seq<Order>, c: ContractId): seq<Order> {
    seq(|orders|, i requires 0 <= i < |orders| => CancelledRow(orders[i], c))
  }

  /** The positions of the cancelled orders that hold quota. */
  function ReleasedItems(orders: seq<Order>, c: ContractId): Deltas {
    if orders == [] then []
    else
      var ord := Last(orders);
      ReleasedItems(Front(orders), c) +
      (if Cancellable(ord, c) && ord.reserved then Quantities(ord.lines) else [])
  }

  /** _cancel_inflight_orders: one pass over the orders, one decrement per product. */
  function CancelInflight(db: Db, c: ContractId): Result<Db> {
    var contracts :- ReleaseQuota(db.contracts, c, Collect(ReleasedItems(db.orders, c)));
    Success(db.(contracts := contracts, orders := CancelledRows(db.orders, c)))
  }

  // ---- Lifecycle ----

  /** A status change with its audit row. */
  function Moved(db: Db, c: ContractId, target: ContractStatus): Db
    requires c < |db.contracts|
  {
    var k := db.contracts[c];
    db.(contracts := db.contracts[c := k.(status := target, history := k.history + [ContractLog(k.status, target)])])
  }

  /** create_contract. */
  function CreateContract(
    db: Db, client: UserId, number: string, startDate: int, endDate: Option<int>, dueDays: int): Result<Db>
  {
    if !DueDaysAllowed(dueDays) then Failure(ValidationError)
    else if ActiveContract(db.contracts, client).Some? then Failure(ContractAlreadyActive)
    else if (endDate.Some? && endDate.value <= startDate) || (exists c :: 0 <= c < |db.contracts| && db.contracts[c].number == number)
    then Failure(DbIntegrity)
    else Success(db.(contracts := db.contracts + [Contract(client, number, Draft, startDate, endDate, dueDays, map[], [], [])]))
  }

  /** activate_contract and reinstate_contract: into ACTIVE from one source status. */
  function MakeActive(db: Db, c: ContractId, source: ContractStatus): Result<Db> {
    if c >= |db.contracts| then Failure(ContractNotFound)
    else if db.contracts[c].status != source then Failure(ContractStatusTransition)
    else
      var existing := ActiveContract(db.contracts, db.contracts[c].client);
      if existing.Some? && existing.value != c then Failure(ContractAlreadyActive)
      else Success(Moved(db, c, Active))
  }

  /** suspend_contract and terminate_contract. */
  function Stop(db: Db, c: ContractId, sources: set<ContractStatus>, target: ContractStatus): Result<Db> {
    if c >= |db.contracts| then Failure(ContractNotFound)
    else if db.contracts[c].status !in sources then Failure(ContractStatusTransition)
    else CancelInflight(Moved(db, c, target), c)
  }

  predicate Expirable(k: Contract, today: int) {
    k.status == Active && k.endDate.Some? && k.endDate.value < today
  }

  /** run_expire_job, over the first `n` contracts. */
  function ExpireContracts(db: Db, n: nat, today: int): (r: Result<Db>)
    requires n <= |db.contracts|
    ensures r.Success? ==> |r.value.contracts| == |db.contracts|
  {
    if n == 0 then Success(db)
    else
      var before :- ExpireContracts(db, n - 1, today);
      if !Expirable(before.contracts[n - 1], today) then Success(before)
      else
        var cancelled :- CancelInflight(before, n - 1);
        Success(Moved(cancelled, n - 1, Expired))
  }

  /** The days a contract may grant for payment. */
  predicate DueDaysAllowed(days: int) {
    0 < days <= 365
  }

  /**
    update_contract: only the terms that were sent, never the status. A sent end date may be null;
    a sent null for the due days meets the column's constraint.
   */
  function UpdateTerms(db: Db, c: ContractId, endDate: Option<Option<int>>, dueDays: Option<Option<int>>): Result<Db> {
    if dueDays.Some? && dueDays.value.Some? && !DueDaysAllowed(dueDays.value.value) then Failure(ValidationError)
    else if c >= |db.contracts| then Failure(ContractNotFound)
    else
      var k := db.contracts[c];
      var last := if endDate.Some? then endDate.value else k.endDate;
      if dueDays == Some(None) || (last.Some? && last.value <= k.startDate) then Failure(DbIntegrity)
      else
        var days := if dueDays.Some? then dueDays.value.value else k.dueDays;
        Success(db.(contracts := db.contracts[c := k.(endDate := last, dueDays := days)]))
  }

  // ---- Prices and quotas ----

  function WithItems(db: Db, c: ContractId, items: PriceList): Db
    requires c < |db.contracts|
  {
    db.(contracts := db.contracts[c := db.contracts[c].(items := items)])
  }

  /** set_price_item: a limit may not fall below what is already used. */
  function SetPriceItem(db: Db, c: ContractId, p: ProductId, price: int, quantity: int): Result<Db> {
    if price < 0 || quantity < 0 then Failure(ValidationError)
    else if c >= |db.contracts| then Failure(DbIntegrity)
    else
      var items := db.contracts[c].items;
      if p !in items then Success(WithItems(db, c, items[p := PriceItem(price, quantity, 0)]))
      else if quantity > 0 && quantity < items[p].used then Failure(PriceItemHasUsage)
      else Success(WithItems(db, c, items[p := items[p].(price := price, quantity := quantity)]))
  }

  /** remove_price_item: forbidden while the item is in use. */
  function RemovePriceItem(db: Db, c: ContractId, p: ProductId): Result<Db> {
    if c >= |db.contracts| || p !in db.contracts[c].items then Failure(PriceItemNotFound)
    else if db.contracts[c].items[p].used > 0 then Failure(PriceItemHasUsage)
    else Success(WithItems(db, c, db.contracts[c].items - {p}))
  }

  // ---- Invoices ----

  /** get_delivered_by_contract: settled orders created in the half-open window of whole days. */
  predicate InPeriod(ord: Order, c: ContractId, first: int, last: int) {
    && ord.contract == Some(c) && Settled(ord.status)
    && first * MICROS_PER_DAY <= ord.createdAt < (last + 1) * MICROS_PER_DAY
  }

  function Billed(orders: seq<Order>, c: ContractId, first: int, last: int): int {
    if orders == [] then 0
    else Billed(Front(orders), c, first, last) + (if InPeriod(Last(orders), c, first, last) then Last(orders).total else 0)
  }

  function InvoiceNumber(contract: string, year: nat, month: nat, sequence: nat): string {
    contract + "/" + Decimal(year) + "-" + Padded(month, 2) + "-" + Padded(sequence, 3)
  }

  predicate PeriodTaken(invoices: seq<Invoice>, first: int, last: int) {
    exists n :: 0 <= n < |invoices| && invoices[n].periodFrom == first && invoices[n].periodTo == last &&
                invoices[n].status != Annulled
  }

  function WithInvoices(db: Db, c: ContractId, invoices: seq<Invoice>): Db
    requires c < |db.contracts|
  {
    db.(contracts := db.contracts[c := db.contracts[c].(invoices := invoices)])
  }

  /** generate_invoice; `year` and `month` are those of the first day. */
  function GenerateInvoice(db: Db, c: ContractId, first: int, last: int, year: nat, month: nat): Result<Db> {
    if c >= |db.contracts| then Failure(ContractNotFound)
    else
      var k := db.contracts[c];
      var amount := Billed(db.orders, c, first, last);
      var number := InvoiceNumber(k.number, year, month, |k.invoices| + 1);
      if PeriodTaken(k.invoices, first, last) then Failure(DuplicateInvoicePeriod)
      else if last <= first || amount < 0 || (exists n :: 0 <= n < |k.invoices| && k.invoices[n].number == number)
      then Failure(DbIntegrity)
      else Success(WithInvoices(db, c, k.invoices + [Invoice(number, InvoiceDraft, first, last, amount, last + k.dueDays)]))
  }

  function InvoiceSources(target: InvoiceStatus): set<InvoiceStatus> {
    match target
    case Issued => {InvoiceDraft}
    case Paid => {Issued, Overdue}
    case Overdue => {Issued}
    case Annulled => {InvoiceDraft, Issued}
    case _ => {}
  }

  /** issue_invoice, mark_invoice_paid, cancel_invoice and the overdue job. */
  function MoveInvoice(db: Db, c: ContractId, n: nat, target: InvoiceStatus): Result<Db> {
    if c >= |db.contracts| || n >= |db.contracts[c].invoices| then Failure(InvoiceNotFound)
    else
      var invoices := db.contracts[c].invoices;
      if invoices[n].status !in InvoiceSources(target) then Failure(InvalidInvoiceTransition)
      else Success(WithInvoices(db, c, invoices[n := invoices[n].(status := target)]))
  }
}
