/** What holds over every run of the back office, from start-up and between any two moments. */
module RunTheorems {
  import opened Base
  import opened Tally
  import opened Quotas
  import opened StockLedger
  import opened MoneyLedger
  import opened Database
  import opened Tara
  import opened OrderSteps
  import opened ContractSteps
  import opened QuotaInvariant
  import opened MoneyInvariant
  import opened Lifecycle
  import opened OrderEvolution
  import opened Invoices
  import opened System
  import opened RunInvariant
  import BulkCancel

  // ---- In every reachable state ----

  /**
    Quotas: the hand-kept counter is exactly what the contract's live orders hold, the limit is
    respected, and an order holds quota iff it is on a contract and not cancelled.
   */
  lemma {:induction false} QuotasAreExact(cmds: seq<Command>, c: ContractId, p: ProductId)
    ensures var db := Run(EMPTY, cmds);
            && (c < |db.contracts| && p in db.contracts[c].items ==>
                  var item := db.contracts[c].items[p];
                  item.used == Reserved(db.orders, c, p) && (item.quantity == 0 || item.used <= item.quantity))
            && (c < |db.contracts| && p !in db.contracts[c].items ==> Reserved(db.orders, c, p) == 0)
            && (forall o :: 0 <= o < |db.orders| ==>
                  (db.orders[o].reserved <==> db.orders[o].contract.Some? && db.orders[o].status != Cancelled))
  {
    StartsInOrder();
    RunKeepsInv(EMPTY, cmds);
    var db := Run(EMPTY, cmds);
    forall o | 0 <= o < |db.orders|
      ensures db.orders[o].reserved <==> db.orders[o].contract.Some? && db.orders[o].status != Cancelled
    {
      assert OrderOk(db.orders[o], db.contracts);
    }
    if c < |db.contracts| {
      assert Used(db.contracts[c].items, p) == Reserved(db.orders, c, p);
    }
  }

  predicate SameActiveClient(a: Contract, b: Contract) {
    a.status == Active && b.status == Active && a.client == b.client
  }

  /** Contracts: an order in preparation has an ACTIVE contract; a client has at most one. */
  lemma {:induction false} ContractsAreActive(cmds: seq<Command>, o: OrderId, c: ContractId, d: ContractId)
    ensures var db := Run(EMPTY, cmds);
            && (o < |db.orders| && db.orders[o].contract == Some(c) && InPreparation(db.orders[o].status) ==>
                  c < |db.contracts| && db.contracts[c].status == Active && db.contracts[c].client == db.orders[o].client)
            && (c < |db.contracts| && d < |db.contracts| && SameActiveClient(db.contracts[c], db.contracts[d]) ==> c == d)
  {
    StartsInOrder();
    RunKeepsInv(EMPTY, cmds);
    var db := Run(EMPTY, cmds);
    if o < |db.orders| {
      assert OrderOk(db.orders[o], db.contracts);
    }
  }

  /** Settlement: exactly one charge, of the order's total, iff the order is completed. */
  lemma {:induction false} SettledExactlyOnce(cmds: seq<Command>, o: OrderId)
    ensures var db := Run(EMPTY, cmds);
            o < |db.orders| ==>
              var charges := Charges(db.money.ledger, o);
              && |charges| == (if Settled(db.orders[o].status) then 1 else 0)
              && (charges != [] ==>
                    && charges[0].amount == db.orders[o].total && charges[0].status == Completed
                    && Find(db.money.accounts, SYSTEM_USER, Revenue) == Some(charges[0].from)
                    && Find(db.money.accounts, db.orders[o].client, ClientAccount) == Some(charges[0].to))
  {
    StartsInOrder();
    RunKeepsInv(EMPTY, cmds);
    var db := Run(EMPTY, cmds);
    if o < |db.orders| {
      assert ExpectedCharges(db.money, db.orders[o], o) == Some(Charges(db.money.ledger, o));
    }
  }

  /** Debt: settled totals less COMPLETED payments plus manual postings; the books sum to zero. */
  lemma {:induction false} BalanceIsDebt(cmds: seq<Command>, client: UserId)
    ensures var db := Run(EMPTY, cmds);
            && Sum(db.money.balances) == 0
            && (Find(db.money.accounts, client, ClientAccount).Some? ==>
                  var a := Find(db.money.accounts, client, ClientAccount).value;
                  db.money.balances[a] ==
                  SettledTotal(db.orders, client) - PaidOut(db.money.ledger, a) + NetOf(db.money.ledger, a, Posted))
  {
    StartsInOrder();
    RunKeepsInv(EMPTY, cmds);
    var db := Run(EMPTY, cmds);
    var found := Find(db.money.accounts, client, ClientAccount);
    if found.Some? {
      DebtIdentity(db.orders, db.money, client, found.value);
    }
  }

  /** Stock: the balances table is the ledger fold, and no inventory but the vendor owes anything. */
  lemma {:induction false} StockIsLedgerFold(cmds: seq<Command>, i: InventoryId, p: ProductId)
    ensures var s := Run(EMPTY, cmds).stock;
            && Balance(s, i, p) == LedgerBalance(s.ledger, i, p)
            && (Exists(s, i) && s.inventories[i].kind != VirtualVendor ==> Balance(s, i, p) >= 0)
  {
    StartsInOrder();
    RunKeepsInv(EMPTY, cmds);
    BalanceIsLedgerFold(Run(EMPTY, cmds).stock, i, p);
  }

  /** Audit: every log is a path of its status machine that ends at the current status. */
  lemma {:induction false} LogsArePaths(cmds: seq<Command>, o: OrderId, c: ContractId)
    ensures var db := Run(EMPTY, cmds);
            (o < |db.orders| ==> OrderPath(db.orders[o])) && (c < |db.contracts| ==> ContractPath(db.contracts[c]))
  {
    StartsInOrder();
    RunKeepsInv(EMPTY, cmds);
  }

  /** Billing: a contract's invoice numbers are distinct, and so are its periods unless annulled. */
  lemma {:induction false} InvoicesAreUnique(cmds: seq<Command>, c: ContractId, n: nat, k: nat)
    ensures var db := Run(EMPTY, cmds);
            c < |db.contracts| && n < k < |db.contracts[c].invoices| ==>
              var a, b := db.contracts[c].invoices[n], db.contracts[c].invoices[k];
              && a.number != b.number
              && (a.status != Annulled && b.status != Annulled ==> a.periodFrom != b.periodFrom || a.periodTo != b.periodTo)
  {
    StartsInOrder();
    RunKeepsInv(EMPTY, cmds);
    var db := Run(EMPTY, cmds);
    if c < |db.contracts| && n < k < |db.contracts[c].invoices| {
      assert InvoicesOk(db.contracts[c].invoices);
      NumbersDiffer(db.contracts[c].invoices, n, k);
    }
  }

  // ---- Between any two moments ----

  /** What no step may undo. */
  ghost predicate Advances(db: Db, db': Db) {
    && OrdersEvolve(db.orders, db'.orders)
    && KeepsClosed(db.contracts, db'.contracts)
    && db.stock.ledger <= db'.stock.ledger
    && RowsKept(db.money.ledger, db'.money.ledger)
  }

  lemma {:induction false} AdvancesTransitive(a: Db, b: Db, c: Db)
    requires Advances(a, b) && Advances(b, c)
    ensures Advances(a, c)
  {
    EvolvesTransitive(a.orders, b.orders, c.orders);
    forall n | 0 <= n < |a.money.ledger|
      ensures c.money.ledger[n] == a.money.ledger[n].(status := c.money.ledger[n].status)
      ensures a.money.ledger[n].status != Pending ==> c.money.ledger[n].status == a.money.ledger[n].status
    {
      assert b.money.ledger[n] == a.money.ledger[n].(status := b.money.ledger[n].status);
      assert c.money.ledger[n] == b.money.ledger[n].(status := c.money.ledger[n].status);
    }
  }

  lemma {:induction false} StepAdvances(db: Db, cmd: Command)
    requires Inv(db)
    ensures Advances(db, Step(db, cmd))
  {
    EvolvesReflexive(db.orders);
    match cmd
    case OrderWork(c) =>
      if OrderOutcome(db, c).Success? {
        OrderWorkOk(db, c);
      }
    case ContractWork(c) =>
      if ContractOutcome(db, c).Success? {
        ContractWorkOk(db, c);
      }
    case StockWork(c) =>
      if StockOutcome(db, c).Success? {
        StockWorkFrame(db, c);
        StockWorkOk(db, c);
      }
    case MoneyWork(c) =>
      if MoneyOutcome(db, c).Success? {
        MoneyWorkFrame(db, c);
        MoneyWorkOk(db, c);
      }
  }

  /**
    Nothing finished is ever undone: completed and cancelled orders keep lines, total and status,
    TERMINATED and EXPIRED contracts stay so, the stock ledger only grows, and money rows keep
    everything but the one resolution of a PENDING status.
   */
  lemma {:induction false} NothingIsUndone(db: Db, cmds: seq<Command>)
    requires Inv(db)
    ensures Advances(db, Run(db, cmds))
  {
    if cmds == [] {
      EvolvesReflexive(db.orders);
    } else {
      NothingIsUndone(db, Front(cmds));
      RunKeepsInv(db, Front(cmds));
      StepAdvances(Run(db, Front(cmds)), Last(cmds));
      AdvancesTransitive(db, Run(db, Front(cmds)), Run(db, cmds));
    }
  }

  /** A completed order is the same order at the end of any further run, whatever is asked of it. */
  lemma {:induction false} CompletedOrdersAreFrozen(db: Db, cmds: seq<Command>, o: OrderId)
    requires Inv(db) && o < |db.orders| && Settled(db.orders[o].status)
    ensures var after := Run(db, cmds);
            && o < |after.orders|
            && after.orders[o] == db.orders[o].(history := after.orders[o].history)
            && Charges(after.money.ledger, o) == Charges(db.money.ledger, o)
  {
    NothingIsUndone(db, cmds);
    RunKeepsInv(db, cmds);
    var after := Run(db, cmds);
    assert Evolves(db.orders[o], after.orders[o]);
    AccountsStay(db, cmds, SYSTEM_USER, Revenue);
    AccountsStay(db, cmds, db.orders[o].client, ClientAccount);
    assert ExpectedCharges(db.money, db.orders[o], o) == Some(Charges(db.money.ledger, o));
    assert ExpectedCharges(after.money, after.orders[o], o) == Some(Charges(after.money.ledger, o));
  }

  /** Once found, an account stays the one that is found. */
  lemma {:induction false} AccountsStay(db: Db, cmds: seq<Command>, owner: UserId, kind: AccountType)
    requires Inv(db) && Find(db.money.accounts, owner, kind).Some?
    ensures Find(Run(db, cmds).money.accounts, owner, kind) == Find(db.money.accounts, owner, kind)
  {
    if cmds != [] {
      AccountsStay(db, Front(cmds), owner, kind);
      RunKeepsInv(db, Front(cmds));
      AccountsAfterStep(Run(db, Front(cmds)), Last(cmds), owner, kind);
    }
  }

  lemma {:induction false} AccountsAfterStep(db: Db, cmd: Command, owner: UserId, kind: AccountType)
    requires Inv(db) && Find(db.money.accounts, owner, kind).Some?
    ensures Find(Step(db, cmd).money.accounts, owner, kind) == Find(db.money.accounts, owner, kind)
  {
    match cmd
    case OrderWork(c) =>
      if OrderOutcome(db, c).Success? {
        OrderWorkOk(db, c);
      }
    case ContractWork(c) =>
      if ContractOutcome(db, c).Success? {
        ContractWorkOk(db, c);
      }
    case StockWork(c) =>
      if StockOutcome(db, c).Success? {
        StockWorkFrame(db, c);
      }
    case MoneyWork(c) =>
      if MoneyOutcome(db, c).Success? {
        MoneyWorkAccounts(db, c, owner, kind);
      }
  }

  lemma {:induction false} MoneyWorkAccounts(db: Db, cmd: MoneyCommand, owner: UserId, kind: AccountType)
    requires MoneyOutcome(db, cmd).Success? && Find(db.money.accounts, owner, kind).Some?
    ensures Find(MoneyOutcome(db, cmd).value.money.accounts, owner, kind) == Find(db.money.accounts, owner, kind)
  {
    match cmd
    case OpenAccount(u, k) => FindAppend(db.money.accounts, Holding(u, k), owner, kind);
    case _ =>
  }

  /** A delivery order never has two lines of one product. */
  lemma {:induction false} DeliveriesAreUnrepeated(cmds: seq<Command>, o: OrderId)
    ensures var db := Run(EMPTY, cmds);
            o < |db.orders| && db.orders[o].saleType == Delivery ==> DistinctLines(db.orders[o].lines)
  {
    StartsInOrder();
    NothingIsUndone(EMPTY, cmds);
  }

  /**
    In every reachable state, stopping a contract does what cancelling its orders in preparation one
    at a time would do, in whatever order, and it always succeeds.
   */
  lemma {:induction false} StoppingIsOneByOne(cmds: seq<Command>, c: ContractId, ids: seq<OrderId>)
    ensures var db := Run(EMPTY, cmds);
            && c < |db.contracts| && BulkCancel.Distinct(ids)
            && (forall o: OrderId :: o in ids <==> o < |db.orders| && Cancellable(db.orders[o], c))
            ==> CancelInflight(db, c).Success? && CancelInflight(db, c) == BulkCancel.CancelEach(db, ids)
  {
    StartsInOrder();
    RunKeepsInv(EMPTY, cmds);
    var db := Run(EMPTY, cmds);
    if && c < |db.contracts| && BulkCancel.Distinct(ids)
       && (forall o: OrderId :: o in ids <==> o < |db.orders| && Cancellable(db.orders[o], c)) {
      ComparableRows(db, c);
      BulkCancel.BulkIsOneByOne(db, c, ids);
      CancelInflightKeepsQuota(db, c);
    }
  }

  lemma {:induction false} ComparableRows(db: Db, c: ContractId)
    requires QuotaInv(db) && c < |db.contracts|
    ensures BulkCancel.RowsOk(db, c)
  {
    assert LimitsOk(db.contracts[c].items);
    forall o | 0 <= o < |db.orders|
      ensures LinesAllowed(db.orders[o].lines) && (db.orders[o].contract == Some(c) ==> db.orders[o].payment == ByContract)
    {
      assert OrderOk(db.orders[o], db.contracts);
    }
  }

  // ---- The quota failure is unreachable ----

  lemma {:induction false} TransferErrors(s: Stock, d: Document, items: seq<(ProductId, int)>)
    ensures StockTransfer(s, d, items) != Failure(QuotaLeak) && PostDocument(s, d, items) != Failure(QuotaLeak)
  {
    PostErrors(s, d, Positive(items));
    PostErrors(s, d, items);
  }

  lemma {:induction false} CoverTaraErrors(
    s: Stock, address: InventoryId, cart: Cart, exchange: seq<(ProductId, int)>, capitalise: bool, now: int)
    ensures CoverTara(s, address, cart, exchange, capitalise, now) != Failure(QuotaLeak)
  {
    TransferErrors(s, Document(s.vendor, address, InitialBalance, None, now), Deficits(s, address, cart, exchange));
  }

  lemma {:induction false} PickupErrors(db: Db, o: OrderId, catalog: Catalog, now: int)
    requires o < |db.orders|
    ensures HandleWarehousePickup(db, o, catalog, now) != Failure(QuotaLeak)
  {
    var ord := db.orders[o];
    SettleErrors(db.money, ord, o);
    if ord.warehouse.Some? {
      PickupStockErrors(db.stock, ord.warehouse.value, ord.clientInventory, ord.lines, ord.client == WALKIN_USER, catalog, o, now);
    }
  }

  lemma {:induction false} PickupStockErrors(
    s: Stock, w: InventoryId, client: InventoryId, lines: seq<Line>, walkin: bool, catalog: Catalog, o: OrderId, now: int)
    ensures PickupStock(s, w, client, lines, walkin, catalog, o, now) != Failure(QuotaLeak)
  {
    forall s: Stock, d: Document, items: seq<(ProductId, int)>
      ensures StockTransfer(s, d, items) != Failure(QuotaLeak)
    {
      TransferErrors(s, d, items);
    }
  }

  lemma {:induction false} CheckoutErrors(db: Db, req: Checkout, catalog: Catalog, today: int, now: int)
    ensures CreateOrder(db, req, catalog, today, now) != Failure(QuotaLeak)
  {
    CoverTaraErrors(db.stock, req.address, req.cart, Exchange(catalog, req.cart), req.capitalise, now);
    var c := PayingContract(db.contracts, req.client, req.b2b, today);
    if c.Success? {
      IncrementTotals(db.contracts[c.value].items, req.cart);
    }
  }

  lemma {:induction false} AddLineErrors(db: Db, o: OrderId, p: ProductId, quantity: int, requester: Option<UserId>, catalog: Catalog)
    ensures AddProduct(db, o, p, quantity, requester, catalog) != Failure(QuotaLeak)
  {
    if o < |db.orders| && OnContract(db.orders[o]) && db.orders[o].contract.value < |db.contracts| {
      IncrementTotals(db.contracts[db.orders[o].contract.value].items, [(p, quantity)]);
    }
  }

  lemma {:induction false} SaleErrors(
    db: Db, buyer: Option<UserId>, w: InventoryId, cart: Cart, capitalise: bool, catalog: Catalog, now: int)
    ensures CreateWarehouseSale(db, buyer, w, cart, capitalise, catalog, now) != Failure(QuotaLeak)
  {
    var address := Find(db.stock.inventories, BuyerOf(buyer), Client);
    if address.Some? {
      var exchange := if BuyerOf(buyer) == WALKIN_USER then [] else Exchange(catalog, cart);
      CoverTaraErrors(db.stock, address.value, cart, exchange, capitalise, now);
    }
    var db1 := OpenSale(db, BuyerOf(buyer), w, cart, capitalise, catalog, now);
    if db1.Success? && |db1.value.orders| == |db.orders| + 1 {
      PickupErrors(db1.value, |db.orders|, catalog, now);
    }
  }

  lemma {:induction false} FinishErrors(db: Db, o: OrderId, catalog: Catalog, now: int)
    ensures CompletePickup(db, o, catalog, now) != Failure(QuotaLeak)
  {
    if o < |db.orders| {
      PickupErrors(db.(orders := db.orders[o := WithStatus(db.orders[o], PickupCompleted)]), o, catalog, now);
    }
  }

  lemma {:induction false} OrderWorkNeverLeaks(db: Db, cmd: OrderCommand)
    requires QuotaInv(db)
    ensures OrderOutcome(db, cmd) != Failure(QuotaLeak)
  {
    match cmd
    case PlaceOrder(req, catalog, today, now) => CheckoutErrors(db, req, catalog, today, now);
    case SellAtWarehouse(buyer, w, cart, cap, catalog, now) => SaleErrors(db, buyer, w, cart, cap, catalog, now);
    case FinishPickup(o, catalog, now) => FinishErrors(db, o, catalog, now);
    case AddLine(o, p, q, requester, catalog) => AddLineErrors(db, o, p, q, requester, catalog);
    case RemoveLine(o, p, requester) => RemoveProductKeepsQuota(db, o, p, requester);
    case AssignTo(o, courier, isCourier) =>
    case ChangeStatus(o, target, actual, requester, catalog, now) =>
      UpdateStatusKeepsQuota(db, o, target, actual, requester, catalog, now);
    case DropStale(staleNew, staleAssigned) =>
      CancelStaleKeepsQuota(db, staleNew, New);
      CancelStaleKeepsQuota(CancelStale(db, staleNew, New).value, staleAssigned, Assigned);
  }

  lemma {:induction false} ContractWorkNeverLeaks(db: Db, cmd: ContractCommand)
    requires QuotaInv(db)
    ensures ContractOutcome(db, cmd) != Failure(QuotaLeak)
  {
    match cmd
    case Suspend(c) => StopKeepsQuota(db, c, {Active}, Suspended);
    case Terminate(c) => StopKeepsQuota(db, c, {Active, Suspended}, Terminated);
    case ExpireDue(today) => ExpireKeepsQuota(db, |db.contracts|, today);
    case _ =>
  }

  /**
    No order or contract step of any run ever fails with the "quota leak" error: a price item is
    never missing when quota is returned.
   */
  lemma {:induction false} QuotaNeverLeaks(cmds: seq<Command>, work: OrderCommand, contractWork: ContractCommand)
    ensures OrderOutcome(Run(EMPTY, cmds), work) != Failure(QuotaLeak)
    ensures ContractOutcome(Run(EMPTY, cmds), contractWork) != Failure(QuotaLeak)
  {
    StartsInOrder();
    RunKeepsInv(EMPTY, cmds);
    OrderWorkNeverLeaks(Run(EMPTY, cmds), work);
    ContractWorkNeverLeaks(Run(EMPTY, cmds), contractWork);
  }

  /**
    In every reachable state, each of the four places that return quota - cancelling an order,
    removing a line, a partial delivery, the bulk cancellation - is plain subtraction: the clamp at
    zero never bites.
   */
  lemma {:induction false} ClampNeverBites(cmds: seq<Command>, o: OrderId, i: nat, actual: Cart, c: ContractId)
    ensures var db := Run(EMPTY, cmds);
            && (c < |db.contracts| ==> ReleasesExactly(db.contracts, c, Collect(ReleasedItems(db.orders, c))))
            && (o < |db.orders| && db.orders[o].contract.Some? && db.orders[o].status != Cancelled ==>
                  var lines, paying := db.orders[o].lines, db.orders[o].contract.value;
                  && ReleasesExactly(db.contracts, paying, Quantities(lines))
                  && (i < |lines| ==> ReleasesExactly(db.contracts, paying, [(lines[i].product, lines[i].quantity)]))
                  && (DeliveredLines(lines, actual).Success? ==>
                        var delivered := DeliveredLines(lines, actual).value;
                        |delivered| == |lines| && ReleasesExactly(db.contracts, paying, Undelivered(lines, delivered))))
  {
    StartsInOrder();
    RunKeepsInv(EMPTY, cmds);
    ReleasesAreExact(Run(EMPTY, cmds), o, i, actual, c);
  }

  lemma {:induction false} ReleasesAreExact(db: Db, o: OrderId, i: nat, actual: Cart, c: ContractId)
    requires QuotaInv(db)
    ensures c < |db.contracts| ==> ReleasesExactly(db.contracts, c, Collect(ReleasedItems(db.orders, c)))
    ensures o < |db.orders| && db.orders[o].contract.Some? && db.orders[o].status != Cancelled ==>
              var lines, paying := db.orders[o].lines, db.orders[o].contract.value;
              && ReleasesExactly(db.contracts, paying, Quantities(lines))
              && (i < |lines| ==> ReleasesExactly(db.contracts, paying, [(lines[i].product, lines[i].quantity)]))
              && (DeliveredLines(lines, actual).Success? ==>
                    var delivered := DeliveredLines(lines, actual).value;
                    |delivered| == |lines| && ReleasesExactly(db.contracts, paying, Undelivered(lines, delivered)))
  {
    if c < |db.contracts| {
      BulkReleaseIsExact(db, c);
    }
    if o < |db.orders| && db.orders[o].contract.Some? && db.orders[o].status != Cancelled {
      OrderReleaseIsExact(db, o);
      if i < |db.orders[o].lines| {
        LineReleaseIsExact(db, o, i);
      }
      if DeliveredLines(db.orders[o].lines, actual).Success? {
        UndeliveredReleaseIsExact(db, o, actual);
      }
    }
  }
}
