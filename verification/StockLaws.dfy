/** The stock commands in full: exactly when each commits, and everything it changes. */
module StockLaws {
  import opened Base
  import opened Tally
  import opened StockLedger
  import opened Database
  import opened Tara
  import opened StockSteps
  import opened StockFlows
  import opened System
  import CartContainers
  import StepFlows
  import RunInvariant
  import TaraProofs

  /** Which document may go from which kind of inventory to which. */
  const ROUTES: set<(TransferType, InventoryType, InventoryType)> :=
    {(CourierLoad, Warehouse, Courier), (CourierReturn, Courier, Warehouse),
     (ClientDelivery, Courier, Client), (ClientReturn, Client, Courier),
     (LossWriteOff, Warehouse, VirtualLoss), (LossWriteOff, Courier, VirtualLoss), (LossWriteOff, Client, VirtualLoss),
     (InventoryFinding, VirtualVendor, Warehouse), (InventoryFinding, VirtualVendor, Courier),
     (InitialBalance, VirtualVendor, Client), (InitialBalance, VirtualVendor, Warehouse), (InitialBalance, VirtualVendor, Courier),
     (WarehouseSale, Warehouse, Client), (WarehouseTaraReturn, Client, Warehouse)}

  lemma {:induction false} RoutesAreThese(t: TransferType, a: InventoryType, b: InventoryType)
    ensures a in ValidRoute(t).0 && b in ValidRoute(t).1 <==> (t, a, b) in ROUTES
  {
    match t
    case CourierLoad =>
    case CourierReturn =>
    case ClientDelivery =>
    case ClientReturn =>
    case LossWriteOff =>
    case InventoryFinding =>
    case InitialBalance =>
    case WarehouseSale =>
    case WarehouseTaraReturn =>
  }

  predicate AllOnSale(catalog: Catalog, items: Cart) {
    forall i :: 0 <= i < |items| ==> items[i].0 in catalog && catalog[items[i].0].active
  }

  /** The rows of one document, in order, follow the ledger of before. */
  ghost predicate Appends(s: Stock, s': Stock, from: InventoryId, to: InventoryId, items: Cart, t: TransferType, order: Option<OrderId>, now: int) {
    && |s'.ledger| == |s.ledger| + |items| && s.ledger <= s'.ledger
    && (forall n :: 0 <= n < |items| ==>
          s'.ledger[|s.ledger| + n] == StockRow(items[n].0, from, to, items[n].1, t, order, now))
  }

  lemma {:induction false} PostAppends(s: Stock, d: Document, items: Cart, s': Stock)
    requires d.from != d.to && StockLedger.Post(s, d, items) == Success(s')
    ensures Appends(s, s', d.from, d.to, items, d.transfer, d.order, d.at)
  {
    PostEffect(s, d, items, s');
  }

  /** Where a request comes from and goes to: adjustments start or end at a system inventory. */
  function From(s: Stock, req: TransferRequest): Option<InventoryId> {
    match req.transfer
    case InventoryFinding => Some(s.vendor)
    case InitialBalance => Some(s.vendor)
    case _ => req.from
  }

  function To(s: Stock, req: TransferRequest): Option<InventoryId> {
    match req.transfer
    case LossWriteOff => Some(s.loss)
    case _ => req.to
  }

  /** Everything create_transfer asks of a request, apart from the stock. */
  predicate WellFormed(s: Stock, req: TransferRequest, catalog: Catalog) {
    && req.items != [] && AllPositive(req.items) && AllOnSale(catalog, req.items)
    && (req.transfer in {InventoryFinding, InitialBalance, LossWriteOff} ==> req.mayAdjust)
    && From(s, req).Some? && To(s, req).Some? && From(s, req).value != To(s, req).value
    && Exists(s, From(s, req).value) && Exists(s, To(s, req).value)
    && (req.transfer, s.inventories[From(s, req).value].kind, s.inventories[To(s, req).value].kind) in ROUTES
  }

  lemma {:induction false} RouteIffWellFormed(s: Stock, req: TransferRequest, catalog: Catalog)
    ensures Route(s, req, catalog).Success? <==> WellFormed(s, req, catalog)
    ensures Route(s, req, catalog).Success? ==> Route(s, req, catalog).value == (From(s, req).value, To(s, req).value)
  {
    var from, to := From(s, req), To(s, req);
    if from.Some? && to.Some? && Exists(s, from.value) && Exists(s, to.value) {
      RoutesAreThese(req.transfer, s.inventories[from.value].kind, s.inventories[to.value].kind);
    }
  }

  /**
    A transfer commits exactly when it is well formed and its source is the vendor or holds the
    totals. It then moves exactly its items and writes one ledger row for each.
   */
  lemma {:induction false} Transferred(db: Db, req: TransferRequest, catalog: Catalog, now: int)
    requires StockOk(db.stock)
    ensures var out, s := Outcome(db, StockWork(MoveStock(req, catalog, now))), db.stock;
            && (out.Success? <==>
                  WellFormed(s, req, catalog) &&
                  (s.inventories[From(s, req).value].kind == VirtualVendor || Covers(s, From(s, req).value, req.items)))
            && (out.Success? ==>
                  var from, to := From(s, req).value, To(s, req).value;
                  && out.value == db.(stock := out.value.stock) && out.value.stock.inventories == s.inventories
                  && Appends(s, out.value.stock, from, to, req.items, req.transfer, None, now)
                  && (forall i, p :: Balance(out.value.stock, i, p) ==
                        Balance(s, i, p) + At(i, to, Quantity(req.items, p)) - At(i, from, Quantity(req.items, p))))
  {
    RouteIffWellFormed(db.stock, req, catalog);
    TransferFlow(db, req, catalog, now);
    var out := CreateTransfer(db, req, catalog, now);
    if out.Success? {
      PostAppends(db.stock, Document(From(db.stock, req).value, To(db.stock, req).value, req.transfer, None, now),
                  req.items, out.value.stock);
    }
  }

  /** An administrator's credit commits exactly for positive quantities at a client's inventory. */
  lemma {:induction false} TaraCredited(db: Db, address: InventoryId, items: Cart, now: int)
    requires StockOk(db.stock)
    ensures var out, s := Outcome(db, StockWork(CreditTara(address, items, now))), db.stock;
            && (out.Success? <==> AllPositive(items) && Exists(s, address) && s.inventories[address].kind == Client)
            && (out.Success? ==>
                  && out.value == db.(stock := out.value.stock) && out.value.stock.inventories == s.inventories
                  && StepFlows.Credits(s, out.value.stock, address, items)
                  && Appends(s, out.value.stock, s.vendor, address, items, InitialBalance, None, now))
  {
    if AllPositive(items) && Exists(db.stock, address) && db.stock.inventories[address].kind == Client {
      var d := Document(db.stock.vendor, address, InitialBalance, None, now);
      PostSucceedsIff(db.stock, d, items);
      var s' := StockLedger.Post(db.stock, d, items).value;
      PostEffect(db.stock, d, items, s');
      PostAppends(db.stock, d, items, s');
    }
  }

  /**
    A client's credit for a cart: nothing for a cart that asks for no container; otherwise it commits
    exactly at the client's own inventory and adds, per container, what the positions lack.
   */
  ghost predicate CreditsDeficit(db: Db, client: UserId, address: InventoryId, cart: Cart, catalog: Catalog, out: Result<Db>) {
    var s := db.stock;
    && (out.Success? <==>
          && cart != [] && AllPositive(cart)
          && (CartContainers.AnyWanted(catalog, cart) ==>
                Exists(s, address) && s.inventories[address].kind == Client && s.inventories[address].owner == client))
    && (out.Success? ==>
          && out.value == db.(stock := out.value.stock) && out.value.stock.inventories == s.inventories
          && CreditsEach(s, out.value.stock, address, catalog, cart))
  }

  /** Container by container, what the cart's positions lack comes from the vendor to the address. */
  ghost predicate CreditsEach(s: Stock, s': Stock, address: InventoryId, catalog: Catalog, cart: Cart) {
    forall i, p :: Balance(s', i, p) == Balance(s, i, p) +
      At(i, address, CartContainers.Lacking(catalog, cart, p, Balance(s, address, p))) -
      At(i, s.vendor, CartContainers.Lacking(catalog, cart, p, Balance(s, address, p)))
  }

  lemma {:induction false} CreditsAreLacks(s: Stock, s': Stock, address: InventoryId, catalog: Catalog, cart: Cart)
    requires StepFlows.Credits(s, s', address, Deficits(s, address, [], Exchange(catalog, cart)))
    ensures CreditsEach(s, s', address, catalog, cart)
  {
    forall i, p
      ensures Balance(s', i, p) == Balance(s, i, p) +
                At(i, address, CartContainers.Lacking(catalog, cart, p, Balance(s, address, p))) -
                At(i, s.vendor, CartContainers.Lacking(catalog, cart, p, Balance(s, address, p)))
    {
      CartContainers.DeficitsAreLacks(s, address, [], catalog, cart, p);
    }
  }

  lemma {:induction false} DeficitCreditedSpec(
    db: Db, client: UserId, address: InventoryId, cart: Cart, catalog: Catalog, now: int)
    requires StockOk(db.stock)
    ensures CreditsDeficit(db, client, address, cart, catalog, CapitaliseDeficit(db, client, address, cart, catalog, now))
  {
    CartContainers.EmptyIffNoneWanted(catalog, cart);
    DeficitOutcome(db, client, address, cart, catalog, now);
    var out := CapitaliseDeficit(db, client, address, cart, catalog, now);
    if out.Success? {
      CreditsAreLacks(db.stock, out.value.stock, address, catalog, cart);
    }
  }

  lemma {:induction false} DeficitCredited(
    db: Db, client: UserId, address: InventoryId, cart: Cart, catalog: Catalog, now: int)
    requires StockOk(db.stock)
    ensures CreditsDeficit(db, client, address, cart, catalog,
                           Outcome(db, StockWork(CreditDeficit(client, address, cart, catalog, now))))
  {
    DeficitCreditedSpec(db, client, address, cart, catalog, now);
  }

  lemma {:induction false} DeficitOutcome(
    db: Db, client: UserId, address: InventoryId, cart: Cart, catalog: Catalog, now: int)
    requires StockOk(db.stock)
    ensures var out, s, exchange := CapitaliseDeficit(db, client, address, cart, catalog, now), db.stock, Exchange(catalog, cart);
            && (out.Success? <==>
                  cart != [] && AllPositive(cart) &&
                  (exchange != [] ==> Exists(s, address) && s.inventories[address] == Holding(client, Client)))
            && (out.Success? ==>
                  && out.value == db.(stock := out.value.stock) && out.value.stock.inventories == s.inventories
                  && StepFlows.Credits(s, out.value.stock, address, Deficits(s, address, [], exchange)))
  {
    var s, exchange := db.stock, Exchange(catalog, cart);
    if exchange != [] && Exists(s, address) && s.inventories[address] == Holding(client, Client) {
      TaraProofs.CapitalisingCovers(s, address, [], exchange, now);
      StepFlows.CoverFlow(s, address, [], exchange, true, now);
    }
    if CapitaliseDeficit(db, client, address, cart, catalog, now).Success? {
      RunInvariant.CreditDeficitOk(db, client, address, cart, catalog, now);
    }
    assert exchange == [] ==> Deficits(s, address, [], exchange) == [];
  }

  /** A new real inventory is empty; virtual ones are not opened. */
  lemma {:induction false} InventoryOpened(db: Db, owner: UserId, kind: InventoryType)
    ensures var out := Outcome(db, StockWork(OpenInventory(owner, kind)));
            && (out.Success? <==> kind != VirtualVendor && kind != VirtualLoss)
            && (out.Success? ==>
                  out.value == db.(stock := db.stock.(inventories := db.stock.inventories + [Holding(owner, kind)])))
  {
  }
}
