/** The transfer and tara services as they work. */
module StockService {
  import opened Base
  import opened Tally
  import opened StockLedger
  import opened Database
  import opened Tara
  import opened StockSteps
  import opened UnitOfWork
  import OrderService

  /** `requested_quantities`, filled item by item. */
  method RequestedQuantities(items: Cart) returns (requested: seq<(ProductId, int)>)
    ensures requested == Collect(items)
    ensures DistinctKeys(requested) && forall p :: Lookup(requested, p) == Quantity(items, p)
  {
    requested := [];
    for n := 0 to |items|
      invariant requested == Collect(items[..n])
    {
      assert Front(items[..n + 1]) == items[..n];
      requested := Bump(requested, items[n].0, items[n].1);
    }
    assert items[..|items|] == items;
    CollectKeys(items, 0);
    forall p
      ensures Lookup(requested, p) == Quantity(items, p)
    {
      LookupCollect(items, p);
    }
  }

  /** What the source lacks of each requested product. */
  method Shortages(s: Stock, i: InventoryId, requested: seq<(ProductId, int)>) returns (shortages: map<ProductId, int>)
    ensures shortages != map[] <==> Lacks(s, i, requested)
    ensures forall p :: p in shortages ==> shortages[p] > 0 && OrderService.LackOf(s, i, requested, p, shortages[p])
  {
    shortages := map[];
    for n := 0 to |requested|
      invariant forall p :: p in shortages <==>
                  exists m :: 0 <= m < n && requested[m].0 == p && Balance(s, i, requested[m].0) < requested[m].1
      invariant forall p :: p in shortages ==> shortages[p] > 0 && OrderService.LackOf(s, i, requested, p, shortages[p])
    {
      var available := Balance(s, i, requested[n].0);
      if available < requested[n].1 {
        shortages := shortages[requested[n].0 := requested[n].1 - available];
      }
    }
    if Lacks(s, i, requested) {
      var n :| 0 <= n < |requested| && Balance(s, i, requested[n].0) < requested[n].1;
      assert requested[n].0 in shortages;
    }
    if shortages != map[] {
      var p :| p in shortages;
    }
  }

  /** create_transfer. */
  method CreateTransfer(uow: UnitOfWork, req: TransferRequest, catalog: Catalog, now: int) returns (r: Result<()>)
    modifies uow`stock
    ensures uow.Follows(StockSteps.CreateTransfer(old(uow.View()), req, catalog, now), r)
  {
    var route :- Route(uow.stock, req, catalog);
    var (from, to) := route;
    if uow.stock.inventories[from].kind != VirtualVendor {
      var requested := RequestedQuantities(req.items);
      var shortages := Shortages(uow.stock, from, requested);
      if shortages != map[] { return Failure(Error.InsufficientStock); }
    }
    r := uow.AddDocument(Document(from, to, req.transfer, None, now), req.items);
  }

  /** capitalize_tara. */
  method CapitaliseTara(uow: UnitOfWork, address: InventoryId, items: Cart, now: int) returns (r: Result<()>)
    modifies uow`stock
    ensures uow.Follows(StockSteps.CapitaliseTara(old(uow.View()), address, items, now), r)
  {
    if !AllPositive(items) { return Failure(ValidationError); }
    if !Exists(uow.stock, address) || uow.stock.inventories[address].kind != Client {
      return Failure(Error.InventoryNotFound);
    }
    r := uow.AddDocument(Document(uow.stock.vendor, address, InitialBalance, None, now), items);
  }

  /** capitalize_deficit. */
  method CapitaliseDeficit(
    uow: UnitOfWork, client: UserId, address: InventoryId, cart: Cart, catalog: Catalog, now: int) returns (r: Result<()>)
    modifies uow`stock
    ensures uow.Follows(StockSteps.CapitaliseDeficit(old(uow.View()), client, address, cart, catalog, now), r)
  {
    if cart == [] || !AllPositive(cart) { return Failure(ValidationError); }
    var exchange := Exchange(catalog, cart);
    if exchange == [] { return Success(()); }
    if !Exists(uow.stock, address) || uow.stock.inventories[address] != Holding(client, Client) {
      return Failure(Error.InventoryNotFound);
    }
    var _ :- OrderService.CoverContainers(uow, address, [], exchange, true, now);
    return Success(());
  }

  method OpenInventory(uow: UnitOfWork, owner: UserId, kind: InventoryType) returns (r: Result<()>)
    modifies uow`stock
    ensures r == if Virtual(kind) then Failure(ValidationError) else Success(())
    ensures r.Failure? ==> uow.stock == old(uow.stock)
    ensures r.Success? ==>
              uow.stock == old(uow.stock).(inventories := old(uow.stock).inventories + [Holding(owner, kind)])
  {
    if Virtual(kind) { return Failure(ValidationError); }
    uow.stock := uow.stock.(inventories := uow.stock.inventories + [Holding(owner, kind)]);
    return Success(());
  }
}
