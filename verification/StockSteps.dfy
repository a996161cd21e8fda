/** The units of work of the stock transfer and tara services. */
module StockSteps {
  import opened Base
  import opened Tally
  import opened StockLedger
  import opened Database
  import opened Tara

  /** _VALID_ROUTES: the source and destination kinds each document type allows. */
  function ValidRoute(t: TransferType): (set<InventoryType>, set<InventoryType>) {
    match t
    case CourierLoad => ({Warehouse}, {Courier})
    case CourierReturn => ({Courier}, {Warehouse})
    case ClientDelivery => ({Courier}, {Client})
    case ClientReturn => ({Client}, {Courier})
    case LossWriteOff => ({Warehouse, Courier, Client}, {VirtualLoss})
    case InventoryFinding => ({VirtualVendor}, {Warehouse, Courier})
    case InitialBalance => ({VirtualVendor}, {Client, Warehouse, Courier})
    case WarehouseSale => ({Warehouse}, {Client})
    case WarehouseTaraReturn => ({Client}, {Warehouse})
  }

  /** _ADJUSTMENT_TRANSFER_TYPES: documents that need the adjustment scope. */
  const ADJUSTMENTS: set<TransferType> := {InventoryFinding, InitialBalance, LossWriteOff}

  /** What a dispatcher asks for, and whether he may adjust; the system inventories are filled in. */
  datatype TransferRequest = TransferRequest(
    transfer: TransferType, from: Option<InventoryId>, to: Option<InventoryId>, items: Cart, mayAdjust: bool)

  function Source(s: Stock, req: TransferRequest): Option<InventoryId> {
    if req.transfer == InventoryFinding || req.transfer == InitialBalance then Some(s.vendor) else req.from
  }

  function Destination(s: Stock, req: TransferRequest): Option<InventoryId> {
    if req.transfer == LossWriteOff then Some(s.loss) else req.to
  }

  /** Products whose requested total exceeds what the source holds. */
  predicate Lacks(s: Stock, i: InventoryId, requested: seq<(ProductId, int)>) {
    exists n :: 0 <= n < |requested| && Balance(s, i, requested[n].0) < requested[n].1
  }

  /** The checks of create_transfer up to the stock check. */
  function Route(s: Stock, req: TransferRequest, catalog: Catalog): (r: Result<(InventoryId, InventoryId)>)
    ensures r.Success? ==> Exists(s, r.value.0) && Exists(s, r.value.1) && r.value.0 != r.value.1
    ensures r.Success? && Virtual(s.inventories[r.value.0].kind) ==> req.mayAdjust
    ensures r.Success? && Virtual(s.inventories[r.value.1].kind) ==> req.mayAdjust
    ensures r.Success? ==> s.inventories[r.value.0].kind != VirtualLoss && s.inventories[r.value.1].kind != VirtualVendor
  {
    var from, to := Source(s, req), Destination(s, req);
    if req.items == [] || !AllPositive(req.items) then Failure(ValidationError)
    else if req.transfer in ADJUSTMENTS && !req.mayAdjust then Failure(InsufficientPermissions)
    else if exists i :: 0 <= i < |req.items| && !OnSale(catalog, req.items[i].0) then Failure(ProductsUnavailable)
    else if from.None? || to.None? then Failure(ValidationError)
    else if from.value == to.value then Failure(RouteLoop)
    else if !Exists(s, from.value) || !Exists(s, to.value) then Failure(Error.InventoryNotFound)
    else if s.inventories[from.value].kind !in ValidRoute(req.transfer).0 ||
            s.inventories[to.value].kind !in ValidRoute(req.transfer).1 then Failure(InventoryTypeMismatch)
    else Success((from.value, to.value))
  }

  /** create_transfer. */
  function CreateTransfer(db: Db, req: TransferRequest, catalog: Catalog, now: int): Result<Db> {
    var (from, to) :- Route(db.stock, req, catalog);
    if db.stock.inventories[from].kind != VirtualVendor && Lacks(db.stock, from, Collect(req.items))
    then Failure(Error.InsufficientStock)
    else
      var stock :- PostDocument(db.stock, Document(from, to, req.transfer, None, now), req.items);
      Success(db.(stock := stock))
  }

  /** capitalize_tara: containers credited to a client by an administrator. */
  function CapitaliseTara(db: Db, address: InventoryId, items: Cart, now: int): Result<Db> {
    if !AllPositive(items) then Failure(ValidationError)
    else if !Exists(db.stock, address) || db.stock.inventories[address].kind != Client
    then Failure(Error.InventoryNotFound)
    else
      var stock :- PostDocument(db.stock, Document(db.stock.vendor, address, InitialBalance, None, now), items);
      Success(db.(stock := stock))
  }

  /** capitalize_deficit: the client credits exactly what the cart lacks. */
  function CapitaliseDeficit(db: Db, client: UserId, address: InventoryId, cart: Cart, catalog: Catalog, now: int)
    : Result<Db>
  {
    var exchange := Exchange(catalog, cart);
    if cart == [] || !AllPositive(cart) then Failure(ValidationError)
    else if exchange == [] then Success(db)
    else if !Exists(db.stock, address) || db.stock.inventories[address] != Holding(client, Client)
    then Failure(Error.InventoryNotFound)
    else
      var shortages := Deficits(db.stock, address, [], exchange);
      if shortages == [] then Success(db)
      else
        var stock :- Capitalise(db.stock, address, shortages, now);
        Success(db.(stock := stock))
  }
}
