/** The units of work of the order service, as functions from one database to the next. */
module OrderSteps {
  import opened Base
  import opened Tally
  import opened Quotas
  import opened StockLedger
  import opened MoneyLedger
  import opened Database
  import opened Tara

  // ---- Status transitions ----

  function AllowedTargets(sale: SaleType, status: OrderStatus): set<OrderStatus> {
    if sale == WarehousePickup then
      if status == New then {Cancelled} else {}
    else match status
      case New => {Cancelled}
      case Assigned => {InTransit, Cancelled}
      case InTransit => {Arrived, Cancelled}
      case Arrived => {Delivered, Cancelled}
      case _ => {}
  }

  function CheckTransition(ord: Order, target: OrderStatus): Result<()> {
    if ord.status == target then Success(())
    else if ord.saleType == WarehousePickup && target !in {New, Cancelled} then Failure(InvalidPickupOperation)
    else if target !in AllowedTargets(ord.saleType, ord.status) then Failure(InvalidOrderStatus)
    else Success(())
  }

  // ---- Checkout ----

  /** The price of a product: the contract's when there is one, else the catalogue's. */
  function PriceOf(catalog: Catalog, terms: Option<PriceList>, p: ProductId): int
    requires OnSale(catalog, p)
    requires terms.Some? ==> p in terms.value
  {
    if terms.Some? then terms.value[p].price else catalog[p].price
  }

  predicate Priced(catalog: Catalog, terms: Option<PriceList>, cart: Cart) {
    forall i :: 0 <= i < |cart| ==>
      OnSale(catalog, cart[i].0) && (terms.Some? ==> cart[i].0 in terms.value)
  }

  function LinesOf(catalog: Catalog, terms: Option<PriceList>, cart: Cart): seq<Line>
    requires Priced(catalog, terms, cart)
  {
    seq(|cart|, i requires 0 <= i < |cart| =>
      Line(cart[i].0, cart[i].1, PriceOf(catalog, terms, cart[i].0)))
  }

  /** The row checks of the order_items table. */
  predicate LinesAllowed(lines: seq<Line>) {
    forall i :: 0 <= i < |lines| ==> lines[i].quantity > 0 && lines[i].unitPrice >= 0
  }

  /** The contract that pays for a client's order. */
  function PayingContract(contracts: seq<Contract>, client: UserId, b2b: bool, today: int): (r: Result<ContractId>)
    ensures r.Success? ==> r.value < |contracts| && contracts[r.value].status == Active
  {
    if !b2b then Failure(ContractPaymentNotAllowed)
    else
      var active := ActiveContract(contracts, client);
      if active.None? then Failure(ContractRequired)
      else if contracts[active.value].endDate.Some? && contracts[active.value].endDate.value < today
      then Failure(Error.ContractExpired)
      else Success(active.value)
  }

  function CheckCart(catalog: Catalog, cart: Cart, allowRepeats: bool): Result<()> {
    if cart == [] then Failure(EmptyCart)
    else if !AllPositive(cart) then Failure(ValidationError)
    else if !allowRepeats && !DistinctKeys(cart) then Failure(DuplicateProducts)
    else if exists i :: 0 <= i < |cart| && !OnSale(catalog, cart[i].0) then Failure(ProductsUnavailable)
    else Success(())
  }

  function InsertOrder(db: Db, ord: Order): Result<Db> {
    if ord.clientInventory >= |db.stock.inventories| || !LinesAllowed(ord.lines) then Failure(DbIntegrity)
    else Success(db.(orders := db.orders + [ord]))
  }

  /** What a client sends to checkout. */
  datatype Checkout = Checkout(
    client: UserId, b2b: bool, cart: Cart, payment: PaymentMethod, address: InventoryId, capitalise: bool)

  /** Reserving the quota of a contract order, before anything else is written. */
  function ReserveFor(db: Db, c: ContractId, cart: Cart): Result<Db>
    requires c < |db.contracts|
  {
    var items :- Reserve(db.contracts[c].items, cart);
    Success(db.(contracts := db.contracts[c := db.contracts[c].(items := items)]))
  }

  function NewOrder(
    req: Checkout, lines: seq<Line>, contract: Option<ContractId>, capitalized: bool, now: int): Order
  {
    Order(req.client, req.address, None, None, req.payment, Delivery, New, LinesValue(lines), lines,
          contract, contract.Some?, capitalized, now, [OrderLog(None, New)])
  }

  function CheckoutTara(s: Stock, req: Checkout, catalog: Catalog, now: int): Result<(Stock, bool)> {
    var exchange := Exchange(catalog, req.cart);
    if exchange == [] then Success((s, false))
    else if !Exists(s, req.address) then Failure(ClientInventoryNotFound)
    else CoverTara(s, req.address, req.cart, exchange, req.capitalise, now)
  }

  /** create_order. */
  function CreateOrder(db: Db, req: Checkout, catalog: Catalog, today: int, now: int): Result<Db> {
    var _ :- CheckCart(catalog, req.cart, false);
    if req.payment == ByContract then
      var c :- PayingContract(db.contracts, req.client, req.b2b, today);
      var terms := Some(db.contracts[c].items);
      var db1 :- ReserveFor(db, c, req.cart);
      var (stock, credited) :- CheckoutTara(db.stock, req, catalog, now);
      InsertOrder(db1.(stock := stock), NewOrder(req, LinesOf(catalog, terms, req.cart), Some(c), credited, now))
    else
      var (stock, credited) :- CheckoutTara(db.stock, req, catalog, now);
      InsertOrder(db.(stock := stock), NewOrder(req, LinesOf(catalog, None, req.cart), None, credited, now))
  }

  // ---- Editing a NEW order ----

  predicate MayEdit(ord: Order, requester: Option<UserId>) {
    requester.None? || requester.value == ord.client
  }

  function FindLine(lines: seq<Line>, p: ProductId): (found: Option<nat>)
    ensures found.Some? ==> found.value < |lines| && lines[found.value].product == p
    ensures found.None? ==> forall i :: 0 <= i < |lines| ==> lines[i].product != p
  {
    if lines == [] then None
    else
      var earlier := FindLine(Front(lines), p);
      if earlier.Some? then earlier
      else if Last(lines).product == p then Some(|lines| - 1) else None
  }

  /** Adding to a line keeps the line's frozen price. */
  function AddToLines(lines: seq<Line>, p: ProductId, quantity: int, price: int): seq<Line> {
    var i := FindLine(lines, p);
    if i.Some? then lines[i.value := lines[i.value].(quantity := lines[i.value].quantity + quantity)]
    else lines + [Line(p, quantity, price)]
  }

  /** Quota check and reservation for one added product; returns the contract price as well. */
  function ReserveOne(contracts: seq<Contract>, c: ContractId, p: ProductId, quantity: int)
    : Result<(seq<Contract>, int)>
  {
    if c >= |contracts| then Failure(ContractRequired)
    else if contracts[c].status != Active then Failure(ContractNotActive)
    else if p !in contracts[c].items then Failure(ProductNotInContract)
    else
      var items :- Reserve(contracts[c].items, [(p, quantity)]);
      Success((contracts[c := contracts[c].(items := items)], contracts[c].items[p].price))
  }

  /** add_product_to_order: the order is charged today's price for the added quantity. */
  function AddProduct(
    db: Db, o: OrderId, p: ProductId, quantity: int, requester: Option<UserId>, catalog: Catalog): Result<Db>
  {
    if quantity <= 0 then Failure(ValidationError)
    else if !OnSale(catalog, p) then Failure(ProductsUnavailable)
    else if o >= |db.orders| then Failure(OrderNotFound)
    else
      var ord := db.orders[o];
      if !MayEdit(ord, requester) then Failure(OrderAccessDenied)
      else if ord.status != New then Failure(InvalidOrderStatus)
      else if OnContract(ord) then
        var (contracts, price) :- ReserveOne(db.contracts, ord.contract.value, p, quantity);
        StoreLines(db.(contracts := contracts), o, AddToLines(ord.lines, p, quantity, price),
                   ord.total + price * quantity, true)
      else
        var price := catalog[p].price;
        StoreLines(db, o, AddToLines(ord.lines, p, quantity, price), ord.total + price * quantity, ord.reserved)
  }

  function StoreLines(db: Db, o: OrderId, lines: seq<Line>, total: int, reserved: bool): Result<Db>
    requires o < |db.orders|
  {
    if !LinesAllowed(lines) then Failure(DbIntegrity)
    else Success(db.(orders := db.orders[o := db.orders[o].(lines := lines, total := total, reserved := reserved)]))
  }

  /** An order without one of its lines; the total drops by the line's frozen value. */
  function WithoutLine(ord: Order, i: nat): Order
    requires i < |ord.lines|
  {
    ord.(lines := ord.lines[..i] + ord.lines[i + 1..],
         total := Max(0, ord.total - ord.lines[i].unitPrice * ord.lines[i].quantity))
  }

  /** remove_product_from_order. */
  function RemoveProduct(db: Db, o: OrderId, p: ProductId, requester: Option<UserId>): Result<Db> {
    if o >= |db.orders| then Failure(OrderNotFound)
    else
      var ord := db.orders[o];
      if !MayEdit(ord, requester) then Failure(OrderAccessDenied)
      else if ord.status != New then Failure(InvalidOrderStatus)
      else
        var found := FindLine(ord.lines, p);
        if found.None? then Success(db)
        else if |ord.lines| <= 1 then Failure(CannotRemoveLastItem)
        else
          var edited := db.orders[o := WithoutLine(ord, found.value)];
          if OnContract(ord) && ord.reserved then
            var contracts :- ReleaseQuota(db.contracts, ord.contract.value, [(p, ord.lines[found.value].quantity)]);
            Success(db.(contracts := contracts, orders := edited))
          else
            Success(db.(orders := edited))
  }

  /** assign_courier. */
  function AssignCourier(db: Db, o: OrderId, courier: UserId, isCourier: bool): Result<Db> {
    if o >= |db.orders| then Failure(OrderNotFound)
    else
      var ord := db.orders[o];
      if ord.saleType == WarehousePickup then Failure(InvalidPickupOperation)
      else if ord.status != New && ord.status != Assigned then Failure(CourierAssignment)
      else if !isCourier then Failure(CourierAssignment)
      else if Find(db.stock.inventories, courier, Courier).None? then Failure(CourierAssignment)
      else Success(db.(orders := db.orders[o := WithStatus(ord, Assigned).(courier := Some(courier))]))
  }

  // ---- Delivery ----

  /** The delivered quantity reported for a product, if any: the last report wins. */
  function Reported(actual: Cart, p: ProductId): Option<int> {
    if actual == [] then None else if Last(actual).0 == p then Some(Last(actual).1) else Reported(Front(actual), p)
  }

  /** The lines as delivered; a row may not drop to zero. */
  function DeliveredLines(lines: seq<Line>, actual: Cart): Result<seq<Line>> {
    if lines == [] then Success([])
    else
      var before :- DeliveredLines(Front(lines), actual);
      var line, report := Last(lines), Reported(actual, Last(lines).product);
      if report.None? then Success(before + [line])
      else if report.value < 0 || report.value > line.quantity then Failure(DeliveryQuantityExceeded)
      else if report.value == 0 then Failure(DbIntegrity)
      else Success(before + [line.(quantity := report.value)])
  }

  /** What was ordered but not delivered. */
  function Undelivered(lines: seq<Line>, delivered: seq<Line>): Deltas
    requires |lines| == |delivered|
  {
    if lines == [] then []
    else
      var diff := Last(lines).quantity - Last(delivered).quantity;
      Undelivered(Front(lines), Front(delivered)) + (if diff > 0 then [(Last(lines).product, diff)] else [])
  }

  lemma {:induction false} DeliveredLength(lines: seq<Line>, actual: Cart)
    ensures DeliveredLines(lines, actual).Success? ==> |DeliveredLines(lines, actual).value| == |lines|
  {
    if lines != [] {
      DeliveredLength(Front(lines), actual);
    }
  }

  /** Partial delivery: lines, total and quota follow what was handed over. */
  function AdjustDelivery(db: Db, o: OrderId, actual: Cart): Result<Db>
    requires o < |db.orders|
  {
    if actual == [] then Success(db)
    else
      var ord := db.orders[o];
      var lines :- DeliveredLines(ord.lines, actual);
      DeliveredLength(ord.lines, actual);
      var adjusted := db.orders[o := ord.(lines := lines, total := LinesValue(lines))];
      if OnContract(ord) then
        var contracts :- ReleaseQuota(db.contracts, ord.contract.value, Undelivered(ord.lines, lines));
        Success(db.(contracts := contracts, orders := adjusted))
      else
        Success(db.(orders := adjusted))
  }

  predicate Short(s: Stock, i: InventoryId, lines: seq<Line>) {
    exists n :: 0 <= n < |lines| && Balance(s, i, lines[n].product) < lines[n].quantity
  }

  /** Courier to client with the containers, then the empty containers back. */
  function DeliverStock(
    s: Stock, courier: InventoryId, client: InventoryId, lines: seq<Line>, catalog: Catalog, o: OrderId, now: int)
    : Result<Stock>
  {
    var tare := ReturnableItems(catalog, lines);
    var s1 :- StockTransfer(s, Document(courier, client, ClientDelivery, Some(o), now), Quantities(lines) + tare);
    if tare == [] then Success(s1)
    else StockTransfer(s1, Document(client, courier, ClientReturn, Some(o), now), tare)
  }

  // ---- Settlement ----

  /** The second leg of a settlement: where the client's money goes, if it moves at all. */
  function PaymentLeg(m: Money, ord: Order, o: OrderId, client: AccountId): Result<seq<Txn>> {
    if ord.payment == Cash then
      if ord.saleType == Delivery && ord.courier.None? then Success([])
      else
        var target := if ord.saleType == Delivery then Find(m.accounts, ord.courier.value, CourierAccount)
                      else Find(m.accounts, SYSTEM_USER, CashDesk);
        if target.None? then Failure(Error.AccountNotFound)
        else Success([Txn(client, target.value, ord.total, Some(o), Completed, CashLeg)])
    else if ord.payment == Card then
      var target := Find(m.accounts, SYSTEM_USER, CardDesk);
      if target.None? then Failure(Error.AccountNotFound)
      else Success([Txn(client, target.value, ord.total, Some(o), Pending, CardLeg)])
    else Success([])
  }

  /** _process_financial_settlement and _process_pickup_settlement. */
  function Settle(m: Money, ord: Order, o: OrderId): Result<Money> {
    var client, revenue := Find(m.accounts, ord.client, ClientAccount), Find(m.accounts, SYSTEM_USER, Revenue);
    if client.None? || revenue.None? then Failure(Error.AccountNotFound)
    else
      var legs :- PaymentLeg(m, ord, o, client.value);
      InsertAll(m, [Txn(revenue.value, client.value, ord.total, Some(o), Completed, OrderCharge)] + legs)
  }

  /** _handle_order_fulfillment, for an order already marked DELIVERED. */
  function Fulfil(db: Db, o: OrderId, actual: Cart, catalog: Catalog, now: int): Result<Db>
    requires o < |db.orders|
  {
    if db.orders[o].courier.None? then Failure(CourierNotAssigned)
    else
      var db1 :- AdjustDelivery(db, o, actual);
      var ord := db1.orders[o];
      var courier := Find(db1.stock.inventories, ord.courier.value, Courier);
      if courier.None? then Failure(CourierInventoryNotFound)
      else if Short(db1.stock, courier.value, ord.lines) then Failure(Error.InsufficientStock)
      else
        var stock :- DeliverStock(db1.stock, courier.value, ord.clientInventory, ord.lines, catalog, o, now);
        var money :- Settle(db1.money, ord, o);
        Success(db1.(stock := stock, money := money))
  }

  /** update_status. */
  function UpdateStatus(
    db: Db, o: OrderId, target: OrderStatus, actual: Cart, requester: Option<UserId>, catalog: Catalog, now: int)
    : Result<Db>
  {
    if o >= |db.orders| then Failure(OrderNotFound)
    else
      var ord := db.orders[o];
      if requester.Some? && requester != ord.courier && requester.value != ord.client then Failure(OrderAccessDenied)
      else
        var _ :- CheckTransition(ord, target);
        if ord.status != Delivered && target == Delivered then
          Fulfil(db.(orders := db.orders[o := WithStatus(ord, Delivered)]), o, actual, catalog, now)
        else if ord.status != Cancelled && target == Cancelled && !Settled(ord.status) then
          CancelOrder(db, o)
        else
          Success(db.(orders := db.orders[o := WithStatus(ord, target)]))
  }

  /** expire_stale_orders, for the rows selected in one status. */
  function CancelStale(db: Db, stale: seq<OrderId>, status: OrderStatus): Result<Db> {
    if stale == [] then Success(db)
    else
      var before :- CancelStale(db, Front(stale), status);
      var o := Last(stale);
      if o < |before.orders| && before.orders[o].status == status then CancelOrder(before, o) else Success(before)
  }

  function ExpireStale(db: Db, staleNew: seq<OrderId>, staleAssigned: seq<OrderId>): Result<Db> {
    var db1 :- CancelStale(db, staleNew, New);
    CancelStale(db1, staleAssigned, Assigned)
  }

  // ---- Warehouse pickup ----

  /** Containers that are not bought as positions of their own. */
  function NotOrdered(tare: seq<(ProductId, int)>, lines: seq<Line>): seq<(ProductId, int)> {
    if tare == [] then []
    else NotOrdered(Front(tare), lines) + (if HasKey(Quantities(lines), Last(tare).0) then [] else [Last(tare)])
  }

  /** The containers that change hands and come back: all of them, or those not bought. */
  function HandedOver(tare: seq<(ProductId, int)>, lines: seq<Line>, walkin: bool): seq<(ProductId, int)> {
    if walkin then NotOrdered(tare, lines) else tare
  }

  function PickupStock(
    s: Stock, warehouse: InventoryId, client: InventoryId, lines: seq<Line>, walkin: bool,
    catalog: Catalog, o: OrderId, now: int): Result<Stock>
  {
    var tare := ReturnableItems(catalog, lines);
    var handed := HandedOver(tare, lines, walkin);
    var s1 :- if tare != [] && !walkin
              then StockTransfer(s, Document(s.vendor, warehouse, InitialBalance, Some(o), now), tare)
              else Success(s);
    var s2 :- StockTransfer(s1, Document(warehouse, client, WarehouseSale, Some(o), now), Quantities(lines) + handed);
    if handed == [] then Success(s2)
    else StockTransfer(s2, Document(client, warehouse, WarehouseTaraReturn, Some(o), now), handed)
  }

  /** _handle_warehouse_pickup, for an order already marked PICKUP_COMPLETED. */
  function HandleWarehousePickup(db: Db, o: OrderId, catalog: Catalog, now: int): Result<Db>
    requires o < |db.orders|
  {
    var ord := db.orders[o];
    if ord.warehouse.None? then Failure(WarehouseMissing)
    else
      var w := ord.warehouse.value;
      if !Exists(db.stock, w) || db.stock.inventories[w].kind != Warehouse then Failure(Error.InventoryNotFound)
      else if Short(db.stock, w, ord.lines) then Failure(Error.InsufficientStock)
      else
        var stock :- PickupStock(db.stock, w, ord.clientInventory, ord.lines, ord.client == WALKIN_USER, catalog, o, now);
        var money :- Settle(db.money, ord, o);
        Success(db.(stock := stock, money := money))
  }

  /** complete_pickup. */
  function CompletePickup(db: Db, o: OrderId, catalog: Catalog, now: int): Result<Db> {
    if o >= |db.orders| then Failure(OrderNotFound)
    else if db.orders[o].saleType != WarehousePickup || db.orders[o].status != New
    then Failure(InvalidPickupOperation)
    else
      HandleWarehousePickup(db.(orders := db.orders[o := WithStatus(db.orders[o], PickupCompleted)]), o, catalog, now)
  }

  function SaleOrder(client: UserId, address: InventoryId, warehouse: InventoryId, lines: seq<Line>, credited: bool, now: int): Order {
    Order(client, address, None, Some(warehouse), Cash, WarehousePickup, PickupCompleted, LinesValue(lines), lines,
          None, false, credited, now, [OrderLog(None, PickupCompleted)])
  }

  /** The first half of a warehouse sale: containers credited, order written PICKUP_COMPLETED. */
  function OpenSale(
    db: Db, client: UserId, warehouse: InventoryId, cart: Cart, capitalise: bool, catalog: Catalog, now: int)
    : (r: Result<Db>)
    ensures r.Success? ==> |r.value.orders| == |db.orders| + 1
  {
    var _ :- CheckCart(catalog, cart, true);
    var address := Find(db.stock.inventories, client, Client);
    if !Exists(db.stock, warehouse) || db.stock.inventories[warehouse].kind != Warehouse
    then Failure(Error.InventoryNotFound)
    else if address.None? then Failure(ClientInventoryNotFound)
    else
      var exchange := if client == WALKIN_USER then [] else Exchange(catalog, cart);
      var (stock, credited) :- CoverTara(db.stock, address.value, cart, exchange, capitalise, now);
      InsertOrder(db.(stock := stock),
                  SaleOrder(client, address.value, warehouse, LinesOf(catalog, None, cart), credited, now))
  }

  function BuyerOf(buyer: Option<UserId>): UserId {
    if buyer.Some? then buyer.value else WALKIN_USER
  }

  /** create_warehouse_sale: the order is written complete and settled at once. */
  function CreateWarehouseSale(
    db: Db, buyer: Option<UserId>, warehouse: InventoryId, cart: Cart, capitalise: bool, catalog: Catalog, now: int)
    : Result<Db>
  {
    var db1 :- OpenSale(db, BuyerOf(buyer), warehouse, cart, capitalise, catalog, now);
    HandleWarehousePickup(db1, |db.orders|, catalog, now)
  }
}
