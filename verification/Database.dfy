/** The tables of the back office. One unit of work takes one `Db` to the next. */
module Database {
  import opened Base
  import opened Tally
  import opened Quotas
  import opened StockLedger
  import opened MoneyLedger

  datatype OrderStatus = New | Assigned | InTransit | Arrived | Delivered | PickupCompleted | Cancelled
  datatype SaleType = Delivery | WarehousePickup
  datatype PaymentMethod = Cash | Card | ByContract

  /** One order position; the price is frozen when the line is written. */
  datatype Line = Line(product: ProductId, quantity: int, unitPrice: int)

  /** One row of the order audit log, kept with its order. */
  datatype OrderLog = OrderLog(from: Option<OrderStatus>, to: OrderStatus)

  datatype Order = Order(
    client: UserId, clientInventory: InventoryId, courier: Option<UserId>, warehouse: Option<InventoryId>,
    payment: PaymentMethod, saleType: SaleType, status: OrderStatus, total: int, lines: seq<Line>,
    contract: Option<ContractId>, reserved: bool, capitalized: bool, createdAt: int, history: seq<OrderLog>)

  datatype ContractStatus = Draft | Active | Suspended | Terminated | Expired
  datatype ContractLog = ContractLog(from: ContractStatus, to: ContractStatus)

  datatype InvoiceStatus = InvoiceDraft | Issued | PartiallyPaid | Paid | Overdue | Annulled
  datatype Invoice = Invoice(
    number: string, status: InvoiceStatus, periodFrom: int, periodTo: int, amount: int, dueDate: int)

  datatype Contract = Contract(
    client: UserId, number: string, status: ContractStatus, startDate: int, endDate: Option<int>,
    dueDays: int, items: PriceList, invoices: seq<Invoice>, history: seq<ContractLog>)

  datatype Db = Db(orders: seq<Order>, contracts: seq<Contract>, stock: Stock, money: Money)

  /** The catalogue as one unit of work sees it; archived products stay referenced by old lines. */
  datatype Product = Product(price: int, returnable: Option<ProductId>, active: bool)
  type Catalog = map<ProductId, Product>
  type Cart = seq<(ProductId, int)>

  predicate OnSale(catalog: Catalog, p: ProductId) {
    p in catalog && catalog[p].active
  }

  predicate Settled(status: OrderStatus) {
    status == Delivered || status == PickupCompleted
  }

  /** An order paid by contract: the orders that touch quotas. */
  predicate OnContract(ord: Order) {
    ord.payment == ByContract && ord.contract.Some?
  }

  function Quantities(lines: seq<Line>): seq<(ProductId, int)> {
    seq(|lines|, i requires 0 <= i < |lines| => (lines[i].product, lines[i].quantity))
  }

  /** The value of the lines at their frozen prices. */
  function LinesValue(lines: seq<Line>): int {
    if lines == [] then 0 else LinesValue(Front(lines)) + Last(lines).unitPrice * Last(lines).quantity
  }

  /** What one order holds of contract `c` and product `p`. */
  function Claim(ord: Order, c: ContractId, p: ProductId): int {
    if ord.contract == Some(c) && ord.status != Cancelled then Quantity(Quantities(ord.lines), p) else 0
  }

  function Claims(orders: seq<Order>, c: ContractId, p: ProductId): seq<int> {
    seq(|orders|, i requires 0 <= i < |orders| => Claim(orders[i], c, p))
  }

  /** The quota in use recomputed from the orders table. */
  function Reserved(orders: seq<Order>, c: ContractId, p: ProductId): int {
    Sum(Claims(orders, c, p))
  }

  /** The client's active contract, if any. */
  function ActiveContract(contracts: seq<Contract>, client: UserId): (found: Option<ContractId>)
    ensures found.Some? ==> found.value < |contracts|
    ensures found.Some? ==> contracts[found.value].client == client && contracts[found.value].status == Active
    ensures found.None? ==> forall c :: 0 <= c < |contracts| && contracts[c].client == client ==> contracts[c].status != Active
  {
    if contracts == [] then None
    else
      var earlier := ActiveContract(Front(contracts), client);
      if earlier.Some? then earlier
      else if Last(contracts).client == client && Last(contracts).status == Active then Some(|contracts| - 1)
      else None
  }

  function WithStatus(ord: Order, target: OrderStatus): Order {
    ord.(status := target, history := ord.history + [OrderLog(Some(ord.status), target)])
  }

  /** Returning quota to a contract; nothing is touched when there is nothing to return. */
  function ReleaseQuota(contracts: seq<Contract>, c: ContractId, deltas: Deltas): Result<seq<Contract>> {
    if deltas == [] then Success(contracts)
    else if c >= |contracts| then Failure(QuotaLeak)
    else
      var items :- Decrement(contracts[c].items, deltas);
      Success(contracts[c := contracts[c].(items := items)])
  }

  /** Cancelling one order: status, quota, flag and log together. */
  function CancelOrder(db: Db, o: OrderId): Result<Db>
    requires o < |db.orders|
  {
    var ord := db.orders[o];
    var cancelled := WithStatus(ord, Cancelled);
    if OnContract(ord) && ord.reserved then
      var contracts :- ReleaseQuota(db.contracts, ord.contract.value, Quantities(ord.lines));
      Success(db.(contracts := contracts, orders := db.orders[o := cancelled.(reserved := false)]))
    else
      Success(db.(orders := db.orders[o := cancelled]))
  }
}
