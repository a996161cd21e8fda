/**
  The stock ledger and the balances table its insert trigger keeps. A row moves a quantity from
  one inventory to another; the trigger refuses to leave a real inventory negative.
 */
module StockLedger {
  import opened Base
  import opened Tally

  datatype InventoryType = Warehouse | Courier | Client | VirtualLoss | VirtualVendor

  datatype TransferType =
    | CourierLoad | CourierReturn | ClientDelivery | ClientReturn | LossWriteOff
    | InventoryFinding | InitialBalance | WarehouseSale | WarehouseTaraReturn

  type Inventory = Holding<InventoryType>

  datatype StockRow = StockRow(
    product: ProductId, from: InventoryId, to: InventoryId, quantity: int,
    transfer: TransferType, order: Option<OrderId>, at: int)

  type BalanceKey = (InventoryId, ProductId)
  type Balances = seq<(BalanceKey, int)>

  /** `vendor` and `loss` are the two system inventories created at start-up. */
  datatype Stock = Stock(
    inventories: seq<Inventory>, vendor: InventoryId, loss: InventoryId,
    balances: Balances, ledger: seq<StockRow>)

  /** The heading of one stock document: all its rows share it. */
  datatype Document = Document(
    from: InventoryId, to: InventoryId, transfer: TransferType, order: Option<OrderId>, at: int)

  predicate Virtual(kind: InventoryType) {
    kind == VirtualLoss || kind == VirtualVendor
  }

  predicate Exists(s: Stock, i: InventoryId) {
    i < |s.inventories|
  }

  function Balance(s: Stock, i: InventoryId, p: ProductId): int {
    Lookup(s.balances, (i, p))
  }

  /** The signed contribution of one row to inventory `i` and product `p`. */
  function Effect(r: StockRow, i: InventoryId, p: ProductId): int {
    if r.product != p then 0
    else if r.to == i then r.quantity
    else if r.from == i then -r.quantity
    else 0
  }

  /** The balance recomputed from history. */
  function LedgerBalance(ledger: seq<StockRow>, i: InventoryId, p: ProductId): int {
    if ledger == [] then 0 else LedgerBalance(Front(ledger), i, p) + Effect(Last(ledger), i, p)
  }

  function Move(balances: Balances, r: StockRow): Balances {
    Bump(Bump(balances, (r.from, r.product), -r.quantity), (r.to, r.product), r.quantity)
  }

  /** The balances table as the trigger builds it, row after row. */
  function Materialise(ledger: seq<StockRow>): Balances {
    if ledger == [] then [] else Move(Materialise(Front(ledger)), Last(ledger))
  }

  predicate RowAllowed(inventories: seq<Inventory>, r: StockRow) {
    r.quantity > 0 && r.from != r.to && r.from < |inventories| && r.to < |inventories|
  }

  predicate NotNegative(s: Stock, i: InventoryId, p: ProductId)
    requires Exists(s, i)
  {
    Virtual(s.inventories[i].kind) || Balance(s, i, p) >= 0
  }

  /** One ledger insert with its trigger. */
  function Insert(s: Stock, r: StockRow): Result<Stock> {
    if !RowAllowed(s.inventories, r) then Failure(DbIntegrity)
    else
      var moved := s.(balances := Move(s.balances, r), ledger := s.ledger + [r]);
      if NotNegative(moved, r.from, r.product) && NotNegative(moved, r.to, r.product)
      then Success(moved) else Failure(NegativeBalance)
  }

  function RowOf(d: Document, item: (ProductId, int)): StockRow {
    StockRow(item.0, d.from, d.to, item.1, d.transfer, d.order, d.at)
  }

  /** The ledger rows of one document, in order. */
  function Rows(d: Document, items: seq<(ProductId, int)>): seq<StockRow> {
    seq(|items|, i requires 0 <= i < |items| => RowOf(d, items[i]))
  }

  /** Posting the rows of one document, row after row. */
  function Post(s: Stock, d: Document, items: seq<(ProductId, int)>): Result<Stock> {
    if items == [] then Success(s)
    else
      var before :- Post(s, d, Front(items));
      Insert(before, RowOf(d, Last(items)))
  }

  /** A document: the heading may not be circular and must name existing inventories. */
  function PostDocument(s: Stock, d: Document, items: seq<(ProductId, int)>): Result<Stock> {
    if d.from == d.to || !Exists(s, d.from) || !Exists(s, d.to) then Failure(DbIntegrity)
    else Post(s, d, items)
  }

  /** Only positive quantities become rows. */
  function Positive(items: seq<(ProductId, int)>): seq<(ProductId, int)> {
    if items == [] then []
    else if Last(items).1 > 0 then Positive(Front(items)) + [Last(items)]
    else Positive(Front(items))
  }

  /** _create_stock_transfer: a completed document with its positive rows. */
  function StockTransfer(s: Stock, d: Document, items: seq<(ProductId, int)>): Result<Stock> {
    PostDocument(s, d, Positive(items))
  }

  /** What a document changes at inventory `i` and product `p`. */
  function Shift(d: Document, items: seq<(ProductId, int)>, i: InventoryId, p: ProductId): int {
    if i == d.to then Quantity(items, p) else if i == d.from then -Quantity(items, p) else 0
  }

  /** The state a database is in between units of work. */
  ghost predicate StockOk(s: Stock) {
    && Exists(s, s.vendor) && s.inventories[s.vendor].kind == VirtualVendor
    && Exists(s, s.loss) && s.inventories[s.loss].kind == VirtualLoss
    && (forall n :: 0 <= n < |s.ledger| ==> RowAllowed(s.inventories, s.ledger[n]))
    && s.balances == Materialise(s.ledger)
    && NoDebts(s)
  }

  /** Every inventory but the vendor holds a non-negative quantity of every product. */
  ghost predicate NoDebts(s: Stock) {
    forall i: InventoryId, p: ProductId :: Exists(s, i) && s.inventories[i].kind != VirtualVendor ==> Balance(s, i, p) >= 0
  }

  /** The covering condition of one document: what the pre-checks aim at. */
  ghost predicate Covers(s: Stock, i: InventoryId, items: seq<(ProductId, int)>) {
    forall p :: Quantity(items, p) <= Balance(s, i, p)
  }

  lemma {:induction false} PositiveIsIdentity(items: seq<(ProductId, int)>)
    requires AllPositive(items)
    ensures Positive(items) == items
  {
    if items != [] {
      FrontPositive(items);
      PositiveIsIdentity(Front(items));
      FrontAndLast(items);
    }
  }

  lemma {:induction false} BalanceMove(b: Balances, r: StockRow, i: InventoryId, p: ProductId)
    requires r.from != r.to
    ensures Lookup(Move(b, r), (i, p)) == Lookup(b, (i, p)) + Effect(r, i, p)
  {
    var b1 := Bump(b, (r.from, r.product), -r.quantity);
    LookupBump(b, (r.from, r.product), -r.quantity, (i, p));
    LookupBump(b1, (r.to, r.product), r.quantity, (i, p));
  }

  /** The materialised balance of every inventory and product equals the ledger fold. */
  lemma {:induction false} BalanceIsLedgerFold(s: Stock, i: InventoryId, p: ProductId)
    requires StockOk(s)
    ensures Balance(s, i, p) == LedgerBalance(s.ledger, i, p)
  {
    MaterialisedBalance(s.inventories, s.ledger, i, p);
  }

  lemma {:induction false} MaterialisedBalance(
    inventories: seq<Inventory>, ledger: seq<StockRow>, i: InventoryId, p: ProductId)
    requires forall n :: 0 <= n < |ledger| ==> RowAllowed(inventories, ledger[n])
    ensures Lookup(Materialise(ledger), (i, p)) == LedgerBalance(ledger, i, p)
  {
    if ledger != [] {
      MaterialisedBalance(inventories, Front(ledger), i, p);
      BalanceMove(Materialise(Front(ledger)), Last(ledger), i, p);
    }
  }

  /** What a successful posting did, whatever the document: nothing is created or destroyed. */
  lemma {:induction false} PostEffect(s: Stock, d: Document, items: seq<(ProductId, int)>, s': Stock)
    requires d.from != d.to
    requires Post(s, d, items) == Success(s')
    ensures s' == s.(balances := s'.balances, ledger := s.ledger + Rows(d, items))
    ensures forall i, p :: Balance(s', i, p) == Balance(s, i, p) + Shift(d, items, i, p)
    ensures s.balances == Materialise(s.ledger) ==> s'.balances == Materialise(s'.ledger)
    ensures AllPositive(items) && (items != [] ==> Exists(s, d.from) && Exists(s, d.to))
  {
    if items == [] {
      assert s.ledger + Rows(d, items) == s.ledger;
    } else {
      var before := Post(s, d, Front(items)).value;
      PostEffect(s, d, Front(items), before);
      InsertEffect(before, RowOf(d, Last(items)), s');
      RowsStep(s.ledger, d, items);
      FrontAndLast(items);
      forall i, p
        ensures Balance(s', i, p) == Balance(s, i, p) + Shift(d, items, i, p)
      {
        ShiftStep(d, items, i, p);
      }
    }
  }

  lemma {:induction false} RowsStep(ledger: seq<StockRow>, d: Document, items: seq<(ProductId, int)>)
    requires items != []
    ensures ledger + Rows(d, items) == ledger + Rows(d, Front(items)) + [RowOf(d, Last(items))]
    ensures AllPositive(Front(items)) && Last(items).1 > 0 ==> AllPositive(items)
  {
    forall i | 0 <= i < |items| && AllPositive(Front(items)) && Last(items).1 > 0
      ensures items[i].1 > 0
    {
      if i < |items| - 1 {
        assert Front(items)[i] == items[i];
      }
    }
  }

  lemma {:induction false} ShiftStep(d: Document, items: seq<(ProductId, int)>, i: InventoryId, p: ProductId)
    requires items != [] && d.from != d.to
    ensures Shift(d, items, i, p) == Shift(d, Front(items), i, p) + Effect(RowOf(d, Last(items)), i, p)
  {
  }

  /** What one accepted row did. */
  lemma {:induction false} InsertEffect(s: Stock, r: StockRow, s': Stock)
    requires Insert(s, r) == Success(s')
    ensures RowAllowed(s.inventories, r) && s' == s.(balances := s'.balances, ledger := s.ledger + [r])
    ensures forall i, p :: Balance(s', i, p) == Balance(s, i, p) + Effect(r, i, p)
    ensures s.balances == Materialise(s.ledger) ==> s'.balances == Materialise(s'.ledger)
  {
    assert Front(s.ledger + [r]) == s.ledger;
    forall i, p
      ensures Balance(s', i, p) == Balance(s, i, p) + Effect(r, i, p)
    {
      BalanceMove(s.balances, r, i, p);
    }
  }

  /**
    A document commits exactly when its quantities are positive and its source is virtual or
    covers the totals: repeated products included, at every row.
   */
  lemma {:induction false} PostSucceedsIff(s: Stock, d: Document, items: seq<(ProductId, int)>)
    requires NoDebts(s) && d.from != d.to && Exists(s, d.from) && Exists(s, d.to)
    requires AllPositive(items)
    ensures Post(s, d, items).Success? <==> Virtual(s.inventories[d.from].kind) || Covers(s, d.from, items)
  {
    var free := Virtual(s.inventories[d.from].kind);
    if items != [] {
      var n, p, q := |items| - 1, Last(items).0, Last(items).1;
      PostSucceedsIff(s, d, Front(items));
      if Post(s, d, Front(items)).Success? {
        var before := Post(s, d, Front(items)).value;
        PostEffect(s, d, Front(items), before);
        var r := RowOf(d, Last(items));
        BalanceMove(before.balances, r, d.from, p);
        BalanceMove(before.balances, r, d.to, p);
        QuantityPositive(Front(items), p);
        var moved := before.(balances := Move(before.balances, r), ledger := before.ledger + [r]);
        assert Balance(moved, d.from, p) == Balance(s, d.from, p) - Quantity(items, p);
        assert NotNegative(moved, d.to, p) by {
          assert Virtual(s.inventories[d.to].kind) || Balance(s, d.to, p) >= 0;
        }
        assert Post(s, d, items).Success? <==> free || Quantity(items, p) <= Balance(s, d.from, p);
        if free || Quantity(items, p) <= Balance(s, d.from, p) {
          assert free || Covers(s, d.from, items);
        }
      } else {
        var short :| Quantity(Front(items), short) > Balance(s, d.from, short);
        assert Quantity(items, short) >= Quantity(Front(items), short);
      }
    } else if !free {
      assert Covers(s, d.from, items);
    }
  }

  /** A committed document keeps the books; the trigger does not guard the loss inventory, so a
      document drawn from it must be covered. */
  lemma {:induction false} PostKeepsOk(s: Stock, d: Document, items: seq<(ProductId, int)>, s': Stock)
    requires StockOk(s) && Exists(s, d.from) && Exists(s, d.to)
    requires s.inventories[d.from].kind == VirtualLoss ==> Covers(s, d.from, items)
    requires PostDocument(s, d, items) == Success(s')
    ensures StockOk(s')
    ensures s' == s.(balances := s'.balances, ledger := s.ledger + Rows(d, items))
    ensures forall i, p :: Balance(s', i, p) == Balance(s, i, p) + Shift(d, items, i, p)
  {
    PostEffect(s, d, items, s');
    PostKeepsRows(s, d, items, s');
    PostSucceedsIff(s, d, items);
    forall i: InventoryId, p: ProductId | Exists(s', i) && s'.inventories[i].kind != VirtualVendor
      ensures Balance(s', i, p) >= 0
    {
      QuantityPositive(items, p);
    }
  }

  lemma {:induction false} PostKeepsRows(s: Stock, d: Document, items: seq<(ProductId, int)>, s': Stock)
    requires d.from != d.to && Exists(s, d.from) && Exists(s, d.to) && AllPositive(items)
    requires forall n :: 0 <= n < |s.ledger| ==> RowAllowed(s.inventories, s.ledger[n])
    requires s'.inventories == s.inventories && s'.ledger == s.ledger + Rows(d, items)
    ensures forall n :: 0 <= n < |s'.ledger| ==> RowAllowed(s'.inventories, s'.ledger[n])
  {
    forall n | 0 <= n < |s'.ledger|
      ensures RowAllowed(s'.inventories, s'.ledger[n])
    {
      if n >= |s.ledger| {
        assert s'.ledger[n] == RowOf(d, items[n - |s.ledger|]);
      }
    }
  }
}
