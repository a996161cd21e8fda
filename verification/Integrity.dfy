/** The stock dashboard's integrity check: what the vendor issued is what everyone else holds. */
module Integrity {
  import opened Base
  import opened Tally
  import opened StockLedger
  import opened System
  import opened RunInvariant

  type Cell = (ProductId, InventoryType)

  predicate Located(inventories: seq<Inventory>, balances: Balances) {
    forall n :: 0 <= n < |balances| ==> balances[n].0.0 < |inventories|
  }

  /** The balances joined with the kind of their inventory. */
  function ByKind(inventories: seq<Inventory>, balances: Balances): seq<(Cell, int)>
    requires Located(inventories, balances)
  {
    seq(|balances|, n requires 0 <= n < |balances| =>
      ((balances[n].0.1, inventories[balances[n].0.0].kind), balances[n].1))
  }

  /** The query's rows: one total per product and kind of inventory. */
  function Grouped(s: Stock): seq<(Cell, int)>
    requires Located(s.inventories, s.balances)
  {
    Collect(ByKind(s.inventories, s.balances))
  }

  const REAL: set<InventoryType> := {Warehouse, Courier, Client}

  /** The cells of some products at inventories of some kinds. */
  function Cells(products: ProductId -> bool, kinds: set<InventoryType>): Cell -> bool {
    (cell: Cell) => products(cell.0) && cell.1 in kinds
  }

  function AnyProduct(): ProductId -> bool {
    _ => true
  }

  function Abs(n: int): nat {
    if n < 0 then -n else n
  }

  /** One line of the report: a product with what the vendor and the loss account hold of it. */
  datatype ProductLine = ProductLine(product: ProductId, vendor: int, loss: int)

  datatype Report = Report(vendor: int, loss: int, actual: int, diff: int, perProduct: seq<ProductLine>)

  /** The rows of one kind, per product. */
  function OfKind(rows: seq<(Cell, int)>, kind: InventoryType): seq<(ProductId, int)> {
    if rows == [] then []
    else OfKind(Front(rows), kind) + (if Last(rows).0.1 == kind then [(Last(rows).0.0, Last(rows).1)] else [])
  }

  lemma {:induction false} SumWhereAppend<K>(a: seq<(K, int)>, b: seq<(K, int)>, selected: K -> bool)
    ensures SumWhere(a + b, selected) == SumWhere(a, selected) + SumWhere(b, selected)
  {
    if a == [] {
      assert a + b == b;
    } else {
      assert (a + b)[1..] == a[1..] + b;
      SumWhereAppend(a[1..], b, selected);
    }
  }

  lemma {:induction false} SumWhereNext<K>(rows: seq<(K, int)>, i: nat, selected: K -> bool)
    requires i < |rows|
    ensures SumWhere(rows[..i + 1], selected) ==
            SumWhere(rows[..i], selected) + (if selected(rows[i].0) then rows[i].1 else 0)
  {
    assert rows[..i + 1] == rows[..i] + [rows[i]];
    SumWhereAppend(rows[..i], [rows[i]], selected);
    assert [rows[i]][1..] == [];
  }

  lemma {:induction false} OfKindNext(rows: seq<(Cell, int)>, i: nat, kind: InventoryType)
    requires i < |rows|
    ensures Collect(OfKind(rows[..i + 1], kind)) ==
            if rows[i].0.1 == kind then Bump(Collect(OfKind(rows[..i], kind)), rows[i].0.0, rows[i].1)
            else Collect(OfKind(rows[..i], kind))
  {
    assert Front(rows[..i + 1]) == rows[..i];
    var before, entry := OfKind(rows[..i], kind), (rows[i].0.0, rows[i].1);
    assert Front(before + [entry]) == before && before + [] == before;
  }

  /** The products of the rows, in the order they first appear. */
  ghost predicate NamesOf(rows: seq<(Cell, int)>, names: seq<ProductId>) {
    && (forall i, j :: 0 <= i < j < |names| ==> names[i] != names[j])
    && (forall i :: 0 <= i < |rows| ==> rows[i].0.0 in names)
  }

  /** The lines with something at the vendor or in the loss account, one per product. */
  method PerProduct(names: seq<ProductId>, vendor: seq<(ProductId, int)>, loss: seq<(ProductId, int)>)
    returns (lines: seq<ProductLine>)
    requires forall i, j :: 0 <= i < j < |names| ==> names[i] != names[j]
    ensures forall l :: l in lines <==>
              && l.product in names && l.vendor == Lookup(vendor, l.product) && l.loss == Lookup(loss, l.product)
              && (l.vendor != 0 || l.loss != 0)
    ensures forall i, j :: 0 <= i < j < |lines| ==> lines[i].product != lines[j].product
  {
    lines := [];
    for n := 0 to |names|
      invariant forall l :: l in lines <==>
                  && l.product in names[..n] && l.vendor == Lookup(vendor, l.product) && l.loss == Lookup(loss, l.product)
                  && (l.vendor != 0 || l.loss != 0)
      invariant forall i, j :: 0 <= i < j < |lines| ==> lines[i].product != lines[j].product
    {
      var line := ProductLine(names[n], Lookup(vendor, names[n]), Lookup(loss, names[n]));
      assert names[..n + 1] == names[..n] + [names[n]];
      assert names[n] !in names[..n];
      if line.vendor != 0 || line.loss != 0 {
        assert forall i :: 0 <= i < |lines| ==> lines[i] in lines;
        lines := lines + [line];
      }
    }
    assert names[..|names|] == names;
  }

  lemma {:induction false} OfKindAbsent(rows: seq<(Cell, int)>, kind: InventoryType, p: ProductId)
    requires forall i :: 0 <= i < |rows| ==> rows[i].0.0 != p
    ensures Quantity(OfKind(rows, kind), p) == 0
  {
    if rows != [] {
      var front := Front(rows);
      assert forall i :: 0 <= i < |front| ==> front[i] == rows[i];
      OfKindAbsent(front, kind, p);
      QuantityAppend(OfKind(front, kind), if Last(rows).0.1 == kind then [(Last(rows).0.0, Last(rows).1)] else [], p);
      QuantityWithoutKey(if Last(rows).0.1 == kind then [(Last(rows).0.0, Last(rows).1)] else [], p);
    }
  }

  /** The totals and dictionaries one pass over the grouped rows leaves. */
  datatype Pass = Pass(
    vendor: int, loss: int, actual: int,
    vendorByProduct: seq<(ProductId, int)>, lossByProduct: seq<(ProductId, int)>, names: seq<ProductId>)

  ghost predicate Sums(rows: seq<(Cell, int)>, t: Pass) {
    && t.vendor == SumWhere(rows, Cells(AnyProduct(), {VirtualVendor}))
    && t.loss == SumWhere(rows, Cells(AnyProduct(), {VirtualLoss}))
    && t.actual == SumWhere(rows, Cells(AnyProduct(), REAL))
  }

  ghost predicate ByProduct(rows: seq<(Cell, int)>, table: seq<(ProductId, int)>, kind: InventoryType) {
    table == Collect(OfKind(rows, kind))
  }

  lemma {:induction false} SumsNext(rows: seq<(Cell, int)>, i: nat)
    requires i < |rows|
    ensures SumWhere(rows[..i + 1], Cells(AnyProduct(), {VirtualVendor})) ==
            SumWhere(rows[..i], Cells(AnyProduct(), {VirtualVendor})) + if rows[i].0.1 == VirtualVendor then rows[i].1 else 0
    ensures SumWhere(rows[..i + 1], Cells(AnyProduct(), {VirtualLoss})) ==
            SumWhere(rows[..i], Cells(AnyProduct(), {VirtualLoss})) + if rows[i].0.1 == VirtualLoss then rows[i].1 else 0
    ensures SumWhere(rows[..i + 1], Cells(AnyProduct(), REAL)) ==
            SumWhere(rows[..i], Cells(AnyProduct(), REAL)) + if rows[i].0.1 in REAL then rows[i].1 else 0
  {
    SumWhereNext(rows, i, Cells(AnyProduct(), {VirtualVendor}));
    SumWhereNext(rows, i, Cells(AnyProduct(), {VirtualLoss}));
    SumWhereNext(rows, i, Cells(AnyProduct(), REAL));
  }

  /** `table[pid] = table.get(pid, 0) + qty`, for the rows of one kind. */
  function WithRow(table: seq<(ProductId, int)>, row: (Cell, int), kind: InventoryType): seq<(ProductId, int)> {
    if row.0.1 == kind then Bump(table, row.0.0, row.1) else table
  }

  lemma {:induction false} ByProductNext(rows: seq<(Cell, int)>, i: nat, table: seq<(ProductId, int)>, kind: InventoryType)
    requires i < |rows| && ByProduct(rows[..i], table, kind)
    ensures ByProduct(rows[..i + 1], WithRow(table, rows[i], kind), kind)
  {
    OfKindNext(rows, i, kind);
  }

  /** The loop over the grouped rows. */
  method OnePass(rows: seq<(Cell, int)>) returns (t: Pass)
    ensures Sums(rows, t) && NamesOf(rows, t.names)
    ensures ByProduct(rows, t.vendorByProduct, VirtualVendor) && ByProduct(rows, t.lossByProduct, VirtualLoss)
  {
    t := Pass(0, 0, 0, [], [], []);
    for i := 0 to |rows|
      invariant Sums(rows[..i], t)
      invariant ByProduct(rows[..i], t.vendorByProduct, VirtualVendor)
      invariant ByProduct(rows[..i], t.lossByProduct, VirtualLoss)
      invariant NamesOf(rows[..i], t.names)
    {
      SumsNext(rows, i);
      ByProductNext(rows, i, t.vendorByProduct, VirtualVendor);
      ByProductNext(rows, i, t.lossByProduct, VirtualLoss);
      assert rows[..i + 1] == rows[..i] + [rows[i]];
      var names := WithName(t.names, rows[..i], rows[i]);
      t := t.(names := names);
      var kind, q := rows[i].0.1, rows[i].1;
      if kind == VirtualVendor {
        t := t.(vendor := t.vendor + q, vendorByProduct := WithRow(t.vendorByProduct, rows[i], kind));
      } else if kind == VirtualLoss {
        t := t.(loss := t.loss + q, lossByProduct := WithRow(t.lossByProduct, rows[i], kind));
      } else if kind in REAL {
        t := t.(actual := t.actual + q);
      }
    }
    assert rows[..|rows|] == rows;
  }

  /**
    get_virtual_accounts: one pass over the grouped rows, then one over their products. A product is
    listed exactly when the vendor or the loss account holds something of it.
   */
  method VirtualAccounts(rows: seq<(Cell, int)>) returns (r: Report)
    ensures r.vendor == SumWhere(rows, Cells(AnyProduct(), {VirtualVendor}))
    ensures r.loss == SumWhere(rows, Cells(AnyProduct(), {VirtualLoss}))
    ensures r.actual == SumWhere(rows, Cells(AnyProduct(), REAL))
    ensures r.diff == Abs(r.vendor) - r.loss - r.actual
    ensures forall l :: l in r.perProduct <==>
              && l.vendor == Quantity(OfKind(rows, VirtualVendor), l.product)
              && l.loss == Quantity(OfKind(rows, VirtualLoss), l.product)
              && (l.vendor != 0 || l.loss != 0)
    ensures forall i, j :: 0 <= i < j < |r.perProduct| ==> r.perProduct[i].product != r.perProduct[j].product
  {
    var t := OnePass(rows);
    var perProduct := PerProduct(t.names, t.vendorByProduct, t.lossByProduct);
    ListedFigures(rows, t.names);
    r := Report(t.vendor, t.loss, t.actual, Abs(t.vendor) - t.loss - t.actual, perProduct);
  }

  /** `names[r.pid] = r.pname`: a product already known keeps its place. */
  method WithName(names: seq<ProductId>, ghost rows: seq<(Cell, int)>, row: (Cell, int)) returns (names': seq<ProductId>)
    requires NamesOf(rows, names)
    ensures NamesOf(rows + [row], names') && names <= names'
  {
    names' := if row.0.0 in names then names else names + [row.0.0];
  }

  /** What the two dictionaries answer is what the rows add up to, and nothing for unlisted products. */
  lemma {:induction false} ListedFigures(rows: seq<(Cell, int)>, names: seq<ProductId>)
    requires NamesOf(rows, names)
    ensures forall p :: Lookup(Collect(OfKind(rows, VirtualVendor)), p) == Quantity(OfKind(rows, VirtualVendor), p)
    ensures forall p :: Lookup(Collect(OfKind(rows, VirtualLoss)), p) == Quantity(OfKind(rows, VirtualLoss), p)
    ensures forall p :: p !in names ==> Quantity(OfKind(rows, VirtualVendor), p) == 0
    ensures forall p :: p !in names ==> Quantity(OfKind(rows, VirtualLoss), p) == 0
  {
    forall p
      ensures Lookup(Collect(OfKind(rows, VirtualVendor)), p) == Quantity(OfKind(rows, VirtualVendor), p)
    {
      LookupCollect(OfKind(rows, VirtualVendor), p);
    }
    forall p
      ensures Lookup(Collect(OfKind(rows, VirtualLoss)), p) == Quantity(OfKind(rows, VirtualLoss), p)
    {
      LookupCollect(OfKind(rows, VirtualLoss), p);
    }
    forall p | p !in names
      ensures Quantity(OfKind(rows, VirtualVendor), p) == 0
    {
      OfKindAbsent(rows, VirtualVendor, p);
    }
    forall p | p !in names
      ensures Quantity(OfKind(rows, VirtualLoss), p) == 0
    {
      OfKindAbsent(rows, VirtualLoss, p);
    }
  }

  // ---- What the report must say ----

  lemma {:induction false} SumWhereCollect<K>(items: seq<(K, int)>, selected: K -> bool)
    ensures SumWhere(Collect(items), selected) == SumWhere(items, selected)
  {
    if items != [] {
      SumWhereCollect(Front(items), selected);
      SumWhereBump(Collect(Front(items)), Last(items).0, Last(items).1, selected);
      SumWhereAppend(Front(items), [Last(items)], selected);
      assert items == Front(items) + [Last(items)] && [Last(items)][1..] == [];
    }
  }

  function OfProducts(products: ProductId -> bool): BalanceKey -> bool {
    (key: BalanceKey) => products(key.1)
  }

  /** Every row takes from one inventory what it gives to another. */
  lemma {:induction false} ProductsSumToZero(ledger: seq<StockRow>, products: ProductId -> bool)
    ensures SumWhere(Materialise(ledger), OfProducts(products)) == 0
  {
    if ledger != [] {
      var b, r := Materialise(Front(ledger)), Last(ledger);
      ProductsSumToZero(Front(ledger), products);
      SumWhereBump(b, (r.from, r.product), -r.quantity, OfProducts(products));
      SumWhereBump(Bump(b, (r.from, r.product), -r.quantity), (r.to, r.product), r.quantity, OfProducts(products));
    }
  }

  lemma {:induction false} MaterialisedKeys(inventories: seq<Inventory>, ledger: seq<StockRow>)
    requires forall n :: 0 <= n < |ledger| ==> RowAllowed(inventories, ledger[n])
    ensures DistinctKeys(Materialise(ledger)) && Located(inventories, Materialise(ledger))
  {
    if ledger != [] {
      var b, r := Materialise(Front(ledger)), Last(ledger);
      var b1 := Bump(b, (r.from, r.product), -r.quantity);
      MaterialisedKeys(inventories, Front(ledger));
      DistinctBump(b, (r.from, r.product), -r.quantity);
      DistinctBump(b1, (r.to, r.product), r.quantity);
      var b2 := Materialise(ledger);
      forall n | 0 <= n < |b2|
        ensures b2[n].0.0 < |inventories|
      {
        assert HasKey(b2, b2[n].0);
        HasKeyBump(b1, (r.to, r.product), r.quantity, b2[n].0);
        HasKeyBump(b, (r.from, r.product), -r.quantity, b2[n].0);
        if HasKey(b, b2[n].0) {
          var k :| 0 <= k < |b| && b[k].0 == b2[n].0;
        }
      }
    }
  }

  /** The kinds partition the balances. */
  lemma {:induction false} KindsPartition(inventories: seq<Inventory>, balances: Balances, products: ProductId -> bool)
    requires Located(inventories, balances)
    ensures var cells := ByKind(inventories, balances);
            SumWhere(balances, OfProducts(products)) ==
            SumWhere(cells, Cells(products, {VirtualVendor})) + SumWhere(cells, Cells(products, {VirtualLoss})) +
            SumWhere(cells, Cells(products, REAL))
  {
    if balances != [] {
      KindsPartition(inventories, balances[1..], products);
      assert ByKind(inventories, balances)[1..] == ByKind(inventories, balances[1..]);
      var cell := ByKind(inventories, balances)[0].0;
      assert OfProducts(products)(balances[0].0) == products(cell.0);
      match cell.1
      case VirtualVendor => assert Cells(products, {VirtualVendor})(cell) == products(cell.0);
      case VirtualLoss => assert Cells(products, {VirtualLoss})(cell) == products(cell.0);
      case Warehouse => assert Cells(products, REAL)(cell) == products(cell.0);
      case Courier => assert Cells(products, REAL)(cell) == products(cell.0);
      case Client => assert Cells(products, REAL)(cell) == products(cell.0);
    }
  }

  lemma {:induction false} HoldingsNonNegative(
    inventories: seq<Inventory>, balances: Balances, products: ProductId -> bool, kinds: set<InventoryType>)
    requires Located(inventories, balances) && VirtualVendor !in kinds
    requires forall n :: 0 <= n < |balances| && inventories[balances[n].0.0].kind != VirtualVendor ==> balances[n].1 >= 0
    ensures SumWhere(ByKind(inventories, balances), Cells(products, kinds)) >= 0
  {
    if balances != [] {
      HoldingsNonNegative(inventories, balances[1..], products, kinds);
      assert ByKind(inventories, balances)[1..] == ByKind(inventories, balances[1..]);
    }
  }

  lemma {:induction false} EntriesNonNegative(s: Stock)
    requires StockOk(s)
    ensures Located(s.inventories, s.balances)
    ensures forall n :: 0 <= n < |s.balances| && s.inventories[s.balances[n].0.0].kind != VirtualVendor ==> s.balances[n].1 >= 0
  {
    MaterialisedKeys(s.inventories, s.ledger);
    forall n | 0 <= n < |s.balances| && s.inventories[s.balances[n].0.0].kind != VirtualVendor
      ensures s.balances[n].1 >= 0
    {
      LookupAt(s.balances, n);
      var (i, p) := s.balances[n].0;
      assert Balance(s, i, p) >= 0;
    }
  }

  /**
    For any choice of products - all of them, or the containers of the distribution screen - the
    vendor's balance is the negated sum of what warehouses, couriers, clients and losses hold.
   */
  lemma {:induction false} VendorMirrorsHoldings(s: Stock, products: ProductId -> bool)
    requires StockOk(s)
    ensures Located(s.inventories, s.balances)
    ensures var rows := Grouped(s);
            var vendor, loss, actual := SumWhere(rows, Cells(products, {VirtualVendor})),
                SumWhere(rows, Cells(products, {VirtualLoss})), SumWhere(rows, Cells(products, REAL));
            vendor <= 0 && loss >= 0 && actual >= 0 && Abs(vendor) == loss + actual
  {
    EntriesNonNegative(s);
    var cells := ByKind(s.inventories, s.balances);
    SumWhereCollect(cells, Cells(products, {VirtualVendor}));
    SumWhereCollect(cells, Cells(products, {VirtualLoss}));
    SumWhereCollect(cells, Cells(products, REAL));
    ProductsSumToZero(s.ledger, products);
    KindsPartition(s.inventories, s.balances, products);
    HoldingsNonNegative(s.inventories, s.balances, products, {VirtualLoss});
    HoldingsNonNegative(s.inventories, s.balances, products, REAL);
  }

  /** The dashboard run on any reachable database reports no discrepancy. */
  method CheckIntegrity(cmds: seq<Command>) returns (r: Report)
    ensures r.diff == 0
    ensures r.vendor <= 0 && r.loss >= 0 && r.actual >= 0
  {
    var s := Run(EMPTY, cmds).stock;
    assert StockOk(s) by {
      StartsInOrder();
      RunKeepsInv(EMPTY, cmds);
    }
    VendorMirrorsHoldings(s, AnyProduct());
    r := VirtualAccounts(Grouped(s));
  }
}
