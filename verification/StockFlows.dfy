/**
  The stock side of deliveries, pickups and transfers: when a chain of documents commits, what
  it moves in the end, and that the books stay in order.
 */
module StockFlows {
  import opened Base
  import opened Tally
  import opened StockLedger
  import opened Database
  import opened Tara
  import opened OrderSteps
  import opened StockSteps
  import opened LineTotals

  /** How many containers of kind `p` one line comes in. */
  function ContainersOf(catalog: Catalog, line: Line, p: ProductId): int {
    if line.product in catalog && catalog[line.product].returnable == Some(p) then line.quantity else 0
  }

  /** The containers of kind `p` that go with the lines: the quantities of the lines that come in it. */
  function Containers(catalog: Catalog, lines: seq<Line>, p: ProductId): int {
    Sum(ContainerCounts(catalog, lines, p))
  }

  function ContainerCounts(catalog: Catalog, lines: seq<Line>, p: ProductId): seq<int> {
    seq(|lines|, i requires 0 <= i < |lines| => ContainersOf(catalog, lines[i], p))
  }

  /** Pairing line by line finds exactly those containers. */
  lemma {:induction false} PairedIsContainers(catalog: Catalog, lines: seq<Line>, p: ProductId)
    requires LinesAllowed(lines)
    ensures Quantity(Paired(catalog, lines), p) == Containers(catalog, lines, p)
  {
    if lines != [] {
      var front, line := Front(lines), lines[|lines| - 1];
      assert forall i :: 0 <= i < |front| ==> front[i] == lines[i];
      PairedIsContainers(catalog, front, p);
      assert Front(ContainerCounts(catalog, lines, p)) == ContainerCounts(catalog, front, p);
      var pair := if Returnable(catalog, line.product).Some? then [(Returnable(catalog, line.product).value, line.quantity)] else [];
      assert Paired(catalog, lines) == Paired(catalog, front) + pair;
      QuantityAppend(Paired(catalog, front), pair, p);
      if pair != [] {
        assert Front(pair) == [];
      }
    }
  }

  /** What a walk-in takes away and hands back: containers not bought as positions. */
  function Exchanged(catalog: Catalog, lines: seq<Line>, walkin: bool, p: ProductId): int {
    if walkin && HasKey(Quantities(lines), p) then 0 else Containers(catalog, lines, p)
  }

  function At(i: InventoryId, here: InventoryId, q: int): int {
    if i == here then q else 0
  }

  /** Product by product, `q` leaves `from` and reaches `to`; nothing else changes. */
  ghost predicate MovesExactly(s: Stock, s': Stock, from: InventoryId, to: InventoryId, lines: seq<Line>) {
    forall i, p :: Balance(s', i, p) == Balance(s, i, p) + At(i, to, Held(lines, p)) - At(i, from, Held(lines, p))
  }

  /** The same, and the paired containers come from the vendor to `from`. */
  ghost predicate MovesWithContainers(
    s: Stock, s': Stock, from: InventoryId, to: InventoryId, catalog: Catalog, lines: seq<Line>)
  {
    forall i, p :: Balance(s', i, p) == Balance(s, i, p)
      + At(i, to, Held(lines, p)) - At(i, from, Held(lines, p))
      + At(i, from, Containers(catalog, lines, p)) - At(i, s.vendor, Containers(catalog, lines, p))
  }

  /** The books are in order after the change, with the same inventories and a longer ledger. */
  ghost predicate InOrder(s: Stock, s': Stock) {
    StockOk(s') && s'.inventories == s.inventories && s'.vendor == s.vendor && s'.loss == s.loss && s.ledger <= s'.ledger
  }

  ghost predicate Shifts(s: Stock, s': Stock, d: Document, items: seq<(ProductId, int)>) {
    forall i, p :: Balance(s', i, p) == Balance(s, i, p) + At(i, d.to, Quantity(items, p)) - At(i, d.from, Quantity(items, p))
  }

  lemma {:induction false} PairedPositive(catalog: Catalog, lines: seq<Line>)
    ensures AllPositive(Paired(catalog, lines))
  {
    if lines != [] {
      PairedPositive(catalog, Front(lines));
    }
  }

  lemma {:induction false} ReturnableTotals(catalog: Catalog, lines: seq<Line>)
    requires LinesAllowed(lines)
    ensures AllPositive(ReturnableItems(catalog, lines)) && DistinctKeys(ReturnableItems(catalog, lines))
    ensures forall p :: Quantity(ReturnableItems(catalog, lines), p) == Containers(catalog, lines, p)
    ensures forall p :: Containers(catalog, lines, p) >= 0
  {
    PairedPositive(catalog, lines);
    CollectPositive(Paired(catalog, lines));
    CollectKeys(Paired(catalog, lines), 0);
    forall p
      ensures Quantity(ReturnableItems(catalog, lines), p) == Containers(catalog, lines, p)
      ensures Containers(catalog, lines, p) >= 0
    {
      QuantityCollect(Paired(catalog, lines), p);
      QuantityPositive(Paired(catalog, lines), p);
      PairedIsContainers(catalog, lines, p);
    }
  }

  lemma {:induction false} NotOrderedTotals(tare: seq<(ProductId, int)>, lines: seq<Line>, p: ProductId)
    ensures Quantity(NotOrdered(tare, lines), p) == if HasKey(Quantities(lines), p) then 0 else Quantity(tare, p)
    ensures AllPositive(tare) ==> AllPositive(NotOrdered(tare, lines))
  {
    if tare != [] {
      NotOrderedTotals(Front(tare), lines, p);
      QuantityAppend(NotOrdered(Front(tare), lines),
                     if HasKey(Quantities(lines), Last(tare).0) then [] else [Last(tare)], p);
      assert Front([Last(tare)]) == [];
      if AllPositive(tare) {
        assert AllPositive(Front(tare));
      }
    }
  }

  lemma {:induction false} HandedTotals(catalog: Catalog, lines: seq<Line>, walkin: bool)
    requires LinesAllowed(lines)
    ensures var handed := HandedOver(ReturnableItems(catalog, lines), lines, walkin);
            && AllPositive(handed)
            && (forall p :: Quantity(handed, p) == Exchanged(catalog, lines, walkin, p))
            && (forall p :: Exchanged(catalog, lines, walkin, p) >= 0)
  {
    ReturnableTotals(catalog, lines);
    var tare := ReturnableItems(catalog, lines);
    NotOrderedTotals(tare, lines, 0);
    forall p
      ensures Quantity(HandedOver(tare, lines, walkin), p) == Exchanged(catalog, lines, walkin, p)
    {
      NotOrderedTotals(tare, lines, p);
    }
  }

  /** One document out of any inventory but the loss account. */
  lemma {:induction false} OneDocument(s: Stock, d: Document, items: seq<(ProductId, int)>)
    requires StockOk(s) && Exists(s, d.from) && Exists(s, d.to) && AllPositive(items)
    requires s.inventories[d.from].kind == VirtualLoss ==> Covers(s, d.from, items)
    ensures var out := StockTransfer(s, d, items);
            && (out.Success? <==>
                  d.from != d.to && (s.inventories[d.from].kind == VirtualVendor || Covers(s, d.from, items)))
            && (out.Success? ==> InOrder(s, out.value) && Shifts(s, out.value, d, items))
  {
    PositiveIsIdentity(items);
    if d.from != d.to {
      PostSucceedsIff(s, d, items);
      if Post(s, d, items).Success? {
        PostKeepsOk(s, d, items, Post(s, d, items).value);
      }
    }
  }

  /** Containers drawn from the vendor onto a warehouse: never refused. */
  lemma {:induction false} FundContainers(s: Stock, w: InventoryId, tare: seq<(ProductId, int)>, o: OrderId, now: int)
    returns (s1: Stock)
    requires StockOk(s) && Exists(s, w) && s.inventories[w].kind == Warehouse && AllPositive(tare)
    ensures StockTransfer(s, Document(s.vendor, w, InitialBalance, Some(o), now), tare) == Success(s1)
    ensures InOrder(s, s1) && Shifts(s, s1, Document(s.vendor, w, InitialBalance, Some(o), now), tare)
  {
    var d := Document(s.vendor, w, InitialBalance, Some(o), now);
    OneDocument(s, d, tare);
    s1 := StockTransfer(s, d, tare).value;
  }

  lemma {:induction false} BothTotals(lines: seq<Line>, extra: seq<(ProductId, int)>)
    requires LinesAllowed(lines) && AllPositive(extra)
    ensures AllPositive(Quantities(lines) + extra)
    ensures forall p :: Quantity(Quantities(lines) + extra, p) == Held(lines, p) + Quantity(extra, p)
  {
    HeldNonNegative(lines, 0);
    forall p
      ensures Quantity(Quantities(lines) + extra, p) == Held(lines, p) + Quantity(extra, p)
    {
      QuantityAppend(Quantities(lines), extra, p);
    }
  }

  /** The receiver of lines and containers can always hand the containers back. */
  lemma {:induction false} CanHandBack(s: Stock, s': Stock, d: Document, lines: seq<Line>, extra: seq<(ProductId, int)>)
    requires StockOk(s) && Exists(s, d.to) && d.from != d.to && LinesAllowed(lines) && AllPositive(extra)
    requires Shifts(s, s', d, Quantities(lines) + extra)
    ensures s.inventories[d.to].kind != VirtualVendor ==> Covers(s', d.to, extra)
  {
    BothTotals(lines, extra);
    forall p | s.inventories[d.to].kind != VirtualVendor
      ensures Quantity(extra, p) <= Balance(s', d.to, p)
    {
      HeldNonNegative(lines, p);
      assert Balance(s, d.to, p) >= 0;
    }
  }

  /** Lines and extra items go out, the extra items come back. */
  function Swap(s: Stock, out: Document, back: Document, lines: seq<Line>, extra: seq<(ProductId, int)>): Result<Stock> {
    var s1 :- StockTransfer(s, out, Quantities(lines) + extra);
    if extra == [] then Success(s1) else StockTransfer(s1, back, extra)
  }

  /** A swap commits exactly when its source covers lines and extras, and then moves the lines alone. */
  lemma {:induction false} SwapFlow(s: Stock, out: Document, back: Document, lines: seq<Line>, extra: seq<(ProductId, int)>)
    requires StockOk(s) && Exists(s, out.from) && Exists(s, out.to) && !Virtual(s.inventories[out.from].kind)
    requires back.from == out.to && back.to == out.from && LinesAllowed(lines) && AllPositive(extra)
    ensures Swap(s, out, back, lines, extra).Success? <==>
            out.from != out.to && forall p :: Held(lines, p) + Quantity(extra, p) <= Balance(s, out.from, p)
    ensures Swap(s, out, back, lines, extra).Success? ==>
              InOrder(s, Swap(s, out, back, lines, extra).value) &&
              MovesExactly(s, Swap(s, out, back, lines, extra).value, out.from, out.to, lines)
  {
    var items := Quantities(lines) + extra;
    BothTotals(lines, extra);
    OneDocument(s, out, items);
    assert Covers(s, out.from, items) <==> forall p :: Held(lines, p) + Quantity(extra, p) <= Balance(s, out.from, p);
    var s1 := StockTransfer(s, out, items);
    if s1.Success? {
      if extra == [] {
        assert forall p :: Quantity(extra, p) == 0;
      } else {
        CanHandBack(s, s1.value, out, lines, extra);
        OneDocument(s1.value, back, extra);
      }
    }
  }

  /**
    A delivery commits exactly when the courier holds the lines plus the paired containers, and
    then moves exactly the lines: the containers net to zero on both sides.
   */
  lemma {:induction false} DeliveryFlow(
    s: Stock, courier: InventoryId, client: InventoryId, lines: seq<Line>, catalog: Catalog, o: OrderId, now: int)
    requires StockOk(s) && Exists(s, courier) && Exists(s, client) && s.inventories[courier].kind == Courier
    requires LinesAllowed(lines)
    ensures var out := DeliverStock(s, courier, client, lines, catalog, o, now);
            && (out.Success? <==>
                  courier != client &&
                  forall p :: Held(lines, p) + Containers(catalog, lines, p) <= Balance(s, courier, p))
            && (out.Success? ==> InOrder(s, out.value) && MovesExactly(s, out.value, courier, client, lines))
  {
    ReturnableTotals(catalog, lines);
    var tare := ReturnableItems(catalog, lines);
    var out, back := Document(courier, client, ClientDelivery, Some(o), now), Document(client, courier, ClientReturn, Some(o), now);
    assert DeliverStock(s, courier, client, lines, catalog, o, now) == Swap(s, out, back, lines, tare);
    SwapFlow(s, out, back, lines, tare);
  }

  /**
    A pickup commits exactly when the warehouse covers the lines - plus, for a walk-in, the
    containers that go along. A walk-in moves exactly the lines; for a named client the warehouse
    also ends up with the paired containers, drawn from the vendor.
   */
  lemma {:induction false} PickupFlow(
    s: Stock, w: InventoryId, client: InventoryId, lines: seq<Line>, walkin: bool, catalog: Catalog, o: OrderId, now: int)
    requires StockOk(s) && Exists(s, w) && Exists(s, client) && s.inventories[w].kind == Warehouse
    requires LinesAllowed(lines)
    ensures var out := PickupStock(s, w, client, lines, walkin, catalog, o, now);
            && (out.Success? <==>
                  w != client &&
                  forall p :: Held(lines, p) + (if walkin then Exchanged(catalog, lines, true, p) else 0) <= Balance(s, w, p))
            && (out.Success? ==>
                  && InOrder(s, out.value)
                  && (walkin ==> MovesExactly(s, out.value, w, client, lines))
                  && (!walkin ==> MovesWithContainers(s, out.value, w, client, catalog, lines)))
  {
    ReturnableTotals(catalog, lines);
    HandedTotals(catalog, lines, walkin);
    var s1 := Funded(s, w, catalog, lines, walkin, o, now);
    var out, back := Document(w, client, WarehouseSale, Some(o), now), Document(client, w, WarehouseTaraReturn, Some(o), now);
    var handed := HandedOver(ReturnableItems(catalog, lines), lines, walkin);
    assert PickupStock(s, w, client, lines, walkin, catalog, o, now) == Swap(s1, out, back, lines, handed);
    SwapFlow(s1, out, back, lines, handed);
  }

  /** The first part of a pickup: for a named client the containers come onto the warehouse. */
  lemma {:induction false} Funded(
    s: Stock, w: InventoryId, catalog: Catalog, lines: seq<Line>, walkin: bool, o: OrderId, now: int) returns (s1: Stock)
    requires StockOk(s) && Exists(s, w) && s.inventories[w].kind == Warehouse && LinesAllowed(lines)
    ensures var tare := ReturnableItems(catalog, lines);
            if tare != [] && !walkin
            then StockTransfer(s, Document(s.vendor, w, InitialBalance, Some(o), now), tare) == Success(s1) else s1 == s
    ensures InOrder(s, s1)
    ensures forall i, p :: Balance(s1, i, p) == Balance(s, i, p) +
              (if walkin then 0 else At(i, w, Containers(catalog, lines, p)) - At(i, s.vendor, Containers(catalog, lines, p)))
  {
    ReturnableTotals(catalog, lines);
    var tare := ReturnableItems(catalog, lines);
    if tare != [] && !walkin {
      s1 := FundContainers(s, w, tare, o, now);
    } else {
      s1 := s;
      assert tare == [] ==> forall p :: Quantity(tare, p) == 0;
    }
  }

  /** Without repeated products the per-line check is the covering condition. */
  lemma {:induction false} ShortIsExactWhenDistinct(s: Stock, i: InventoryId, lines: seq<Line>)
    requires StockOk(s) && Exists(s, i) && s.inventories[i].kind != VirtualVendor
    requires LinesAllowed(lines) && DistinctKeys(Quantities(lines))
    ensures !Short(s, i, lines) <==> Covers(s, i, Quantities(lines))
  {
    var items := Quantities(lines);
    forall n | 0 <= n < |lines|
      ensures Held(lines, lines[n].product) == lines[n].quantity
    {
      QuantityOfDistinct(items, n);
      assert items[n] == (lines[n].product, lines[n].quantity);
    }
    if !Short(s, i, lines) {
      forall p
        ensures Quantity(items, p) <= Balance(s, i, p)
      {
        if HasKey(items, p) {
          var n :| 0 <= n < |items| && items[n].0 == p;
          assert lines[n].product == p;
        } else {
          QuantityWithoutKey(items, p);
        }
      }
    }
  }

  /** The pre-check of a named pickup of distinct products is enough: no row is ever refused. */
  lemma {:induction false} NamedPickupNeverTrips(
    s: Stock, w: InventoryId, client: InventoryId, lines: seq<Line>, catalog: Catalog, o: OrderId, now: int)
    requires StockOk(s) && Exists(s, w) && Exists(s, client) && s.inventories[w].kind == Warehouse && w != client
    requires LinesAllowed(lines) && DistinctKeys(Quantities(lines)) && !Short(s, w, lines)
    ensures PickupStock(s, w, client, lines, false, catalog, o, now).Success?
  {
    PickupFlow(s, w, client, lines, false, catalog, o, now);
    ShortIsExactWhenDistinct(s, w, lines);
    assert forall p :: Quantity(Quantities(lines), p) == Held(lines, p);
  }

  // ---- Transfers between inventories ----

  /** The aggregated check of create_transfer is the covering condition, repeats included. */
  lemma {:induction false} LacksIsExact(s: Stock, i: InventoryId, items: Cart)
    requires StockOk(s) && Exists(s, i) && s.inventories[i].kind != VirtualVendor && AllPositive(items)
    ensures !Lacks(s, i, Collect(items)) <==> Covers(s, i, items)
  {
    var table := Collect(items);
    CollectKeys(items, 0);
    forall n | 0 <= n < |table|
      ensures table[n].1 == Quantity(items, table[n].0)
    {
      LookupAt(table, n);
      LookupCollect(items, table[n].0);
    }
    if !Lacks(s, i, table) {
      forall p
        ensures Quantity(items, p) <= Balance(s, i, p)
      {
        CollectKeys(items, p);
        QuantityPositive(items, p);
        if HasKey(table, p) {
          var n :| 0 <= n < |table| && table[n].0 == p;
        }
      }
    }
  }

  /**
    create_transfer never reaches the trigger's refusal: past the route checks it fails only with
    a shortage, and then the source really cannot cover the totals.
   */
  lemma {:induction false} TransferFlow(db: Db, req: TransferRequest, catalog: Catalog, now: int)
    requires StockOk(db.stock)
    ensures var out, route := CreateTransfer(db, req, catalog, now), Route(db.stock, req, catalog);
            route.Success? ==>
              var from, to := route.value.0, route.value.1;
              && (out.Success? <==> db.stock.inventories[from].kind == VirtualVendor || Covers(db.stock, from, req.items))
              && (out.Failure? ==> out.error == Error.InsufficientStock)
              && (out.Success? ==>
                    && InOrder(db.stock, out.value.stock)
                    && Shifts(db.stock, out.value.stock, Document(from, to, req.transfer, None, now), req.items))
  {
    var s, route := db.stock, Route(db.stock, req, catalog);
    if route.Success? {
      var (from, to) := route.value;
      var d := Document(from, to, req.transfer, None, now);
      assert s.inventories[from].kind != VirtualLoss;
      if s.inventories[from].kind != VirtualVendor {
        LacksIsExact(s, from, req.items);
      }
      PostSucceedsIff(s, d, req.items);
      if Post(s, d, req.items).Success? {
        PostKeepsOk(s, d, req.items, Post(s, d, req.items).value);
      }
    }
  }

  // ---- How a transfer past the checks fails ----

  lemma {:induction false} PositiveOnly(items: seq<(ProductId, int)>)
    ensures AllPositive(Positive(items))
  {
    if items != [] {
      PositiveOnly(Front(items));
    }
  }

  /** Between two existing inventories only the trigger refuses a transfer. */
  lemma {:induction false} TransferRefusal(s: Stock, d: Document, items: seq<(ProductId, int)>)
    requires d.from != d.to && Exists(s, d.from) && Exists(s, d.to)
    ensures StockTransfer(s, d, items).Failure? ==> StockTransfer(s, d, items).error == NegativeBalance
    ensures StockTransfer(s, d, items).Success? ==> StockTransfer(s, d, items).value.inventories == s.inventories
  {
    PositiveOnly(items);
    PostRefusal(s, d, Positive(items));
    if StockTransfer(s, d, items).Success? {
      PostEffect(s, d, Positive(items), StockTransfer(s, d, items).value);
    }
  }

  lemma {:induction false} PostRefusal(s: Stock, d: Document, items: seq<(ProductId, int)>)
    requires d.from != d.to && Exists(s, d.from) && Exists(s, d.to) && AllPositive(items)
    ensures Post(s, d, items).Failure? ==> Post(s, d, items).error == NegativeBalance
  {
    if items != [] {
      FrontPositive(items);
      PostRefusal(s, d, Front(items));
      if Post(s, d, Front(items)).Success? {
        PostEffect(s, d, Front(items), Post(s, d, Front(items)).value);
      }
    }
  }

  lemma {:induction false} DeliveryRefusal(
    s: Stock, courier: InventoryId, client: InventoryId, lines: seq<Line>, catalog: Catalog, o: OrderId, now: int)
    requires courier != client && Exists(s, courier) && Exists(s, client)
    ensures var out := DeliverStock(s, courier, client, lines, catalog, o, now);
            out.Failure? ==> out.error == NegativeBalance
  {
    var tare, d := ReturnableItems(catalog, lines), Document(courier, client, ClientDelivery, Some(o), now);
    TransferRefusal(s, d, Quantities(lines) + tare);
    var s1 := StockTransfer(s, d, Quantities(lines) + tare);
    if s1.Success? {
      TransferRefusal(s1.value, Document(client, courier, ClientReturn, Some(o), now), tare);
    }
  }

  lemma {:induction false} PickupRefusal(
    s: Stock, w: InventoryId, client: InventoryId, lines: seq<Line>, walkin: bool, catalog: Catalog, o: OrderId, now: int)
    requires w != client && w != s.vendor && Exists(s, w) && Exists(s, client) && Exists(s, s.vendor)
    ensures var out := PickupStock(s, w, client, lines, walkin, catalog, o, now);
            out.Failure? ==> out.error == NegativeBalance
  {
    var tare := ReturnableItems(catalog, lines);
    var funding, sale := Document(s.vendor, w, InitialBalance, Some(o), now), Document(w, client, WarehouseSale, Some(o), now);
    var handed := HandedOver(tare, lines, walkin);
    TransferRefusal(s, funding, tare);
    var s1 := if tare != [] && !walkin then StockTransfer(s, funding, tare) else Success(s);
    if s1.Success? {
      TransferRefusal(s1.value, sale, Quantities(lines) + handed);
      var s2 := StockTransfer(s1.value, sale, Quantities(lines) + handed);
      if s2.Success? {
        TransferRefusal(s2.value, Document(client, w, WarehouseTaraReturn, Some(o), now), handed);
      }
    }
  }

  // ---- The rows of a chain of documents ----

  /** The row belongs to document `d`. */
  predicate RowFor(r: StockRow, d: Document) {
    r.from == d.from && r.to == d.to && r.transfer == d.transfer && r.order == d.order && r.at == d.at
  }

  lemma {:induction false} TransferRows(s: Stock, d: Document, items: seq<(ProductId, int)>, s': Stock)
    requires StockTransfer(s, d, items) == Success(s')
    ensures s.ledger <= s'.ledger && forall n :: |s.ledger| <= n < |s'.ledger| ==> RowFor(s'.ledger[n], d)
  {
    PostEffect(s, d, Positive(items), s');
  }

  /** A swap writes rows of its two documents only. */
  lemma {:induction false} SwapRows(s: Stock, out: Document, back: Document, lines: seq<Line>, extra: seq<(ProductId, int)>, s': Stock)
    requires Swap(s, out, back, lines, extra) == Success(s')
    ensures s.ledger <= s'.ledger
    ensures forall n :: |s.ledger| <= n < |s'.ledger| ==> RowFor(s'.ledger[n], out) || RowFor(s'.ledger[n], back)
  {
    var s1 := StockTransfer(s, out, Quantities(lines) + extra).value;
    TransferRows(s, out, Quantities(lines) + extra, s1);
    if extra != [] {
      TransferRows(s1, back, extra, s');
    }
  }

  lemma {:induction false} DeliveryRows(
    s: Stock, courier: InventoryId, client: InventoryId, lines: seq<Line>, catalog: Catalog, o: OrderId, now: int, s': Stock)
    requires DeliverStock(s, courier, client, lines, catalog, o, now) == Success(s')
    ensures s.ledger <= s'.ledger
    ensures forall n :: |s.ledger| <= n < |s'.ledger| ==>
              || RowFor(s'.ledger[n], Document(courier, client, ClientDelivery, Some(o), now))
              || RowFor(s'.ledger[n], Document(client, courier, ClientReturn, Some(o), now))
  {
    SwapRows(s, Document(courier, client, ClientDelivery, Some(o), now), Document(client, courier, ClientReturn, Some(o), now),
             lines, ReturnableItems(catalog, lines), s');
  }

  lemma {:induction false} PickupRows(
    s: Stock, w: InventoryId, client: InventoryId, lines: seq<Line>, walkin: bool, catalog: Catalog, o: OrderId, now: int, s': Stock)
    requires PickupStock(s, w, client, lines, walkin, catalog, o, now) == Success(s')
    ensures s.ledger <= s'.ledger
    ensures forall n :: |s.ledger| <= n < |s'.ledger| ==>
              || (!walkin && RowFor(s'.ledger[n], Document(s.vendor, w, InitialBalance, Some(o), now)))
              || RowFor(s'.ledger[n], Document(w, client, WarehouseSale, Some(o), now))
              || RowFor(s'.ledger[n], Document(client, w, WarehouseTaraReturn, Some(o), now))
  {
    var tare, funding := ReturnableItems(catalog, lines), Document(s.vendor, w, InitialBalance, Some(o), now);
    var s1 := if tare != [] && !walkin then StockTransfer(s, funding, tare).value else s;
    if tare != [] && !walkin {
      TransferRows(s, funding, tare, s1);
    }
    SwapRows(s1, Document(w, client, WarehouseSale, Some(o), now), Document(client, w, WarehouseTaraReturn, Some(o), now),
             lines, HandedOver(tare, lines, walkin), s');
  }
}
