/**
  Runs on which the obvious claims fail. Each starts at start-up, uses only commands the services
  accept, and ends in the operation itself; the exact conditions are proved beside the operations.
 */
module Witnesses {
  import opened Base
  import opened Tally
  import opened StockLedger
  import opened MoneyLedger
  import opened Database
  import opened Tara
  import opened OrderSteps
  import opened StockSteps
  import opened LineTotals
  import opened StockFlows
  import opened Lifecycle
  import opened System
  import opened RunInvariant
  import opened Trend
  import StepFlows
  import TaraProofs

  // ---- A small business ----

  const CLIENT: UserId := 5
  const KEEPER: UserId := 3
  const DRIVER: UserId := 4

  const WATER: ProductId := 1
  const JUICE: ProductId := 2
  const BOTTLE: ProductId := 9

  /** The client's address, the warehouse and the courier's van, in the order they are opened. */
  const ADDRESS: InventoryId := 2
  const STORE: InventoryId := 3
  const VAN: InventoryId := 4

  const PREMISES: seq<Inventory> :=
    [Holding(SYSTEM_USER, VirtualVendor), Holding(SYSTEM_USER, VirtualLoss),
     Holding(CLIENT, Client), Holding(KEEPER, Warehouse), Holding(DRIVER, Courier)]

  function Openings(premises: seq<Inventory>): seq<Command> {
    seq(|premises|, i requires 0 <= i < |premises| => StockWork(OpenInventory(premises[i].owner, premises[i].kind)))
  }

  const OPENING: seq<Command> := Openings(PREMISES[2..])

  /** A business with some premises and nothing in them. */
  function Bare(inventories: seq<Inventory>): Db {
    Db([], [], Stock(inventories, 0, 1, [], []), Books([], [], []))
  }

  const OPENED: Db := Bare(PREMISES)

  /** Water at a price, with or without a returnable bottle; juice in the same bottle. */
  function Shop(price: int, bottled: bool): Catalog {
    var bottle := if bottled then Some(BOTTLE) else None;
    map[WATER := Product(price, bottle, true), JUICE := Product(price, bottle, true), BOTTLE := Product(50, None, true)]
  }

  lemma {:induction false} OneMore(cmds: seq<Command>, cmd: Command)
    ensures Run(EMPTY, cmds + [cmd]) == Step(Run(EMPTY, cmds), cmd)
  {
    assert Front(cmds + [cmd]) == cmds;
  }

  lemma {:induction false} Opens(inventories: seq<Inventory>, owner: UserId, kind: InventoryType)
    requires !Virtual(kind)
    ensures Step(Bare(inventories), StockWork(OpenInventory(owner, kind))) == Bare(inventories + [Holding(owner, kind)])
  {
  }

  lemma {:induction false} OpensAll(premises: seq<Inventory>)
    requires forall i :: 0 <= i < |premises| ==> !Virtual(premises[i].kind)
    ensures Run(EMPTY, Openings(premises)) == Bare(EMPTY.stock.inventories + premises)
  {
    var start := EMPTY.stock.inventories;
    if premises == [] {
      assert start + premises == start;
    } else {
      var front, last := Front(premises), Last(premises);
      OpensAll(front);
      assert Openings(premises) == Openings(front) + [StockWork(OpenInventory(last.owner, last.kind))];
      OneMore(Openings(front), StockWork(OpenInventory(last.owner, last.kind)));
      Opens(start + front, last.owner, last.kind);
      assert start + front + [last] == start + premises;
    }
  }

  lemma {:induction false} Opened()
    ensures Run(EMPTY, OPENING) == OPENED
  {
    OpensAll(PREMISES[2..]);
    assert EMPTY.stock.inventories + PREMISES[2..] == PREMISES;
  }

  lemma {:induction false} Places()
    ensures Find(PREMISES, CLIENT, Client) == Some(ADDRESS) && Find(PREMISES, DRIVER, Courier) == Some(VAN)
  {
    FindAppend(PREMISES[..2], PREMISES[2], CLIENT, Client);
    FindAppend(PREMISES[..3], PREMISES[3], CLIENT, Client);
    FindAppend(PREMISES[..4], PREMISES[4], CLIENT, Client);
    FindAppend(PREMISES[..4], PREMISES[4], DRIVER, Courier);
    assert PREMISES == PREMISES[..4] + [PREMISES[4]];
    assert PREMISES[..4] == PREMISES[..3] + [PREMISES[3]];
    assert PREMISES[..3] == PREMISES[..2] + [PREMISES[2]];
    NotAmong(PREMISES[..2], CLIENT, Client);
    NotAmong(PREMISES[..4], DRIVER, Courier);
  }

  lemma {:induction false} NotAmong(table: seq<Inventory>, owner: UserId, kind: InventoryType)
    requires forall i :: 0 <= i < |table| ==> table[i] != Holding(owner, kind)
    ensures Find(table, owner, kind).None?
  {
  }

  /** A document of one row out of the vendor: stock brought into the books. */
  function Bringing(to: InventoryId, p: ProductId, q: int, now: int): Command {
    StockWork(MoveStock(TransferRequest(InitialBalance, None, Some(to), [(p, q)], true), Shop(100, false), now))
  }

  lemma {:induction false} Single(p: ProductId, q: int, x: ProductId)
    ensures Quantity([(p, q)], x) == if x == p then q else 0
  {
    var none: seq<(ProductId, int)> := [];
    assert Front([(p, q)]) == none && Quantity(none, x) == 0;
  }

  lemma {:induction false} BringingRoute(s: Stock, to: InventoryId, p: ProductId, q: int)
    requires s.inventories == PREMISES && s.vendor == 0 && ADDRESS <= to <= VAN && p in Shop(100, false) && q > 0
    ensures Route(s, TransferRequest(InitialBalance, None, Some(to), [(p, q)], true), Shop(100, false)) == Success((0, to))
  {
  }

  /** Bringing stock in succeeds and adds one row. */
  lemma {:induction false} Brought(db: Db, to: InventoryId, p: ProductId, q: int, now: int) returns (db': Db)
    requires StockOk(db.stock) && db.stock.inventories == PREMISES && db.stock.vendor == 0
    requires ADDRESS <= to <= VAN && p in Shop(100, false) && q > 0
    ensures Step(db, Bringing(to, p, q, now)) == db' == db.(stock := db'.stock)
    ensures StockOk(db'.stock) && db'.stock.inventories == PREMISES && db'.stock.vendor == 0
    ensures db'.stock.ledger == db.stock.ledger + [StockRow(p, 0, to, q, InitialBalance, None, now)]
    ensures forall i: InventoryId, x: ProductId | i != 0 ::
              Balance(db'.stock, i, x) == Balance(db.stock, i, x) + if i == to && x == p then q else 0
  {
    var req := TransferRequest(InitialBalance, None, Some(to), [(p, q)], true);
    var d := Document(0, to, InitialBalance, None, now);
    BringingRoute(db.stock, to, p, q);
    TransferFlow(db, req, Shop(100, false), now);
    db' := CreateTransfer(db, req, Shop(100, false), now).value;
    PostEffect(db.stock, d, req.items, db'.stock);
    assert Rows(d, req.items) == [StockRow(p, 0, to, q, InitialBalance, None, now)];
    forall x
      ensures Quantity(req.items, x) == if x == p then q else 0
    {
      Single(p, q, x);
    }
  }

  lemma {:induction false} OpenedOk()
    ensures StockOk(OPENED.stock) && forall i, p :: Balance(OPENED.stock, i, p) == 0
  {
  }

  // ---- Totals after a price change ----

  function Buying(cart: Cart, capitalise: bool): Checkout {
    Checkout(CLIENT, false, cart, Cash, ADDRESS, capitalise)
  }

  const ONE_WATER: Cart := [(WATER, 1)]

  lemma {:induction false} OneLine(price: int, bottled: bool)
    ensures LinesOf(Shop(price, bottled), None, ONE_WATER) == [Line(WATER, 1, price)]
    ensures LinesValue([Line(WATER, 1, price)]) == price
    ensures CheckCart(Shop(price, bottled), ONE_WATER, false).Success?
    ensures Exchange(Shop(price, bottled), ONE_WATER) == if bottled then [(BOTTLE, 1)] else []
  {
    HeldSingle(Line(WATER, 1, price), WATER);
    var none: Cart := [];
    assert Front(ONE_WATER) == none && !HasKey(none, WATER);
    assert Exchange(Shop(price, bottled), none) == [];
  }

  /** Checkout for cash, once the container block has passed. */
  lemma {:induction false} CashCheckout(db: Db, req: Checkout, catalog: Catalog, s: Stock, credited: bool)
    requires req.payment == Cash && CheckCart(catalog, req.cart, false).Success?
    requires CheckoutTara(db.stock, req, catalog, 0) == Success((s, credited)) && Exists(s, req.address)
    requires LinesAllowed(LinesOf(catalog, None, req.cart))
    ensures CreateOrder(db, req, catalog, 0, 0) ==
            Success(db.(stock := s, orders := db.orders + [NewOrder(req, LinesOf(catalog, None, req.cart), None, credited, 0)]))
  {
  }

  /** Adding to the only line of the only order. */
  lemma {:induction false} AddedToLine(db: Db, ord: Order, line: Line, catalog: Catalog)
    requires db.orders == [ord] && ord.lines == [line] && ord.status == New && ord.payment == Cash
    requires OnSale(catalog, line.product) && line.quantity == 1 && line.unitPrice >= 0
    ensures AddProduct(db, 0, line.product, 1, None, catalog) ==
            Success(db.(orders := [ord.(lines := [line.(quantity := 2)], total := ord.total + catalog[line.product].price)]))
  {
    var none: seq<Line> := [];
    assert Front([line]) == none && FindLine(none, line.product) == None && FindLine([line], line.product) == Some(0);
    assert [line][0 := line.(quantity := 2)] == [line.(quantity := 2)];
    var more := ord.(lines := [line.(quantity := 2)], total := ord.total + catalog[line.product].price);
    assert [ord][0 := more] == [more];
  }

  /** A price rise between checkout and an added bottle: the total no longer follows the lines. */
  lemma {:induction false} TotalDriftsAfterPriceChange() returns (cmds: seq<Command>)
    ensures var db := Run(EMPTY, cmds); |db.orders| == 1 && !TotalOk(db.orders[0])
  {
    var place := OrderWork(PlaceOrder(Buying(ONE_WATER, false), Shop(100, false), 0, 0));
    var add := OrderWork(AddLine(0, WATER, 1, None, Shop(120, false)));
    cmds := OPENING + [place] + [add];
    Opened();
    OneMore(OPENING, place);
    OneMore(OPENING + [place], add);
    OneLine(100, false);
    var line := Line(WATER, 1, 100);
    var ord := NewOrder(Buying(ONE_WATER, false), [line], None, false, 0);
    CashCheckout(OPENED, Buying(ONE_WATER, false), Shop(100, false), OPENED.stock, false);
    assert OPENED.orders + [ord] == [ord];
    AddedToLine(OPENED.(orders := [ord]), ord, line, Shop(120, false));
    HeldSingle(line.(quantity := 2), WATER);
  }

  // ---- Two products in one kind of container ----

  const MIXED: Cart := [(WATER, 3), (JUICE, 3)]

  lemma {:induction false} MixedExchange()
    ensures Exchange(Shop(100, true), MIXED) == [(BOTTLE, 3), (BOTTLE, 3)]
    ensures Quantity([(BOTTLE, 3), (BOTTLE, 3)], BOTTLE) == 6 && LastQuantity(MIXED, BOTTLE) == 0
    ensures CheckCart(Shop(100, true), MIXED, false).Success?
  {
    var none: Cart := [];
    var first: Cart := [(WATER, 3)];
    assert Front(MIXED) == first && Front(first) == none;
    assert !HasKey(first, JUICE) && !HasKey(none, WATER);
    assert Exchange(Shop(100, true), none) == [];
    assert Exchange(Shop(100, true), first) == [(BOTTLE, 3)];
    assert Front([(BOTTLE, 3), (BOTTLE, 3)]) == [(BOTTLE, 3)];
    Single(BOTTLE, 3, BOTTLE);
    assert LastQuantity(none, BOTTLE) == 0 && LastQuantity(first, BOTTLE) == 0;
  }

  /** Three bottles pass checkout for three waters and three juices, which need six. */
  lemma {:induction false} SharedContainerFallsShort() returns (cmds: seq<Command>, req: Checkout)
    ensures var s := Run(EMPTY, cmds).stock;
            && CheckCart(Shop(100, true), req.cart, false).Success?
            && CheckoutTara(s, req, Shop(100, true), 0) == Success((s, false))
            && Quantity(Exchange(Shop(100, true), req.cart), BOTTLE) > Available(s, req.address, req.cart, BOTTLE)
  {
    cmds, req := OPENING + [Bringing(ADDRESS, BOTTLE, 3, 0)], Buying(MIXED, false);
    Opened();
    OpenedOk();
    OneMore(OPENING, Bringing(ADDRESS, BOTTLE, 3, 0));
    var db := Brought(OPENED, ADDRESS, BOTTLE, 3, 0);
    MixedExchange();
    TaraProofs.NoDeficitIffCovered(db.stock, ADDRESS, MIXED, [(BOTTLE, 3), (BOTTLE, 3)]);
  }

  // ---- A repeated product at the warehouse ----

  const TWICE: Cart := [(WATER, 1), (WATER, 1)]

  lemma {:induction false} TwiceLines()
    ensures LinesOf(Shop(100, false), None, TWICE) == [Line(WATER, 1, 100), Line(WATER, 1, 100)]
    ensures Held([Line(WATER, 1, 100), Line(WATER, 1, 100)], WATER) == 2
    ensures CheckCart(Shop(100, false), TWICE, true).Success? && Exchange(Shop(100, false), TWICE) == []
  {
    var lines := [Line(WATER, 1, 100), Line(WATER, 1, 100)];
    HeldFront(lines, WATER);
    assert Front(lines) == [Line(WATER, 1, 100)];
    HeldSingle(lines[0], WATER);
    var none: Cart := [];
    assert Front(TWICE) == [(WATER, 1)] && Front([(WATER, 1)]) == none;
    assert Exchange(Shop(100, false), none) == [] && Exchange(Shop(100, false), [(WATER, 1)]) == [];
  }

  /** A sale to a named client whose cart needs no containers, up to its stored order. */
  lemma {:induction false} SaleOpened(db: Db, cart: Cart, catalog: Catalog)
    requires db.stock.inventories == PREMISES && db.orders == []
    requires CheckCart(catalog, cart, true).Success? && Exchange(catalog, cart) == []
    requires LinesAllowed(LinesOf(catalog, None, cart))
    ensures OpenSale(db, CLIENT, STORE, cart, false, catalog, 0) ==
            Success(db.(orders := [SaleOrder(CLIENT, ADDRESS, STORE, LinesOf(catalog, None, cart), false, 0)]))
  {
    Places();
    var ord := SaleOrder(CLIENT, ADDRESS, STORE, LinesOf(catalog, None, cart), false, 0);
    assert Deficits(db.stock, ADDRESS, cart, []) == [];
    assert db.orders + [ord] == [ord];
  }

  /** A pickup that passes the check and is refused by the trigger. */
  lemma {:induction false} RefusedPickup(db: Db, ord: Order, catalog: Catalog, p: ProductId)
    requires StockOk(db.stock) && db.stock.inventories == PREMISES && db.stock.vendor == 0 && db.orders == [ord]
    requires ord.client == CLIENT && ord.clientInventory == ADDRESS && ord.warehouse == Some(STORE)
    requires LinesAllowed(ord.lines) && !Short(db.stock, STORE, ord.lines)
    requires Held(ord.lines, p) > Balance(db.stock, STORE, p)
    ensures HandleWarehousePickup(db, 0, catalog, 0) == Failure(NegativeBalance)
  {
    PickupFlow(db.stock, STORE, ADDRESS, ord.lines, false, catalog, 0, 0);
    PickupRefusal(db.stock, STORE, ADDRESS, ord.lines, false, catalog, 0, 0);
  }

  const DOUBLE_SALE: OrderCommand := SellAtWarehouse(Some(CLIENT), STORE, TWICE, false, Shop(100, false), 0)

  lemma {:induction false} RefusedSale(db: Db)
    requires StockOk(db.stock) && db.stock.inventories == PREMISES && db.stock.vendor == 0 && db.orders == []
    requires Balance(db.stock, STORE, WATER) == 1
    ensures OrderOutcome(db, DOUBLE_SALE) == Failure(NegativeBalance)
  {
    TwiceLines();
    SaleOpened(db, TWICE, Shop(100, false));
    var ord := SaleOrder(CLIENT, ADDRESS, STORE, LinesOf(Shop(100, false), None, TWICE), false, 0);
    RefusedPickup(db.(orders := [ord]), ord, Shop(100, false), WATER);
  }

  /** One bottle in store, sold twice in one sale: the check passes, the trigger refuses. */
  lemma {:induction false} RepeatedLinesTrip() returns (cmds: seq<Command>, sale: OrderCommand)
    ensures sale.SellAtWarehouse? && OrderOutcome(Run(EMPTY, cmds), sale) == Failure(NegativeBalance)
  {
    cmds, sale := OPENING + [Bringing(STORE, WATER, 1, 0)], DOUBLE_SALE;
    Opened();
    OpenedOk();
    OneMore(OPENING, Bringing(STORE, WATER, 1, 0));
    var db := Brought(OPENED, STORE, WATER, 1, 0);
    RefusedSale(db);
  }

  // ---- A delivery without the empty bottle ----

  /** The client's order for one bottled water, as checkout writes it. */
  lemma {:induction false} Ordered(db: Db) returns (db': Db)
    requires StockOk(db.stock) && db.stock.inventories == PREMISES && db.stock.vendor == 0 && db.orders == []
    requires Balance(db.stock, ADDRESS, BOTTLE) == 0
    ensures Step(db, OrderWork(PlaceOrder(Buying(ONE_WATER, true), Shop(100, true), 0, 0))) == db'
    ensures db'.orders == [NewOrder(Buying(ONE_WATER, true), [Line(WATER, 1, 100)], None, true, 0)]
    ensures db'.stock.inventories == PREMISES
    ensures forall p :: Balance(db'.stock, VAN, p) == Balance(db.stock, VAN, p)
  {
    var req, shop, exchange := Buying(ONE_WATER, true), Shop(100, true), [(BOTTLE, 1)];
    OneLine(100, true);
    OneBottleShort(db.stock);
    var s := Credited(db.stock, ONE_WATER, exchange);
    CashCheckout(db, req, shop, s, true);
    var ord := NewOrder(req, [Line(WATER, 1, 100)], None, true, 0);
    assert db.orders + [ord] == [ord];
    db' := db.(stock := s, orders := [ord]);
  }

  lemma {:induction false} OneBottleShort(s: Stock)
    requires Balance(s, ADDRESS, BOTTLE) == 0
    ensures Deficits(s, ADDRESS, ONE_WATER, [(BOTTLE, 1)]) == [(BOTTLE, 1)]
  {
    var none: Cart := [];
    assert Front(ONE_WATER) == none && LastQuantity(none, BOTTLE) == 0;
    assert Front([(BOTTLE, 1)]) == none && Deficits(s, ADDRESS, ONE_WATER, none) == [];
  }

  /** Missing containers are credited to the client; the van is not touched. */
  lemma {:induction false} Credited(s: Stock, cart: Cart, exchange: seq<(ProductId, int)>) returns (s': Stock)
    requires StockOk(s) && s.inventories == PREMISES && s.vendor == 0 && Deficits(s, ADDRESS, cart, exchange) != []
    ensures CoverTara(s, ADDRESS, cart, exchange, true, 0) == Success((s', true)) && s'.inventories == PREMISES
    ensures forall p :: Balance(s', VAN, p) == Balance(s, VAN, p)
  {
    TaraProofs.CapitalisingCovers(s, ADDRESS, cart, exchange, 0);
    StepFlows.CoverFlow(s, ADDRESS, cart, exchange, true, 0);
    CoverTaraOk(s, ADDRESS, cart, exchange, true, 0);
    s' := CoverTara(s, ADDRESS, cart, exchange, true, 0).value.0;
  }

  /** The same order on its way: assigned, driven out, arrived. */
  function Progress(ord: Order): Order {
    WithStatus(WithStatus(WithStatus(ord, Assigned).(courier := Some(DRIVER)), InTransit), Arrived)
  }

  function Moving(target: OrderStatus): OrderCommand {
    ChangeStatus(0, target, [], None, Shop(100, true), 0)
  }

  lemma {:induction false} OnTheWay(db: Db, ord: Order)
    requires db.orders == [ord] && ord.saleType == Delivery && ord.status == New && db.stock.inventories == PREMISES
    ensures var handed := Step(db, OrderWork(AssignTo(0, DRIVER, true)));
            var moving := Step(handed, OrderWork(Moving(InTransit)));
            Step(moving, OrderWork(Moving(Arrived))) == db.(orders := [Progress(ord)])
  {
    Places();
    var handed := db.(orders := [WithStatus(ord, Assigned).(courier := Some(DRIVER))]);
    assert [ord][0 := handed.orders[0]] == handed.orders;
    assert AssignCourier(db, 0, DRIVER, true) == Success(handed);
    var moving := db.(orders := [WithStatus(handed.orders[0], InTransit)]);
    MovedOn(handed, handed.orders[0], InTransit);
    MovedOn(moving, moving.orders[0], Arrived);
  }

  /** A plain status change of the only order. */
  lemma {:induction false} MovedOn(db: Db, ord: Order, target: OrderStatus)
    requires db.orders == [ord] && ord.saleType == Delivery && target in AllowedTargets(Delivery, ord.status)
    requires target == InTransit || target == Arrived
    ensures OrderOutcome(db, Moving(target)) == Success(db.(orders := [WithStatus(ord, target)]))
  {
    assert [ord][0 := WithStatus(ord, target)] == [WithStatus(ord, target)];
  }

  /** A van with the water but no bottle to swap passes the check and is refused by the trigger. */
  lemma {:induction false} RefusedDelivery(db: Db, ord: Order)
    requires StockOk(db.stock) && db.stock.inventories == PREMISES && db.orders == [ord]
    requires ord.status == Arrived && ord.saleType == Delivery && ord.courier == Some(DRIVER)
    requires ord.clientInventory == ADDRESS && ord.lines == [Line(WATER, 1, 100)]
    requires Balance(db.stock, VAN, WATER) == 1 && Balance(db.stock, VAN, BOTTLE) == 0
    ensures OrderOutcome(db, Moving(Delivered)) == Failure(NegativeBalance)
  {
    Places();
    BottleMissing(db.stock, ord.lines);
    AtTheDoor(db, ord);
  }

  /** Reporting the delivery of the only order starts its fulfilment. */
  lemma {:induction false} AtTheDoor(db: Db, ord: Order)
    requires db.orders == [ord] && ord.status == Arrived && ord.saleType == Delivery
    ensures OrderOutcome(db, Moving(Delivered)) ==
            Fulfil(db.(orders := [WithStatus(ord, Delivered)]), 0, [], Shop(100, true), 0)
  {
    assert [ord][0 := WithStatus(ord, Delivered)] == [WithStatus(ord, Delivered)];
  }

  lemma {:induction false} BottleMissing(s: Stock, lines: seq<Line>)
    requires StockOk(s) && s.inventories == PREMISES && lines == [Line(WATER, 1, 100)]
    requires Balance(s, VAN, WATER) == 1 && Balance(s, VAN, BOTTLE) == 0
    ensures !Short(s, VAN, lines)
    ensures DeliverStock(s, VAN, ADDRESS, lines, Shop(100, true), 0, 0) == Failure(NegativeBalance)
  {
    BottleNeeded(lines);
    DeliveryFlow(s, VAN, ADDRESS, lines, Shop(100, true), 0, 0);
    DeliveryRefusal(s, VAN, ADDRESS, lines, Shop(100, true), 0, 0);
  }

  lemma {:induction false} BottleNeeded(lines: seq<Line>)
    requires lines == [Line(WATER, 1, 100)]
    ensures Held(lines, BOTTLE) + StockFlows.Containers(Shop(100, true), lines, BOTTLE) == 1
  {
    assert ContainerCounts(Shop(100, true), lines, BOTTLE) == [1];
    assert Front([1]) == [];
    HeldSingle(lines[0], BOTTLE);
  }

  /** One bottled water in the van, and an order for it. */
  lemma {:induction false} LoadedAndOrdered() returns (cmds: seq<Command>, db: Db)
    ensures Run(EMPTY, cmds) == db && db.stock.inventories == PREMISES
    ensures db.orders == [NewOrder(Buying(ONE_WATER, true), [Line(WATER, 1, 100)], None, true, 0)]
    ensures Balance(db.stock, VAN, WATER) == 1 && Balance(db.stock, VAN, BOTTLE) == 0
  {
    var load := Bringing(VAN, WATER, 1, 0);
    var place := OrderWork(PlaceOrder(Buying(ONE_WATER, true), Shop(100, true), 0, 0));
    cmds := OPENING + [load] + [place];
    Opened();
    OpenedOk();
    OneMore(OPENING, load);
    OneMore(OPENING + [load], place);
    var loaded := Brought(OPENED, VAN, WATER, 1, 0);
    db := Ordered(loaded);
  }

  /** The van passes the check with its one water; the trigger misses the bottle. */
  lemma {:induction false} DeliveryNeedsContainers() returns (cmds: seq<Command>, delivery: OrderCommand)
    ensures delivery.ChangeStatus? && delivery.target == Delivered
    ensures OrderOutcome(Run(EMPTY, cmds), delivery) == Failure(NegativeBalance)
  {
    var assign, drive, arrive := OrderWork(AssignTo(0, DRIVER, true)), OrderWork(Moving(InTransit)), OrderWork(Moving(Arrived));
    delivery := Moving(Delivered);
    var before, placed := LoadedAndOrdered();
    OneMore(before, assign);
    OneMore(before + [assign], drive);
    OneMore(before + [assign] + [drive], arrive);
    OnTheWay(placed, placed.orders[0]);
    cmds := before + [assign] + [drive] + [arrive];
    assert StockOk(Run(EMPTY, cmds).stock) by {
      StartsInOrder();
      RunKeepsInv(EMPTY, cmds);
    }
    RefusedDelivery(Run(EMPTY, cmds), Progress(placed.orders[0]));
  }

  // ---- A chart with movements after its window ----

  /** The water in store. */
  function StoreFigures(): Figures {
    var water: Figure := (key: BalanceKey) => key == (STORE, WATER);
    Figures(water, _ => false, _ => false)
  }

  /** Stock brought in five days after the window shows up inside it. */
  lemma {:induction false} TrendShowsLaterStock() returns (cmds: seq<Command>)
    ensures var s := Run(EMPTY, cmds).stock;
            var nets := DayNets(s.ledger, 0, 0, StoreFigures());
            && StockOk(s) && |nets| == 1
            && PointAt(Current(s, StoreFigures()), nets, 0).water == 3
            && NetThrough(s.ledger, 0, StoreFigures().water) == 1
  {
    var early, late := Bringing(STORE, WATER, 1, 0), Bringing(STORE, WATER, 2, 5 * MICROS_PER_DAY);
    cmds := OPENING + [early] + [late];
    Opened();
    OpenedOk();
    OneMore(OPENING, early);
    OneMore(OPENING + [early], late);
    var db := Brought(OPENED, STORE, WATER, 1, 0);
    var db' := Brought(db, STORE, WATER, 2, 5 * MICROS_PER_DAY);
    LaterStock(db'.stock);
  }

  lemma {:induction false} LaterStock(s: Stock)
    requires StockOk(s)
    requires s.ledger == [StockRow(WATER, 0, STORE, 1, InitialBalance, None, 0),
                          StockRow(WATER, 0, STORE, 2, InitialBalance, None, 5 * MICROS_PER_DAY)]
    ensures var nets := DayNets(s.ledger, 0, 0, StoreFigures());
            && |nets| == 1 && PointAt(Current(s, StoreFigures()), nets, 0).water == 3
            && NetThrough(s.ledger, 0, StoreFigures().water) == 1
  {
    var fs, ledger := StoreFigures(), s.ledger;
    var none: seq<StockRow> := [];
    assert Front(ledger) == [ledger[0]] && Front([ledger[0]]) == none;
    assert Day(ledger[0]) == 0 && Day(ledger[1]) == 5;
    assert Net(ledger[0], fs.water) == 1 && Net(ledger[1], fs.water) == 2;
    assert NetThrough(none, 0, fs.water) == 0 && NetAfter(none, 0, fs.water) == 0;
    assert NetThrough([ledger[0]], 0, fs.water) == 1;
    assert NetAfter([ledger[0]], 0, fs.water) == 0;
    assert NetThrough(ledger, 0, fs.water) == 1;
    assert NetAfter(ledger, 0, fs.water) == 2;
    assert Moved(ledger, 0);
    assert DayNets(ledger, 0, -1, fs) == [];
    PointIsForwardSum(s, 0, 0, fs, 0);
  }
}
