/** Checkout in full: exactly when an order is taken, and everything it writes. */
module CheckoutLaws {
  import opened Base
  import opened Tally
  import opened Quotas
  import opened StockLedger
  import opened Database
  import opened Tara
  import opened OrderSteps
  import opened System
  import opened QuotaInvariant
  import opened StockFlows
  import opened CartContainers
  import StepFlows
  import TaraProofs
  import RunInvariant

  // ---- The parts ----

  /** A cart with something in it, all of it positive and on sale; checkout also refuses repeats. */
  predicate ValidCart(catalog: Catalog, cart: Cart, repeats: bool) {
    && cart != [] && (forall i :: 0 <= i < |cart| ==> cart[i].1 > 0)
    && (repeats || forall i, j :: 0 <= i < j < |cart| ==> cart[i].0 != cart[j].0)
    && (forall i :: 0 <= i < |cart| ==> cart[i].0 in catalog && catalog[cart[i].0].active)
  }

  lemma {:induction false} CartChecked(catalog: Catalog, cart: Cart, repeats: bool)
    ensures CheckCart(catalog, cart, repeats).Success? <==> ValidCart(catalog, cart, repeats)
  {
  }

  /** The contract that pays for a business client today. */
  predicate Pays(contracts: seq<Contract>, c: ContractId, client: UserId, b2b: bool, today: int) {
    && b2b && c < |contracts| && contracts[c].client == client && contracts[c].status == Active
    && (contracts[c].endDate.Some? ==> today <= contracts[c].endDate.value)
  }

  lemma {:induction false} PayerFound(contracts: seq<Contract>, client: UserId, b2b: bool, today: int, c: ContractId)
    requires OneActive(contracts)
    ensures PayingContract(contracts, client, b2b, today) == Success(c) <==> Pays(contracts, c, client, b2b, today)
  {
  }

  /** Every position is in the price list and within what is left of its limit; 0 is no limit. */
  predicate Admits(items: PriceList, cart: Cart) {
    forall i :: 0 <= i < |cart| ==>
      cart[i].0 in items &&
      (items[cart[i].0].quantity == 0 || items[cart[i].0].used + cart[i].1 <= items[cart[i].0].quantity)
  }

  /** The terms stay and the counters grow by the cart. */
  ghost predicate Grows(items: PriceList, items': PriceList, cart: Cart) {
    && items'.Keys == items.Keys
    && (forall p :: p in items ==> items'[p] == items[p].(used := items[p].used + Quantity(cart, p)))
  }

  lemma {:induction false} QuotaTaken(items: PriceList, cart: Cart)
    requires forall i :: 0 <= i < |cart| ==> cart[i].1 > 0
    ensures Reserve(items, cart).Success? <==> Admits(items, cart)
    ensures Reserve(items, cart).Success? ==> Grows(items, Reserve(items, cart).value, cart)
  {
    IncrementTotals(items, cart);
    assert AllPositive(cart);
  }

  /** The containers are there, or may be credited to a real address. */
  predicate Covered(s: Stock, req: Checkout, catalog: Catalog) {
    Exists(s, req.address) && (Enough(s, req.address, req.cart, catalog, req.cart) || (req.capitalise && req.address != s.vendor))
  }

  /** What each container lacks is credited from the vendor, and nothing else moves. */
  ghost predicate CreditsLacks(s: Stock, s': Stock, address: InventoryId, catalog: Catalog, cart: Cart) {
    && s'.inventories == s.inventories
    && (forall i, p :: Balance(s', i, p) == Balance(s, i, p) +
          At(i, address, Lacking(catalog, cart, p, Balance(s, address, p) + LastQuantity(cart, p))) -
          At(i, s.vendor, Lacking(catalog, cart, p, Balance(s, address, p) + LastQuantity(cart, p))))
  }

  lemma {:induction false} ContainersCovered(s: Stock, address: InventoryId, cart: Cart, catalog: Catalog, capitalise: bool, now: int)
    requires StockOk(s) && Exists(s, address)
    ensures var out, enough := CoverTara(s, address, cart, Exchange(catalog, cart), capitalise, now), Enough(s, address, cart, catalog, cart);
            && (out.Success? <==> enough || (capitalise && address != s.vendor))
            && (out.Success? ==> out.value.1 == !enough && CreditsLacks(s, out.value.0, address, catalog, cart))
  {
    var exchange := Exchange(catalog, cart);
    ShortIffAsked(s, address, cart, catalog, cart);
    TaraProofs.CapitalisingCovers(s, address, cart, exchange, now);
    if CoverTara(s, address, cart, exchange, capitalise, now).Success? {
      StepFlows.CoverFlow(s, address, cart, exchange, capitalise, now);
      RunInvariant.CoverTaraOk(s, address, cart, exchange, capitalise, now);
      forall p
        ensures Quantity(Deficits(s, address, cart, exchange), p) ==
                Lacking(catalog, cart, p, Balance(s, address, p) + LastQuantity(cart, p))
      {
        DeficitsAreLacks(s, address, cart, catalog, cart, p);
      }
    }
  }

  lemma {:induction false} TaraChecked(s: Stock, req: Checkout, catalog: Catalog, now: int)
    requires StockOk(s) && Exists(s, req.address)
    ensures var out := CheckoutTara(s, req, catalog, now);
            && (out.Success? <==> Covered(s, req, catalog))
            && (out.Success? ==>
                  && out.value.1 == !Enough(s, req.address, req.cart, catalog, req.cart)
                  && CreditsLacks(s, out.value.0, req.address, catalog, req.cart))
  {
    ContainersCovered(s, req.address, req.cart, catalog, req.capitalise, now);
    EmptyIffNoneWanted(catalog, req.cart);
    ShortIffAsked(s, req.address, req.cart, catalog, req.cart);
  }

  // ---- Lines and totals ----

  /** The cart's positions, in order, at the catalogue's prices. */
  predicate AtCatalogue(lines: seq<Line>, cart: Cart, catalog: Catalog) {
    && |lines| == |cart|
    && (forall i :: 0 <= i < |cart| ==>
          && lines[i].product == cart[i].0 && lines[i].quantity == cart[i].1
          && cart[i].0 in catalog && lines[i].unitPrice == catalog[cart[i].0].price)
  }

  /** The cart's positions, in order, at the contract's prices. */
  predicate AtContract(lines: seq<Line>, cart: Cart, items: PriceList) {
    && |lines| == |cart|
    && (forall i :: 0 <= i < |cart| ==>
          && lines[i].product == cart[i].0 && lines[i].quantity == cart[i].1
          && cart[i].0 in items && lines[i].unitPrice == items[cart[i].0].price)
  }

  function LineValues(lines: seq<Line>): seq<int> {
    seq(|lines|, i requires 0 <= i < |lines| => lines[i].unitPrice * lines[i].quantity)
  }

  lemma {:induction false} ValueIsSum(lines: seq<Line>)
    ensures LinesValue(lines) == Sum(LineValues(lines))
  {
    if lines != [] {
      ValueIsSum(Front(lines));
      assert Front(LineValues(lines)) == LineValues(Front(lines));
    }
  }

  lemma {:induction false} CatalogueLines(catalog: Catalog, cart: Cart)
    requires ValidCart(catalog, cart, true)
    ensures Priced(catalog, None, cart)
    ensures var lines := LinesOf(catalog, None, cart);
            && AtCatalogue(lines, cart, catalog) && LinesValue(lines) == Sum(LineValues(lines))
            && (LinesAllowed(lines) <==> forall i :: 0 <= i < |cart| ==> catalog[cart[i].0].price >= 0)
  {
    var lines := LinesOf(catalog, None, cart);
    ValueIsSum(lines);
    assert forall i :: 0 <= i < |cart| ==> lines[i].unitPrice == catalog[cart[i].0].price;
  }

  lemma {:induction false} ContractLines(catalog: Catalog, items: PriceList, cart: Cart)
    requires ValidCart(catalog, cart, true) && Admits(items, cart) && LimitsOk(items)
    ensures Priced(catalog, Some(items), cart)
    ensures var lines := LinesOf(catalog, Some(items), cart);
            AtContract(lines, cart, items) && LinesValue(lines) == Sum(LineValues(lines)) && LinesAllowed(lines)
  {
    ValueIsSum(LinesOf(catalog, Some(items), cart));
  }

  /** An order as checkout writes it. */
  ghost predicate Placed(ord: Order, req: Checkout, contract: Option<ContractId>, credited: bool, now: int) {
    && ord.client == req.client && ord.clientInventory == req.address && ord.courier == None && ord.warehouse == None
    && ord.payment == req.payment && ord.saleType == Delivery && ord.status == New
    && ord.total == Sum(LineValues(ord.lines)) && ord.contract == contract && ord.reserved == contract.Some?
    && ord.capitalized == credited && ord.createdAt == now && ord.history == [OrderLog(None, New)]
  }

  /** The order is appended and the missing containers are credited; money and the other orders stay. */
  ghost predicate Takes(db: Db, db': Db, req: Checkout, catalog: Catalog, contract: Option<ContractId>, now: int) {
    && |db'.orders| == |db.orders| + 1 && db'.orders == db.orders + [Last(db'.orders)] && db'.money == db.money
    && Placed(Last(db'.orders), req, contract, !Enough(db.stock, req.address, req.cart, catalog, req.cart), now)
    && CreditsLacks(db.stock, db'.stock, req.address, catalog, req.cart)
  }

  // ---- Cash and card orders ----

  /** An order that no contract pays: taken exactly when cart, prices and containers are in order. */
  ghost predicate TakesOrder(db: Db, req: Checkout, catalog: Catalog, today: int, now: int, out: Result<Db>)
  {
    && (out.Success? <==>
          && ValidCart(catalog, req.cart, false) && Covered(db.stock, req, catalog)
          && (forall i :: 0 <= i < |req.cart| ==> catalog[req.cart[i].0].price >= 0))
    && (out.Success? ==>
          && Takes(db, out.value, req, catalog, None, now) && out.value.contracts == db.contracts
          && AtCatalogue(Last(out.value.orders).lines, req.cart, catalog))
  }

  lemma {:induction false} OrderTakenSpec(db: Db, req: Checkout, catalog: Catalog, today: int, now: int)
    requires StockOk(db.stock) && req.payment != ByContract
    ensures TakesOrder(db, req, catalog, today, now, CreateOrder(db, req, catalog, today, now))
  {
    CartChecked(catalog, req.cart, false);
    if ValidCart(catalog, req.cart, false) && Exists(db.stock, req.address) {
      TaraChecked(db.stock, req, catalog, now);
    }
    if ValidCart(catalog, req.cart, false) {
      CatalogueLines(catalog, req.cart);
    }
    if CreateOrder(db, req, catalog, today, now).Success? {
      AddressKnown(db, req, catalog, today, now);
    }
  }

  lemma {:induction false} OrderTaken(db: Db, req: Checkout, catalog: Catalog, today: int, now: int)
    requires StockOk(db.stock) && req.payment != ByContract
    ensures TakesOrder(db, req, catalog, today, now, OrderOutcome(db, PlaceOrder(req, catalog, today, now)))
  {
    OrderTakenSpec(db, req, catalog, today, now);
  }

  lemma {:induction false} AddressKnown(db: Db, req: Checkout, catalog: Catalog, today: int, now: int)
    requires StockOk(db.stock) && CreateOrder(db, req, catalog, today, now).Success?
    ensures Exists(db.stock, req.address)
  {
    var out := CheckoutTara(db.stock, req, catalog, now);
    if out.Success? {
      RunInvariant.CheckoutTaraOk(db.stock, req, catalog, now);
    }
  }

  // ---- Contract orders ----

  /**
    An order on contract: taken exactly when some contract pays today and admits the cart. Its lines
    carry the contract's prices and its quantities are added to that contract's counters.
   */
  ghost predicate TakesContractOrder(db: Db, req: Checkout, catalog: Catalog, today: int, now: int, c: ContractId, out: Result<Db>)
    requires c < |db.contracts|
  {
    && (out.Success? <==>
          ValidCart(catalog, req.cart, false) && Covered(db.stock, req, catalog) && Admits(db.contracts[c].items, req.cart))
    && (out.Success? ==>
          && Takes(db, out.value, req, catalog, Some(c), now)
          && AtContract(Last(out.value.orders).lines, req.cart, db.contracts[c].items)
          && |out.value.contracts| == |db.contracts|
          && out.value.contracts == db.contracts[c := db.contracts[c].(items := out.value.contracts[c].items)]
          && Grows(db.contracts[c].items, out.value.contracts[c].items, req.cart))
  }

  lemma {:induction false} ContractOrderTakenSpec(db: Db, req: Checkout, catalog: Catalog, today: int, now: int, c: ContractId)
    requires StockOk(db.stock) && QuotaInv(db) && req.payment == ByContract
    requires Pays(db.contracts, c, req.client, req.b2b, today)
    ensures TakesContractOrder(db, req, catalog, today, now, c, CreateOrder(db, req, catalog, today, now))
  {
    CartChecked(catalog, req.cart, false);
    PayerFound(db.contracts, req.client, req.b2b, today, c);
    if ValidCart(catalog, req.cart, false) {
      ContractCheckout(db, req, catalog, today, now, c);
      QuotaTaken(db.contracts[c].items, req.cart);
      if Admits(db.contracts[c].items, req.cart) && Exists(db.stock, req.address) {
        TaraChecked(db.stock, req, catalog, now);
        assert LimitsOk(db.contracts[c].items);
        ContractLines(catalog, db.contracts[c].items, req.cart);
      }
    }
    if CreateOrder(db, req, catalog, today, now).Success? {
      AddressKnown(db, req, catalog, today, now);
    }
  }

  lemma {:induction false} ContractOrderTaken(db: Db, req: Checkout, catalog: Catalog, today: int, now: int, c: ContractId)
    requires StockOk(db.stock) && QuotaInv(db) && req.payment == ByContract
    requires Pays(db.contracts, c, req.client, req.b2b, today)
    ensures TakesContractOrder(db, req, catalog, today, now, c, OrderOutcome(db, PlaceOrder(req, catalog, today, now)))
  {
    ContractOrderTakenSpec(db, req, catalog, today, now, c);
  }

  /** Checkout on a contract, once cart and payer are found. */
  lemma {:induction false} ContractCheckout(db: Db, req: Checkout, catalog: Catalog, today: int, now: int, c: ContractId)
    requires CheckCart(catalog, req.cart, false).Success? && req.payment == ByContract
    requires PayingContract(db.contracts, req.client, req.b2b, today) == Success(c)
    ensures Reserve(db.contracts[c].items, req.cart).Failure? ==> CreateOrder(db, req, catalog, today, now).Failure?
    ensures CheckoutTara(db.stock, req, catalog, now).Failure? ==> CreateOrder(db, req, catalog, today, now).Failure?
    ensures Reserve(db.contracts[c].items, req.cart).Success? && CheckoutTara(db.stock, req, catalog, now).Success? &&
            Priced(catalog, Some(db.contracts[c].items), req.cart) ==>
              var (stock, credited) := CheckoutTara(db.stock, req, catalog, now).value;
              var k := db.contracts[c].(items := Reserve(db.contracts[c].items, req.cart).value);
              CreateOrder(db, req, catalog, today, now) ==
              InsertOrder(db.(contracts := db.contracts[c := k], stock := stock),
                          NewOrder(req, LinesOf(catalog, Some(db.contracts[c].items), req.cart), Some(c), credited, now))
  {
  }

  /** Without a contract that pays, no order on contract is taken. */
  lemma {:induction false} NoPayerNoOrder(db: Db, req: Checkout, catalog: Catalog, today: int, now: int)
    requires OneActive(db.contracts) && req.payment == ByContract
    requires forall c :: !Pays(db.contracts, c, req.client, req.b2b, today)
    ensures OrderOutcome(db, PlaceOrder(req, catalog, today, now)).Failure?
  {
    var payer := PayingContract(db.contracts, req.client, req.b2b, today);
    if payer.Success? {
      PayerFound(db.contracts, req.client, req.b2b, today, payer.value);
    }
  }
}
