/** What capitalisation guarantees about containers, and what the preview promises to checkout. */
module TaraProofs {
  import opened Base
  import opened Tally
  import opened StockLedger
  import Quotas
  import opened Database
  import opened Tara
  import opened OrderSteps
  import opened StockSteps

  /** Every line finds its own containers, counted line by line. */
  predicate EachCovered(s: Stock, address: InventoryId, cart: Cart, exchange: seq<(ProductId, int)>) {
    forall i :: 0 <= i < |exchange| ==> exchange[i].1 <= Available(s, address, cart, exchange[i].0)
  }

  /** No two lines come back in the same container. */
  predicate Unshared(exchange: seq<(ProductId, int)>, tare: ProductId) {
    forall i, j :: 0 <= i < j < |exchange| ==> exchange[i].0 != tare || exchange[j].0 != tare
  }

  /** What all lines of a container lack together. */
  function Missing(s: Stock, address: InventoryId, cart: Cart, exchange: seq<(ProductId, int)>, tare: ProductId): int {
    Max(0, Quantity(exchange, tare) - Available(s, address, cart, tare))
  }

  lemma {:induction false} NoDeficitIffCovered(s: Stock, address: InventoryId, cart: Cart, exchange: seq<(ProductId, int)>)
    ensures Deficits(s, address, cart, exchange) == [] <==> EachCovered(s, address, cart, exchange)
    ensures AllPositive(Deficits(s, address, cart, exchange))
  {
    if exchange != [] {
      var front := Front(exchange);
      NoDeficitIffCovered(s, address, cart, front);
      assert forall i :: 0 <= i < |front| ==> front[i] == exchange[i];
      assert exchange[|exchange| - 1] == Last(exchange);
    }
  }

  /** The credited total of a container is at least the deficit of each of its lines. */
  lemma {:induction false} CreditReachesEachLine(
    s: Stock, address: InventoryId, cart: Cart, exchange: seq<(ProductId, int)>, i: nat)
    requires i < |exchange|
    ensures exchange[i].1 - Available(s, address, cart, exchange[i].0)
            <= Quantity(Deficits(s, address, cart, exchange), exchange[i].0)
  {
    var front, tare := Front(exchange), exchange[i].0;
    NoDeficitIffCovered(s, address, cart, front);
    QuantityPositive(Deficits(s, address, cart, front), tare);
    DeficitsStep(s, address, cart, exchange, tare);
    if i < |front| {
      assert front[i] == exchange[i];
      CreditReachesEachLine(s, address, cart, front, i);
    }
  }

  lemma {:induction false} DeficitsStep(
    s: Stock, address: InventoryId, cart: Cart, exchange: seq<(ProductId, int)>, tare: ProductId)
    requires exchange != []
    ensures Quantity(Deficits(s, address, cart, exchange), tare) ==
            Quantity(Deficits(s, address, cart, Front(exchange)), tare) +
            if Last(exchange).0 == tare then Max(0, Last(exchange).1 - Available(s, address, cart, tare)) else 0
  {
    var before, after := Deficits(s, address, cart, Front(exchange)), Deficits(s, address, cart, exchange);
    if after == before + [] {
      assert after == before;
    } else {
      assert Front(after) == before;
    }
  }

  /** Of `required` containers, `available` are there; the credit falls short unless the container is used alone. */
  predicate FairCredit(credit: int, required: int, available: int, alone: bool) {
    && 0 <= credit <= Max(0, required - available)
    && (credit == Max(0, required - available) <==> alone || available == 0 || required <= available)
  }

  /**
    Deficits are taken line by line, so what is credited never exceeds what the lines lack together,
    and reaches it exactly when the container is not shared, none of it is available, or none lacks.
   */
  lemma {:induction false} CreditIsExactIff(
    s: Stock, address: InventoryId, cart: Cart, exchange: seq<(ProductId, int)>, tare: ProductId)
    requires AllPositive(exchange) && Available(s, address, cart, tare) >= 0
    ensures 0 <= Quantity(Deficits(s, address, cart, exchange), tare) <= Missing(s, address, cart, exchange, tare)
    ensures Quantity(Deficits(s, address, cart, exchange), tare) == Missing(s, address, cart, exchange, tare)
            <==> || Unshared(exchange, tare) || Available(s, address, cart, tare) == 0
                 || Quantity(exchange, tare) <= Available(s, address, cart, tare)
  {
    CreditIsFair(s, address, cart, exchange, tare);
  }

  lemma {:induction false} CreditIsFair(
    s: Stock, address: InventoryId, cart: Cart, exchange: seq<(ProductId, int)>, tare: ProductId)
    requires AllPositive(exchange) && Available(s, address, cart, tare) >= 0
    ensures FairCredit(Quantity(Deficits(s, address, cart, exchange), tare), Quantity(exchange, tare),
                       Available(s, address, cart, tare), Unshared(exchange, tare))
  {
    if exchange != [] {
      var front, last := Front(exchange), Last(exchange);
      FrontPositive(exchange);
      CreditIsFair(s, address, cart, front, tare);
      DeficitsStep(s, address, cart, exchange, tare);
      RequiredStep(exchange, tare);
      if last.0 == tare {
        CreditGrows(Quantity(Deficits(s, address, cart, front), tare), Quantity(front, tare), last.1,
                    Available(s, address, cart, tare), Unshared(front, tare));
      }
    }
  }

  /** What one more line changes in the demand for a container and in its sharing. */
  lemma {:induction false} RequiredStep(exchange: seq<(ProductId, int)>, tare: ProductId)
    requires exchange != [] && AllPositive(exchange)
    ensures Quantity(exchange, tare) == Quantity(Front(exchange), tare) + if Last(exchange).0 == tare then Last(exchange).1 else 0
    ensures Quantity(Front(exchange), tare) >= 0
    ensures Quantity(Front(exchange), tare) == 0 ==> Unshared(Front(exchange), tare)
    ensures Unshared(exchange, tare) <==>
            if Last(exchange).0 == tare then Quantity(Front(exchange), tare) == 0 else Unshared(Front(exchange), tare)
  {
    FrontPositive(exchange);
    QuantityPositive(Front(exchange), tare);
    UnsharedStep(exchange, tare);
  }

  /** One more line of `r` containers on top of `required`, when `available` were there. */
  lemma CreditGrows(credit: int, required: int, r: int, available: int, alone: bool)
    requires required >= 0 && r > 0 && available >= 0 && FairCredit(credit, required, available, alone)
    requires required == 0 ==> alone
    ensures FairCredit(credit + Max(0, r - available), required + r, available, required == 0)
  {
  }

  lemma {:induction false} UnsharedStep(exchange: seq<(ProductId, int)>, tare: ProductId)
    requires exchange != []
    ensures Unshared(exchange, tare) <==>
            Unshared(Front(exchange), tare) && (Last(exchange).0 == tare ==> !HasKey(Front(exchange), tare))
    ensures !HasKey(Front(exchange), tare) ==> Unshared(Front(exchange), tare)
  {
    var front, n := Front(exchange), |exchange| - 1;
    assert forall i :: 0 <= i < |front| ==> front[i] == exchange[i];
    if Unshared(exchange, tare) && exchange[n].0 == tare {
      assert forall i :: 0 <= i < |front| ==> front[i].0 != tare;
    }
  }

  /** The containers of a valid cart are required in positive quantities. */
  lemma {:induction false} ExchangePositive(catalog: Catalog, cart: Cart)
    requires AllPositive(cart)
    ensures AllPositive(Exchange(catalog, cart))
  {
    if cart != [] {
      assert forall i :: 0 <= i < |Front(cart)| ==> Front(cart)[i] == cart[i];
      ExchangePositive(catalog, Front(cart));
    }
  }

  lemma {:induction false} LastQuantityNonNegative(cart: Cart, p: ProductId)
    requires AllPositive(cart)
    ensures LastQuantity(cart, p) >= 0
    ensures LastQuantity(cart, p) > 0 <==> HasKey(cart, p)
  {
    if cart != [] {
      assert forall i :: 0 <= i < |Front(cart)| ==> Front(cart)[i] == cart[i];
      LastQuantityNonNegative(Front(cart), p);
      HasKeyFront(cart, p);
    }
  }

  /**
    Crediting the shortages never fails for a real address, adds exactly the deficits to it, and
    leaves every line covered on its own, at checkout and at capitalize_deficit alike.
   */
  lemma {:induction false} CapitalisingCovers(
    s: Stock, address: InventoryId, cart: Cart, exchange: seq<(ProductId, int)>, now: int)
    requires StockOk(s) && Exists(s, address)
    ensures Capitalise(s, address, Deficits(s, address, cart, exchange), now).Success? <==> address != s.vendor
    ensures address != s.vendor ==>
              var s' := Capitalise(s, address, Deficits(s, address, cart, exchange), now).value;
              && EachCovered(s', address, cart, exchange)
              && (forall t :: Balance(s', address, t) == Balance(s, address, t) + Quantity(Deficits(s, address, cart, exchange), t))
  {
    var shortages := Deficits(s, address, cart, exchange);
    var d := Document(s.vendor, address, InitialBalance, None, now);
    NoDeficitIffCovered(s, address, cart, exchange);
    PositiveIsIdentity(shortages);
    if address != s.vendor {
      PostSucceedsIff(s, d, shortages);
      var s' := Capitalise(s, address, shortages, now).value;
      PostEffect(s, d, shortages, s');
      forall i | 0 <= i < |exchange|
        ensures exchange[i].1 <= Available(s', address, cart, exchange[i].0)
      {
        CreditReachesEachLine(s, address, cart, exchange, i);
      }
    }
  }

  /**
    After capitalisation the address covers all lines of a container together exactly when
    the container is not shared, none of it was available, or none was missing.
   */
  lemma {:induction false} JointlyCoveredIff(
    s: Stock, address: InventoryId, cart: Cart, exchange: seq<(ProductId, int)>, now: int, tare: ProductId)
    requires StockOk(s) && Exists(s, address) && address != s.vendor
    requires AllPositive(exchange) && Available(s, address, cart, tare) >= 0
    requires Capitalise(s, address, Deficits(s, address, cart, exchange), now).Success?
    ensures var s' := Capitalise(s, address, Deficits(s, address, cart, exchange), now).value;
            Quantity(exchange, tare) <= Available(s', address, cart, tare) <==>
            || Unshared(exchange, tare) || Available(s, address, cart, tare) == 0
            || Quantity(exchange, tare) <= Available(s, address, cart, tare)
  {
    CapitalisingCovers(s, address, cart, exchange, now);
    CreditIsExactIff(s, address, cart, exchange, tare);
  }

  /** A second capitalize_deficit for the same cart credits nothing. */
  lemma {:induction false} SecondCreditIsEmpty(
    db: Db, client: UserId, address: InventoryId, cart: Cart, catalog: Catalog, now: int, later: int)
    requires StockOk(db.stock)
    requires CapitaliseDeficit(db, client, address, cart, catalog, now).Success?
    ensures var db' := CapitaliseDeficit(db, client, address, cart, catalog, now).value;
            && CapitaliseDeficit(db', client, address, cart, catalog, later) == Success(db')
            && Preview(db'.stock, address, catalog, cart) == Success([])
  {
    var exchange := Exchange(catalog, cart);
    if exchange != [] {
      var db' := CapitaliseDeficit(db, client, address, cart, catalog, now).value;
      CapitalisingCovers(db.stock, address, [], exchange, now);
      NoDeficitIffCovered(db.stock, address, [], exchange);
      NoDeficitIffCovered(db'.stock, address, [], exchange);
      if Deficits(db.stock, address, [], exchange) != [] {
        var d := Document(db.stock.vendor, address, InitialBalance, None, now);
        PositiveIsIdentity(Deficits(db.stock, address, [], exchange));
        PostEffect(db.stock, d, Deficits(db.stock, address, [], exchange), db'.stock);
      }
    }
  }

  /** An empty preview means checkout finds no shortage and credits nothing. */
  lemma {:induction false} PreviewIsHonoured(s: Stock, req: Checkout, catalog: Catalog, now: int)
    requires CheckCart(catalog, req.cart, false).Success?
    requires Preview(s, req.address, catalog, req.cart) == Success([])
    ensures CheckoutTara(s, req, catalog, now) == Success((s, false))
  {
    var exchange := Exchange(catalog, req.cart);
    NoDeficitIffCovered(s, req.address, [], exchange);
    NoDeficitIffCovered(s, req.address, req.cart, exchange);
    forall i | 0 <= i < |exchange|
      ensures Available(s, req.address, [], exchange[i].0) <= Available(s, req.address, req.cart, exchange[i].0)
    {
      LastQuantityNonNegative(req.cart, exchange[i].0);
    }
  }

  /** For a cart that buys none of its own containers, the preview is empty exactly when checkout is free of shortages. */
  lemma {:induction false} PreviewIsExact(s: Stock, req: Checkout, catalog: Catalog, now: int)
    requires CheckCart(catalog, req.cart, false).Success?
    requires forall i :: 0 <= i < |Exchange(catalog, req.cart)| ==> !HasKey(req.cart, Exchange(catalog, req.cart)[i].0)
    ensures Preview(s, req.address, catalog, req.cart) == Success([]) <==>
            CheckoutTara(s, req.(capitalise := false), catalog, now).Success?
  {
    var exchange := Exchange(catalog, req.cart);
    NoDeficitIffCovered(s, req.address, [], exchange);
    NoDeficitIffCovered(s, req.address, req.cart, exchange);
    forall i | 0 <= i < |exchange|
      ensures Available(s, req.address, [], exchange[i].0) == Available(s, req.address, req.cart, exchange[i].0)
    {
      LastQuantityNonNegative(req.cart, exchange[i].0);
    }
  }

  /** An order placed on an empty preview is never refused for containers and moves no stock. */
  lemma {:induction false} PreviewedOrderMovesNoStock(db: Db, req: Checkout, catalog: Catalog, today: int, now: int)
    requires Preview(db.stock, req.address, catalog, req.cart) == Success([])
    ensures CreateOrder(db, req, catalog, today, now) != Failure(InsufficientTara)
    ensures CreateOrder(db, req, catalog, today, now).Success? ==>
              var db' := CreateOrder(db, req, catalog, today, now).value;
              db'.stock == db.stock && |db'.orders| == |db.orders| + 1 && !Last(db'.orders).capitalized
  {
    if CheckCart(catalog, req.cart, false).Success? {
      PreviewIsHonoured(db.stock, req, catalog, now);
      if req.payment == ByContract {
        var c := PayingContract(db.contracts, req.client, req.b2b, today);
        if c.Success? {
          IncrementError(db.contracts[c.value].items, req.cart);
        }
      }
    }
  }

  lemma {:induction false} IncrementError(items: Quotas.PriceList, cart: Cart)
    ensures Quotas.Reserve(items, cart) != Failure(InsufficientTara)
  {
    Quotas.IncrementTotals(items, cart);
  }
}
