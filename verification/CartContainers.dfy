/**
  What a cart asks for in returnable containers, said position by position, and that the lists the
  services build say the same.
 */
module CartContainers {
  import opened Base
  import opened Tally
  import opened StockLedger
  import opened Database
  import opened Tara
  import TaraProofs

  /** The container position `i` asks for: that of its product, at the product's first position, if on sale. */
  function Wanted(catalog: Catalog, cart: Cart, i: nat): Option<ProductId>
    requires i < |cart|
  {
    if (exists j :: 0 <= j < i && cart[j].0 == cart[i].0) || cart[i].0 !in catalog || !catalog[cart[i].0].active then None
    else catalog[cart[i].0].returnable
  }

  /** How far each position that asks for `t` exceeds the `available` ones. */
  function Lacks(catalog: Catalog, cart: Cart, t: ProductId, available: int): seq<int> {
    seq(|cart|, i requires 0 <= i < |cart| =>
      if Wanted(catalog, cart, i) == Some(t) && available < cart[i].1 then cart[i].1 - available else 0)
  }

  /** The containers of kind `t` that are missing, position by position. */
  function Lacking(catalog: Catalog, cart: Cart, t: ProductId, available: int): int {
    Sum(Lacks(catalog, cart, t, available))
  }

  /** Position `i` asks for no more than is on the address or bought in `bought`. */
  predicate Satisfied(s: Stock, address: InventoryId, bought: Cart, catalog: Catalog, cart: Cart, i: nat)
    requires i < |cart|
  {
    Wanted(catalog, cart, i).Some? ==>
      cart[i].1 <= Balance(s, address, Wanted(catalog, cart, i).value) + LastQuantity(bought, Wanted(catalog, cart, i).value)
  }

  predicate Enough(s: Stock, address: InventoryId, bought: Cart, catalog: Catalog, cart: Cart) {
    forall i :: 0 <= i < |cart| ==> Satisfied(s, address, bought, catalog, cart, i)
  }

  /** Some position asks for a container. */
  predicate AnyWanted(catalog: Catalog, cart: Cart) {
    exists i :: 0 <= i < |cart| && Wanted(catalog, cart, i).Some?
  }

  lemma {:induction false} WantedFront(catalog: Catalog, cart: Cart, i: nat)
    requires cart != [] && i < |cart| - 1
    ensures Wanted(catalog, cart, i) == Wanted(catalog, Front(cart), i) && Front(cart)[i] == cart[i]
  {
    assert forall j :: 0 <= j <= i ==> Front(cart)[j] == cart[j];
  }

  /** The exchange list has an entry exactly for each position that asks. */
  lemma {:induction false} ExchangeStep(catalog: Catalog, cart: Cart)
    requires cart != []
    ensures var front, wanted := Exchange(catalog, Front(cart)), Wanted(catalog, cart, |cart| - 1);
            Exchange(catalog, cart) == if wanted.Some? then front + [(wanted.value, Last(cart).1)] else front
  {
    var front, p := Front(cart), Last(cart).0;
    assert forall j :: 0 <= j < |front| ==> front[j] == cart[j];
    assert HasKey(front, p) <==> exists j :: 0 <= j < |cart| - 1 && cart[j].0 == cart[|cart| - 1].0;
    assert Exchange(catalog, front) + [] == Exchange(catalog, front);
  }

  lemma {:induction false} LacksStep(catalog: Catalog, cart: Cart, t: ProductId, available: int)
    requires cart != []
    ensures Lacking(catalog, cart, t, available) == Lacking(catalog, Front(cart), t, available) +
              (if Wanted(catalog, cart, |cart| - 1) == Some(t) then Max(0, Last(cart).1 - available) else 0)
  {
    var front := Front(cart);
    forall i | 0 <= i < |front|
      ensures Lacks(catalog, cart, t, available)[i] == Lacks(catalog, front, t, available)[i]
    {
      WantedFront(catalog, cart, i);
    }
    assert Front(Lacks(catalog, cart, t, available)) == Lacks(catalog, front, t, available);
  }

  /** What is credited per container is what the positions lack. */
  lemma {:induction false} DeficitsAreLacks(
    s: Stock, address: InventoryId, bought: Cart, catalog: Catalog, cart: Cart, t: ProductId)
    ensures Quantity(Deficits(s, address, bought, Exchange(catalog, cart)), t) ==
            Lacking(catalog, cart, t, Balance(s, address, t) + LastQuantity(bought, t))
  {
    if cart != [] {
      DeficitsAreLacks(s, address, bought, catalog, Front(cart), t);
      LacksStep(catalog, cart, t, Balance(s, address, t) + LastQuantity(bought, t));
      ExchangeStep(catalog, cart);
      var exchange := Exchange(catalog, cart);
      if Wanted(catalog, cart, |cart| - 1).Some? {
        assert Front(exchange) == Exchange(catalog, Front(cart));
        TaraProofs.DeficitsStep(s, address, bought, exchange, t);
      }
    }
  }

  /** There is a shortage exactly when some position asks for more than is there. */
  lemma {:induction false} ShortIffAsked(s: Stock, address: InventoryId, bought: Cart, catalog: Catalog, cart: Cart)
    ensures Deficits(s, address, bought, Exchange(catalog, cart)) == [] <==> Enough(s, address, bought, catalog, cart)
  {
    if cart != [] {
      var front, last := Front(cart), |cart| - 1;
      ShortIffAsked(s, address, bought, catalog, front);
      EnoughStep(s, address, bought, catalog, cart);
      ExchangeStep(catalog, cart);
      var exchange := Exchange(catalog, cart);
      if Wanted(catalog, cart, last).Some? {
        assert Front(exchange) == Exchange(catalog, front) && Last(exchange) == (Wanted(catalog, cart, last).value, Last(cart).1);
      }
    }
  }

  lemma {:induction false} EnoughStep(s: Stock, address: InventoryId, bought: Cart, catalog: Catalog, cart: Cart)
    requires cart != []
    ensures Enough(s, address, bought, catalog, cart) <==>
            Enough(s, address, bought, catalog, Front(cart)) && Satisfied(s, address, bought, catalog, cart, |cart| - 1)
  {
    forall i | 0 <= i < |cart| - 1
      ensures Satisfied(s, address, bought, catalog, cart, i) <==> Satisfied(s, address, bought, catalog, Front(cart), i)
    {
      WantedFront(catalog, cart, i);
    }
  }

  lemma {:induction false} EmptyIffNoneWanted(catalog: Catalog, cart: Cart)
    ensures Exchange(catalog, cart) == [] <==> !AnyWanted(catalog, cart)
  {
    if cart != [] {
      EmptyIffNoneWanted(catalog, Front(cart));
      ExchangeStep(catalog, cart);
      forall i | 0 <= i < |cart| - 1
        ensures Wanted(catalog, cart, i) == Wanted(catalog, Front(cart), i)
      {
        WantedFront(catalog, cart, i);
      }
    }
  }

  // ---- Containers bought in the same cart ----

  lemma {:induction false} NoneBought(cart: Cart, t: ProductId)
    requires forall n :: 0 <= n < |cart| ==> cart[n].0 != t
    ensures LastQuantity(cart, t) == 0
  {
    if cart != [] {
      NoneBought(Front(cart), t);
    }
  }

  /** The quantity at the container's last position. */
  lemma {:induction false} LastBought(cart: Cart, t: ProductId, n: nat)
    requires n < |cart| && cart[n].0 == t && forall m :: n < m < |cart| ==> cart[m].0 != t
    ensures LastQuantity(cart, t) == cart[n].1
  {
    if n < |cart| - 1 {
      var front := Front(cart);
      assert forall m :: 0 <= m < |front| ==> front[m] == cart[m];
      LastBought(front, t, n);
    }
  }

  lemma {:induction false} BoughtOnce(cart: Cart, t: ProductId)
    requires DistinctKeys(cart)
    ensures LastQuantity(cart, t) == Quantity(cart, t)
  {
    if HasKey(cart, t) {
      var n :| 0 <= n < |cart| && cart[n].0 == t;
      LastBought(cart, t, n);
      QuantityOfDistinct(cart, n);
    } else {
      NoneBought(cart, t);
      QuantityWithoutKey(cart, t);
    }
  }

  /** The preview shows, per container, what the positions lack on the address alone. */
  lemma {:induction false} PreviewShows(s: Stock, address: InventoryId, catalog: Catalog, cart: Cart, t: ProductId)
    ensures Preview(s, address, catalog, cart).Success? <==> AnyWanted(catalog, cart) ==> Exists(s, address)
    ensures Preview(s, address, catalog, cart).Failure? ==> Preview(s, address, catalog, cart).error == ClientInventoryNotFound
    ensures Preview(s, address, catalog, cart).Success? ==>
              && Quantity(Preview(s, address, catalog, cart).value, t) == Lacking(catalog, cart, t, Balance(s, address, t))
              && (Preview(s, address, catalog, cart).value == [] <==> Enough(s, address, [], catalog, cart))
  {
    EmptyIffNoneWanted(catalog, cart);
    ShortIffAsked(s, address, [], catalog, cart);
    DeficitsAreLacks(s, address, [], catalog, cart, t);
    assert Deficits(s, address, [], []) == [];
  }
}
