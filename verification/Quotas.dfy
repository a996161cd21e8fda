/** Contract price lists and the `quantity_used` counters kept by hand. */
module Quotas {
  import opened Base
  import opened Tally

  /** `quantity == 0` means no limit. */
  datatype PriceItem = PriceItem(price: int, quantity: int, used: int)
  type PriceList = map<ProductId, PriceItem>
  type Deltas = seq<(ProductId, int)>

  predicate Fits(item: PriceItem, requested: int) {
    item.quantity == 0 || requested <= item.quantity - item.used
  }

  /** increment_quantities_used: one update per pair. */
  function Increment(items: PriceList, deltas: Deltas): Result<PriceList> {
    if deltas == [] then Success(items)
    else
      var before :- Increment(items, Front(deltas));
      var (p, d) := Last(deltas);
      if d <= 0 || p !in before then Failure(QuotaLeak)
      else Success(before[p := before[p].(used := before[p].used + d)])
  }

  /** decrement_quantities_used: one update per pair, clamped at zero. */
  function Decrement(items: PriceList, deltas: Deltas): Result<PriceList> {
    if deltas == [] then Success(items)
    else
      var before :- Decrement(items, Front(deltas));
      var (p, d) := Last(deltas);
      if d <= 0 || p !in before then Failure(QuotaLeak)
      else Success(before[p := before[p].(used := Max(before[p].used - d, 0))])
  }

  /** _check_and_reserve_quantities: every requested quantity is checked, then all are reserved. */
  function Reserve(items: PriceList, cart: Deltas): Result<PriceList> {
    if exists i :: 0 <= i < |cart| && cart[i].0 !in items then Failure(ProductNotInContract)
    else if exists i :: 0 <= i < |cart| && !Fits(items[cart[i].0], cart[i].1) then Failure(QuantityLimitExceeded)
    else Increment(items, cart)
  }

  predicate Listed(items: PriceList, deltas: Deltas) {
    forall i :: 0 <= i < |deltas| ==> deltas[i].0 in items
  }

  ghost predicate NonNegativeUse(items: PriceList) {
    forall p :: p in items ==> items[p].used >= 0
  }

  /** Only the counters differ. */
  ghost predicate SameTerms(items: PriceList, items': PriceList) {
    && items'.Keys == items.Keys
    && (forall p :: p in items ==> items'[p].price == items[p].price && items'[p].quantity == items[p].quantity)
  }

  /** The row-by-row increment adds each product's total, and fails only on a missing product. */
  lemma {:induction false} IncrementTotals(items: PriceList, deltas: Deltas)
    ensures Increment(items, deltas).Success? <==> AllPositive(deltas) && Listed(items, deltas)
    ensures Increment(items, deltas).Failure? ==> Increment(items, deltas).error == QuotaLeak
    ensures Increment(items, deltas).Success? ==>
              var items' := Increment(items, deltas).value;
              && SameTerms(items, items')
              && (forall p :: p in items ==> items'[p].used == items[p].used + Quantity(deltas, p))
  {
    if deltas != [] {
      IncrementTotals(items, Front(deltas));
      FrontListed(items, deltas);
    }
  }

  /** The row-by-row clamped decrement equals one clamped decrement by each product's total. */
  lemma {:induction false} DecrementTotals(items: PriceList, deltas: Deltas)
    requires NonNegativeUse(items)
    ensures Decrement(items, deltas).Success? <==> AllPositive(deltas) && Listed(items, deltas)
    ensures Decrement(items, deltas).Failure? ==> Decrement(items, deltas).error == QuotaLeak
    ensures Decrement(items, deltas).Success? ==>
              var items' := Decrement(items, deltas).value;
              && SameTerms(items, items')
              && (forall p :: p in items ==> items'[p].used == Max(items[p].used - Quantity(deltas, p), 0))
  {
    if deltas != [] {
      DecrementTotals(items, Front(deltas));
      FrontListed(items, deltas);
      if AllPositive(Front(deltas)) {
        QuantityPositive(Front(deltas), Last(deltas).0);
      }
    }
  }

  lemma {:induction false} FrontListed(items: PriceList, deltas: Deltas)
    requires deltas != []
    ensures AllPositive(deltas) <==> AllPositive(Front(deltas)) && Last(deltas).1 > 0
    ensures Listed(items, deltas) <==> Listed(items, Front(deltas)) && Last(deltas).0 in items
  {
    var front := Front(deltas);
    assert forall i :: 0 <= i < |front| ==> front[i] == deltas[i];
  }

  /**
    Decrements depend only on the totals: two lists with the same totals have the same outcome,
    whatever their order and grouping, also when the clamp bites.
   */
  lemma {:induction false} DecrementByTotals(items: PriceList, deltas: Deltas, deltas': Deltas)
    requires NonNegativeUse(items) && AllPositive(deltas) && AllPositive(deltas')
    requires forall p :: Quantity(deltas, p) == Quantity(deltas', p)
    ensures Decrement(items, deltas) == Decrement(items, deltas')
  {
    DecrementTotals(items, deltas);
    DecrementTotals(items, deltas');
    SameTotalsSameKeys(items, deltas, deltas');
    SameTotalsSameKeys(items, deltas', deltas);
    if Listed(items, deltas) {
      var a, b := Decrement(items, deltas).value, Decrement(items, deltas').value;
      assert forall p :: p in items ==> a[p] == b[p];
      assert a == b;
    }
  }

  lemma {:induction false} SameTotalsSameKeys(items: PriceList, deltas: Deltas, deltas': Deltas)
    requires AllPositive(deltas) && AllPositive(deltas')
    requires forall p :: Quantity(deltas, p) == Quantity(deltas', p)
    ensures Listed(items, deltas) ==> Listed(items, deltas')
  {
    forall i | Listed(items, deltas) && 0 <= i < |deltas'|
      ensures deltas'[i].0 in items
    {
      var p := deltas'[i].0;
      QuantityPositive(deltas', p);
      QuantityPositive(deltas, p);
      var n :| 0 <= n < |deltas| && deltas[n].0 == p;
    }
  }
}
