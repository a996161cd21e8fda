/**
  Suspending, terminating or expiring a contract cancels its orders in bulk: statuses in one
  update, quota in one clamped decrement per product. This refines cancelling the same orders
  one at a time, in any order.
 */
module BulkCancel {
  import opened Base
  import opened Tally
  import opened Quotas
  import opened Database
  import opened OrderSteps
  import opened ContractSteps
  import opened LineTotals

  /** Cancelling orders one after the other. */
  function CancelEach(db: Db, ids: seq<OrderId>): Result<Db> {
    if ids == [] then Success(db)
    else
      var before :- CancelEach(db, Front(ids));
      if Last(ids) >= |before.orders| then Failure(OrderNotFound) else CancelOrder(before, Last(ids))
  }

  predicate Distinct(ids: seq<OrderId>) {
    forall i, j :: 0 <= i < j < |ids| ==> ids[i] != ids[j]
  }

  predicate Within(ids: seq<OrderId>, n: nat) {
    forall i :: 0 <= i < |ids| ==> ids[i] < n
  }

  /** The table constraints the comparison needs; the counters themselves may be wrong. */
  ghost predicate RowsOk(db: Db, c: ContractId) {
    && c < |db.contracts| && NonNegativeUse(db.contracts[c].items)
    && (forall o :: 0 <= o < |db.orders| ==> LinesAllowed(db.orders[o].lines))
    && (forall o :: 0 <= o < |db.orders| && db.orders[o].contract == Some(c) ==> db.orders[o].payment == ByContract)
  }

  /** The quota one order gives back. */
  function Returned(ord: Order, c: ContractId): Deltas {
    if Cancellable(ord, c) && ord.reserved then Quantities(ord.lines) else []
  }

  function ReturnedByEach(orders: seq<Order>, c: ContractId, ids: seq<OrderId>): Deltas
    requires Within(ids, |orders|)
  {
    if ids == [] then [] else ReturnedByEach(orders, c, Front(ids)) + Returned(orders[Last(ids)], c)
  }

  function RowsAfterEach(orders: seq<Order>, c: ContractId, ids: seq<OrderId>): (rows: seq<Order>)
    requires Within(ids, |orders|)
    ensures |rows| == |orders|
  {
    if ids == [] then orders
    else RowsAfterEach(orders, c, Front(ids))[Last(ids) := CancelledRow(orders[Last(ids)], c)]
  }

  lemma {:induction false} RowAfterEach(orders: seq<Order>, c: ContractId, ids: seq<OrderId>, i: nat)
    requires Within(ids, |orders|) && i < |orders|
    ensures RowsAfterEach(orders, c, ids)[i] == if i in ids then CancelledRow(orders[i], c) else orders[i]
  {
    if ids != [] {
      RowAfterEach(orders, c, Front(ids), i);
    }
  }

  /** Two decrements in a row are one decrement by both lists. */
  lemma {:induction false} DecrementAppend(items: PriceList, a: Deltas, b: Deltas)
    ensures Decrement(items, a).Failure? ==> Decrement(items, a + b) == Decrement(items, a)
    ensures Decrement(items, a).Success? ==> Decrement(items, a + b) == Decrement(Decrement(items, a).value, b)
  {
    if b == [] {
      assert a + b == a;
    } else {
      DecrementAppend(items, a, Front(b));
      assert Front(a + b) == a + Front(b);
    }
  }

  lemma {:induction false} ReleaseAppend(contracts: seq<Contract>, c: ContractId, a: Deltas, b: Deltas)
    requires c < |contracts|
    ensures ReleaseQuota(contracts, c, a).Failure? ==> ReleaseQuota(contracts, c, a + b) == ReleaseQuota(contracts, c, a)
    ensures ReleaseQuota(contracts, c, a).Success? ==>
              ReleaseQuota(contracts, c, a + b) == ReleaseQuota(ReleaseQuota(contracts, c, a).value, c, b)
  {
    DecrementAppend(contracts[c].items, a, b);
    if a == [] {
      assert a + b == b;
    } else if b == [] {
      assert a + b == a;
    } else if ReleaseQuota(contracts, c, a).Success? && ReleaseQuota(contracts, c, a + b).Success? {
      var x, y := ReleaseQuota(contracts, c, a + b).value, ReleaseQuota(ReleaseQuota(contracts, c, a).value, c, b).value;
      assert x == y;
    }
  }

  /** What one-by-one cancellation computes. */
  lemma {:induction false} CancelEachEffect(db: Db, c: ContractId, ids: seq<OrderId>)
    requires RowsOk(db, c) && Distinct(ids)
    requires Within(ids, |db.orders|) && forall i :: 0 <= i < |ids| ==> Cancellable(db.orders[ids[i]], c)
    ensures var contracts := ReleaseQuota(db.contracts, c, ReturnedByEach(db.orders, c, ids));
            CancelEach(db, ids) ==
            if contracts.Success? then Success(db.(contracts := contracts.value, orders := RowsAfterEach(db.orders, c, ids)))
            else Failure(contracts.error)
  {
    if ids != [] {
      var front, o := Front(ids), Last(ids);
      CancelEachEffect(db, c, front);
      ReleaseAppend(db.contracts, c, ReturnedByEach(db.orders, c, front), Returned(db.orders[o], c));
      RowAfterEach(db.orders, c, front, o);
      assert o !in front;
      var before := CancelEach(db, front);
      if before.Success? {
        assert before.value.orders[o] == db.orders[o];
      }
    }
  }

  // ---- Totals do not depend on the order of cancellation ----

  function Weights(orders: seq<Order>, c: ContractId, p: ProductId): seq<int> {
    seq(|orders|, i requires 0 <= i < |orders| => Quantity(Returned(orders[i], c), p))
  }

  function Cleared(weights: seq<int>, ids: seq<OrderId>): (rest: seq<int>)
    requires Within(ids, |weights|)
    ensures |rest| == |weights|
  {
    if ids == [] then weights else Cleared(weights, Front(ids))[Last(ids) := 0]
  }

  lemma {:induction false} ClearedAt(weights: seq<int>, ids: seq<OrderId>, i: nat)
    requires Within(ids, |weights|) && i < |weights|
    ensures Cleared(weights, ids)[i] == if i in ids then 0 else weights[i]
  {
    if ids != [] {
      ClearedAt(weights, Front(ids), i);
    }
  }

  lemma {:induction false} TotalOfEach(orders: seq<Order>, c: ContractId, ids: seq<OrderId>, p: ProductId)
    requires Distinct(ids) && Within(ids, |orders|)
    ensures Quantity(ReturnedByEach(orders, c, ids), p) ==
            Sum(Weights(orders, c, p)) - Sum(Cleared(Weights(orders, c, p), ids))
  {
    if ids != [] {
      var w, front, o := Weights(orders, c, p), Front(ids), Last(ids);
      TotalOfEach(orders, c, front, p);
      QuantityAppend(ReturnedByEach(orders, c, front), Returned(orders[o], c), p);
      ClearedAt(w, front, o);
      assert o !in front;
      SumUpdate(Cleared(w, front), o, 0);
    }
  }

  lemma {:induction false} TotalOfBulk(orders: seq<Order>, c: ContractId, p: ProductId)
    ensures Quantity(ReleasedItems(orders, c), p) == Sum(Weights(orders, c, p))
  {
    if orders != [] {
      TotalOfBulk(Front(orders), c, p);
      assert Front(Weights(orders, c, p)) == Weights(Front(orders), c, p);
      QuantityAppend(ReleasedItems(Front(orders), c), Returned(Last(orders), c), p);
    }
  }

  lemma {:induction false} SumOfZeros(xs: seq<int>)
    requires forall i :: 0 <= i < |xs| ==> xs[i] == 0
    ensures Sum(xs) == 0
  {
    if xs != [] {
      SumOfZeros(Front(xs));
    }
  }

  lemma {:induction false} EachPositive(orders: seq<Order>, c: ContractId, ids: seq<OrderId>)
    requires forall o :: 0 <= o < |orders| ==> LinesAllowed(orders[o].lines)
    requires Within(ids, |orders|)
    ensures AllPositive(ReturnedByEach(orders, c, ids))
  {
    if ids != [] {
      EachPositive(orders, c, Front(ids));
      HeldNonNegative(orders[Last(ids)].lines, 0);
    }
  }

  lemma {:induction false} BulkPositive(orders: seq<Order>, c: ContractId)
    requires forall o :: 0 <= o < |orders| ==> LinesAllowed(orders[o].lines)
    ensures AllPositive(ReleasedItems(orders, c))
  {
    if orders != [] {
      BulkPositive(Front(orders), c);
      HeldNonNegative(Last(orders).lines, 0);
    }
  }

  /**
    Bulk cancellation refines one-by-one cancellation: for every order of cancellation the final
    database is the same, or both fail, even where the clamp bites.
   */
  lemma {:induction false} BulkIsOneByOne(db: Db, c: ContractId, ids: seq<OrderId>)
    requires RowsOk(db, c) && Distinct(ids)
    requires forall o: OrderId :: o in ids <==> o < |db.orders| && Cancellable(db.orders[o], c)
    ensures CancelInflight(db, c) == CancelEach(db, ids)
  {
    assert forall i :: 0 <= i < |ids| ==> ids[i] in ids;
    var each, bulk := ReturnedByEach(db.orders, c, ids), Collect(ReleasedItems(db.orders, c));
    CancelEachEffect(db, c, ids);
    EachPositive(db.orders, c, ids);
    BulkPositive(db.orders, c);
    CollectPositive(ReleasedItems(db.orders, c));
    forall p
      ensures Quantity(each, p) == Quantity(bulk, p)
    {
      var w := Weights(db.orders, c, p);
      TotalOfEach(db.orders, c, ids, p);
      TotalOfBulk(db.orders, c, p);
      QuantityCollect(ReleasedItems(db.orders, c), p);
      forall i | 0 <= i < |w|
        ensures Cleared(w, ids)[i] == 0
      {
        ClearedAt(w, ids, i);
      }
      SumOfZeros(Cleared(w, ids));
    }
    DecrementByTotals(db.contracts[c].items, each, bulk);
    ReleaseByTotals(db.contracts, c, each, bulk);
    forall i | 0 <= i < |db.orders|
      ensures RowsAfterEach(db.orders, c, ids)[i] == CancelledRows(db.orders, c)[i]
    {
      RowAfterEach(db.orders, c, ids, i);
    }
    assert RowsAfterEach(db.orders, c, ids) == CancelledRows(db.orders, c);
  }

  lemma {:induction false} ReleaseByTotals(contracts: seq<Contract>, c: ContractId, a: Deltas, b: Deltas)
    requires c < |contracts| && Decrement(contracts[c].items, a) == Decrement(contracts[c].items, b)
    ensures ReleaseQuota(contracts, c, a) == ReleaseQuota(contracts, c, b)
  {
    assert contracts == contracts[c := contracts[c].(items := contracts[c].items)];
  }
}
