/**
  Quantities keyed by anything with equality. A list of pairs may repeat a key; a table is what
  a loop of `t[k] = t.get(k, 0) + q` builds: insertion ordered, one entry per key.
 */
module Tally {
  import opened Base

  /** The total recorded under `k` in a list that may repeat keys. */
  function Quantity<K(==)>(items: seq<(K, int)>, k: K): int {
    if items == [] then 0
    else Quantity(Front(items), k) + (if Last(items).0 == k then Last(items).1 else 0)
  }

  /** `table.get(k, 0)`: the first entry under `k`. */
  function Lookup<K(==)>(table: seq<(K, int)>, k: K): int {
    if table == [] then 0 else if table[0].0 == k then table[0].1 else Lookup(table[1..], k)
  }

  /** `table[k] = table.get(k, 0) + d`. */
  function Bump<K(==)>(table: seq<(K, int)>, k: K, d: int): seq<(K, int)> {
    if table == [] then [(k, d)]
    else if table[0].0 == k then [(k, table[0].1 + d)] + table[1..]
    else [table[0]] + Bump(table[1..], k, d)
  }

  /** The table a loop over `items` accumulates. */
  function Collect<K(==)>(items: seq<(K, int)>): seq<(K, int)> {
    if items == [] then [] else Bump(Collect(Front(items)), Last(items).0, Last(items).1)
  }

  predicate AllPositive<K>(items: seq<(K, int)>) {
    forall i :: 0 <= i < |items| ==> items[i].1 > 0
  }

  lemma {:induction false} FrontPositive<K>(items: seq<(K, int)>)
    requires items != [] && AllPositive(items)
    ensures AllPositive(Front(items)) && Last(items).1 > 0
  {
    forall i | 0 <= i < |Front(items)|
      ensures Front(items)[i].1 > 0
    {
      assert Front(items)[i] == items[i];
    }
  }

  predicate DistinctKeys<K(==)>(items: seq<(K, int)>) {
    forall i, j :: 0 <= i < j < |items| ==> items[i].0 != items[j].0
  }

  predicate HasKey<K(==)>(items: seq<(K, int)>, k: K) {
    exists i :: 0 <= i < |items| && items[i].0 == k
  }

  /** The total of the entries whose key is selected. */
  function SumWhere<K>(table: seq<(K, int)>, selected: K -> bool): int {
    if table == [] then 0
    else (if selected(table[0].0) then table[0].1 else 0) + SumWhere(table[1..], selected)
  }

  lemma {:induction false} LookupBump<K>(table: seq<(K, int)>, k: K, d: int, j: K)
    ensures Lookup(Bump(table, k, d), j) == Lookup(table, j) + (if j == k then d else 0)
  {
    if table != [] && table[0].0 != k {
      LookupBump(table[1..], k, d, j);
      assert ([table[0]] + Bump(table[1..], k, d))[1..] == Bump(table[1..], k, d);
    } else if table != [] {
      assert ([(k, table[0].1 + d)] + table[1..])[1..] == table[1..];
    }
  }

  /** Accumulating into a table answers every key with the total of the list. */
  lemma {:induction false} LookupCollect<K>(items: seq<(K, int)>, k: K)
    ensures Lookup(Collect(items), k) == Quantity(items, k)
  {
    if items != [] {
      LookupCollect(Front(items), k);
      LookupBump(Collect(Front(items)), Last(items).0, Last(items).1, k);
    }
  }

  lemma {:induction false} SumWhereBump<K>(table: seq<(K, int)>, k: K, d: int, selected: K -> bool)
    ensures SumWhere(Bump(table, k, d), selected) == SumWhere(table, selected) + (if selected(k) then d else 0)
  {
    if table != [] && table[0].0 != k {
      SumWhereBump(table[1..], k, d, selected);
      assert ([table[0]] + Bump(table[1..], k, d))[1..] == Bump(table[1..], k, d);
    } else if table != [] {
      assert ([(k, table[0].1 + d)] + table[1..])[1..] == table[1..];
    }
  }

  lemma {:induction false} HasKeyBump<K>(table: seq<(K, int)>, k: K, d: int, j: K)
    ensures HasKey(Bump(table, k, d), j) <==> HasKey(table, j) || j == k
  {
    var bumped := Bump(table, k, d);
    if table == [] {
      assert bumped[0].0 == k;
    } else if table[0].0 == k {
      assert forall i :: 0 <= i < |table| ==> bumped[i].0 == table[i].0;
    } else {
      HasKeyBump(table[1..], k, d, j);
      var rest := Bump(table[1..], k, d);
      assert bumped == [table[0]] + rest;
      if HasKey(bumped, j) && j != table[0].0 {
        var i :| 0 <= i < |bumped| && bumped[i].0 == j;
        assert rest[i - 1].0 == j;
        if j != k {
          var n :| 0 <= n < |table[1..]| && table[1..][n].0 == j;
          assert table[n + 1].0 == j;
        }
      }
      if HasKey(table, j) || j == k {
        if j == table[0].0 {
          assert bumped[0].0 == j;
        } else {
          if j != k {
            var n :| 0 <= n < |table| && table[n].0 == j;
            assert table[1..][n - 1].0 == j;
          }
          var i :| 0 <= i < |rest| && rest[i].0 == j;
          assert bumped[i + 1].0 == j;
        }
      }
    }
  }

  lemma {:induction false} DistinctBump<K>(table: seq<(K, int)>, k: K, d: int)
    requires DistinctKeys(table)
    ensures DistinctKeys(Bump(table, k, d))
  {
    if table != [] && table[0].0 != k {
      DistinctBump(table[1..], k, d);
      var rest := Bump(table[1..], k, d);
      forall j | 0 <= j < |rest|
        ensures rest[j].0 != table[0].0
      {
        HasKeyBump(table[1..], k, d, rest[j].0);
        assert HasKey(rest, rest[j].0);
      }
    }
  }

  /** A collected table has one entry per key of the list, and no others. */
  lemma {:induction false} CollectKeys<K>(items: seq<(K, int)>, k: K)
    ensures DistinctKeys(Collect(items))
    ensures HasKey(Collect(items), k) <==> HasKey(items, k)
  {
    if items != [] {
      CollectKeys(Front(items), k);
      DistinctBump(Collect(Front(items)), Last(items).0, Last(items).1);
      HasKeyBump(Collect(Front(items)), Last(items).0, Last(items).1, k);
      HasKeyFront(items, k);
    }
  }

  lemma {:induction false} HasKeyFront<K>(items: seq<(K, int)>, k: K)
    requires items != []
    ensures HasKey(items, k) <==> HasKey(Front(items), k) || Last(items).0 == k
  {
    if HasKey(items, k) && Last(items).0 != k {
      var i :| 0 <= i < |items| && items[i].0 == k;
      assert Front(items)[i].0 == k;
    }
    if HasKey(Front(items), k) {
      var i :| 0 <= i < |Front(items)| && Front(items)[i].0 == k;
      assert items[i].0 == k;
    }
  }

  lemma {:induction false} QuantityAppend<K>(xs: seq<(K, int)>, ys: seq<(K, int)>, k: K)
    ensures Quantity(xs + ys, k) == Quantity(xs, k) + Quantity(ys, k)
  {
    if ys == [] {
      assert xs + ys == xs;
    } else {
      assert Front(xs + ys) == xs + Front(ys);
      QuantityAppend(xs, Front(ys), k);
    }
  }

  /** A list without repeated keys answers each key with its one entry. */
  lemma {:induction false} QuantityOfDistinct<K>(items: seq<(K, int)>, i: nat)
    requires DistinctKeys(items) && i < |items|
    ensures Quantity(items, items[i].0) == items[i].1
  {
    if i < |items| - 1 {
      assert Front(items)[i] == items[i];
      QuantityOfDistinct(Front(items), i);
    } else {
      QuantityWithoutKey(Front(items), items[i].0);
    }
  }

  lemma {:induction false} QuantityWithoutKey<K>(items: seq<(K, int)>, k: K)
    requires forall i :: 0 <= i < |items| ==> items[i].0 != k
    ensures Quantity(items, k) == 0
  {
    if items != [] {
      QuantityWithoutKey(Front(items), k);
    }
  }

  /** With positive entries a key is present exactly when its total is positive. */
  lemma {:induction false} QuantityPositive<K>(items: seq<(K, int)>, k: K)
    requires AllPositive(items)
    ensures Quantity(items, k) >= 0
    ensures Quantity(items, k) > 0 <==> HasKey(items, k)
    ensures forall i :: 0 <= i < |items| && items[i].0 == k ==> items[i].1 <= Quantity(items, k)
  {
    if items != [] {
      QuantityPositive(Front(items), k);
      HasKeyFront(items, k);
      forall i | 0 <= i < |items| && items[i].0 == k
        ensures items[i].1 <= Quantity(items, k)
      {
        if i < |items| - 1 {
          assert Front(items)[i] == items[i];
        }
      }
    }
  }

  /** A table without repeated keys may be read by `Lookup` or by `Quantity`. */
  lemma {:induction false} LookupIsQuantity<K>(table: seq<(K, int)>, k: K)
    requires DistinctKeys(table)
    ensures Lookup(table, k) == Quantity(table, k)
  {
    if HasKey(table, k) {
      var i :| 0 <= i < |table| && table[i].0 == k;
      QuantityOfDistinct(table, i);
      LookupAt(table, i);
    } else {
      QuantityWithoutKey(table, k);
      LookupAbsent(table, k);
    }
  }

  lemma {:induction false} LookupAt<K>(table: seq<(K, int)>, i: nat)
    requires DistinctKeys(table) && i < |table|
    ensures Lookup(table, table[i].0) == table[i].1
  {
    if i > 0 {
      LookupAt(table[1..], i - 1);
    }
  }

  lemma {:induction false} LookupAbsent<K>(table: seq<(K, int)>, k: K)
    requires forall i :: 0 <= i < |table| ==> table[i].0 != k
    ensures Lookup(table, k) == 0
  {
    if table != [] {
      LookupAbsent(table[1..], k);
    }
  }

  lemma {:induction false} CollectPositive<K>(items: seq<(K, int)>)
    requires AllPositive(items)
    ensures AllPositive(Collect(items))
  {
    var table := Collect(items);
    forall i | 0 <= i < |table|
      ensures table[i].1 > 0
    {
      var k := table[i].0;
      CollectKeys(items, k);
      LookupAt(table, i);
      LookupCollect(items, k);
      assert HasKey(table, k);
      QuantityPositive(items, k);
    }
  }

  /** A collected table carries the same totals as the list it was collected from. */
  lemma {:induction false} QuantityCollect<K>(items: seq<(K, int)>, k: K)
    ensures Quantity(Collect(items), k) == Quantity(items, k)
  {
    CollectKeys(items, k);
    LookupIsQuantity(Collect(items), k);
    LookupCollect(items, k);
  }
}
