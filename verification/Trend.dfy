/**
  The stock trend: daily figures computed backwards from the current balances, compared with
  adding the ledger up forwards.
 */
module Trend {
  import opened Base
  import opened Tally
  import opened StockLedger

  /** One figure of the chart: which inventory-and-product cells it adds up. */
  type Figure = BalanceKey -> bool

  /** Water and containers on our side, containers at clients. */
  datatype Figures = Figures(water: Figure, containers: Figure, atClients: Figure)

  datatype Amounts = Amounts(day: int, water: int, containers: int, atClients: int)

  function Day(r: StockRow): int {
    r.at / MICROS_PER_DAY
  }

  /** What one row changes in a figure: incoming less outgoing. */
  function Net(r: StockRow, f: Figure): int {
    (if f((r.to, r.product)) then r.quantity else 0) - (if f((r.from, r.product)) then r.quantity else 0)
  }

  /** The reference: the ledger added up through the end of a day. */
  function NetThrough(ledger: seq<StockRow>, day: int, f: Figure): int {
    if ledger == [] then 0
    else NetThrough(Front(ledger), day, f) + (if Day(Last(ledger)) <= day then Net(Last(ledger), f) else 0)
  }

  function NetOn(ledger: seq<StockRow>, day: int, f: Figure): int {
    if ledger == [] then 0
    else NetOn(Front(ledger), day, f) + (if Day(Last(ledger)) == day then Net(Last(ledger), f) else 0)
  }

  /** What happened after a day. */
  function NetAfter(ledger: seq<StockRow>, day: int, f: Figure): int {
    if ledger == [] then 0
    else NetAfter(Front(ledger), day, f) + (if Day(Last(ledger)) > day then Net(Last(ledger), f) else 0)
  }

  predicate Moved(ledger: seq<StockRow>, day: int) {
    exists n :: 0 <= n < |ledger| && Day(ledger[n]) == day
  }

  /** The query's rows: net changes per day of the window, for the days that have any row. */
  function DayNets(ledger: seq<StockRow>, first: int, last: int, fs: Figures): seq<Amounts>
    decreases last - first
  {
    if last < first then []
    else if !Moved(ledger, last) then DayNets(ledger, first, last - 1, fs)
    else
      DayNets(ledger, first, last - 1, fs) +
      [Amounts(last, NetOn(ledger, last, fs.water), NetOn(ledger, last, fs.containers), NetOn(ledger, last, fs.atClients))]
  }

  function Waters(nets: seq<Amounts>): seq<int> {
    seq(|nets|, i requires 0 <= i < |nets| => nets[i].water)
  }

  function Containers(nets: seq<Amounts>): seq<int> {
    seq(|nets|, i requires 0 <= i < |nets| => nets[i].containers)
  }

  function AtClients(nets: seq<Amounts>): seq<int> {
    seq(|nets|, i requires 0 <= i < |nets| => nets[i].atClients)
  }

  function Reversed<T>(s: seq<T>): seq<T> {
    seq(|s|, i requires 0 <= i < |s| => s[|s| - 1 - i])
  }

  lemma {:induction false} SumFrom(xs: seq<int>, i: nat)
    requires i < |xs|
    ensures Sum(xs[i..]) == xs[i] + Sum(xs[i + 1..])
  {
    assert xs[i..] == [xs[i]] + xs[i + 1..];
    SumAppend([xs[i]], xs[i + 1..]);
    assert Front([xs[i]]) == [];
  }

  /** The changes from day `i` of the window on. */
  function From(nets: seq<Amounts>, i: nat): Amounts
    requires i <= |nets|
  {
    Amounts(0, Sum(Waters(nets)[i..]), Sum(Containers(nets)[i..]), Sum(AtClients(nets)[i..]))
  }

  lemma {:induction false} OneDayEarlier(nets: seq<Amounts>, i: nat)
    requires i < |nets|
    ensures From(nets, i).water == nets[i].water + From(nets, i + 1).water
    ensures From(nets, i).containers == nets[i].containers + From(nets, i + 1).containers
    ensures From(nets, i).atClients == nets[i].atClients + From(nets, i + 1).atClients
  {
    SumFrom(Waters(nets), i);
    SumFrom(Containers(nets), i);
    SumFrom(AtClients(nets), i);
  }

  /** The value shown for day `i`: the current one less everything later in the window. */
  function PointAt(current: Amounts, nets: seq<Amounts>, i: nat): Amounts
    requires i < |nets|
  {
    var later := From(nets, i + 1);
    Amounts(nets[i].day, current.water - later.water, current.containers - later.containers,
            current.atClients - later.atClients)
  }

  /** The accumulation loop of get_inventory_trends: last day first, then reversed. */
  method InventoryTrend(current: Amounts, nets: seq<Amounts>) returns (points: seq<Amounts>)
    ensures |points| == |nets|
    ensures forall i :: 0 <= i < |nets| ==> points[i] == PointAt(current, nets, i)
  {
    points := [];
    var water, containers, atClients := 0, 0, 0;
    var i := |nets|;
    while i > 0
      invariant 0 <= i <= |nets| && |points| == |nets| - i
      invariant Amounts(0, water, containers, atClients) == From(nets, i)
      invariant forall k :: 0 <= k < |points| ==> points[k] == PointAt(current, nets, |nets| - 1 - k)
    {
      i := i - 1;
      OneDayEarlier(nets, i);
      points := points + [Amounts(nets[i].day, current.water - water, current.containers - containers,
                                  current.atClients - atClients)];
      water := water + nets[i].water;
      containers := containers + nets[i].containers;
      atClients := atClients + nets[i].atClients;
    }
    points := Reversed(points);
  }

  // ---- Backward equals forward ----

  lemma {:induction false} NothingMoved(ledger: seq<StockRow>, day: int, f: Figure)
    requires !Moved(ledger, day)
    ensures NetOn(ledger, day, f) == 0
  {
    if ledger != [] {
      assert Day(Last(ledger)) != day;
      assert forall n :: 0 <= n < |Front(ledger)| ==> Front(ledger)[n] == ledger[n];
      NothingMoved(Front(ledger), day, f);
    }
  }

  lemma {:induction false} ThroughSplits(ledger: seq<StockRow>, day: int, f: Figure)
    ensures NetThrough(ledger, day, f) == NetThrough(ledger, day - 1, f) + NetOn(ledger, day, f)
    ensures SumWhere(Materialise(ledger), f) == NetThrough(ledger, day, f) + NetAfter(ledger, day, f)
  {
    if ledger != [] {
      ThroughSplits(Front(ledger), day, f);
      var b, r := Materialise(Front(ledger)), Last(ledger);
      SumWhereBump(b, (r.from, r.product), -r.quantity, f);
      SumWhereBump(Bump(b, (r.from, r.product), -r.quantity), (r.to, r.product), r.quantity, f);
    }
  }

  /** The later changes of the window, for all three figures at once. */
  lemma {:induction false} LaterNets(ledger: seq<StockRow>, first: int, last: int, fs: Figures, i: nat)
    requires i < |DayNets(ledger, first, last, fs)|
    ensures var nets := DayNets(ledger, first, last, fs);
            && first <= nets[i].day <= last && Moved(ledger, nets[i].day)
            && From(nets, i + 1).water == NetThrough(ledger, last, fs.water) - NetThrough(ledger, nets[i].day, fs.water)
            && From(nets, i + 1).containers ==
               NetThrough(ledger, last, fs.containers) - NetThrough(ledger, nets[i].day, fs.containers)
            && From(nets, i + 1).atClients ==
               NetThrough(ledger, last, fs.atClients) - NetThrough(ledger, nets[i].day, fs.atClients)
    decreases last - first
  {
    var nets, before := DayNets(ledger, first, last, fs), DayNets(ledger, first, last - 1, fs);
    ThroughSplits(ledger, last, fs.water);
    ThroughSplits(ledger, last, fs.containers);
    ThroughSplits(ledger, last, fs.atClients);
    if i < |before| {
      LaterNets(ledger, first, last - 1, fs, i);
      if Moved(ledger, last) {
        var w, c, cl := Waters(nets)[i + 1..], Containers(nets)[i + 1..], AtClients(nets)[i + 1..];
        assert Front(w) == Waters(before)[i + 1..];
        assert Front(c) == Containers(before)[i + 1..];
        assert Front(cl) == AtClients(before)[i + 1..];
      } else {
        assert nets == before;
        NothingMoved(ledger, last, fs.water);
        NothingMoved(ledger, last, fs.containers);
        NothingMoved(ledger, last, fs.atClients);
      }
    }
  }

  predicate Ascending(points: seq<Amounts>) {
    forall i, j :: 0 <= i < j < |points| ==> points[i].day < points[j].day
  }

  /** The days shown are the days of the window with any movement, in order. */
  lemma {:induction false} DaysShown(ledger: seq<StockRow>, first: int, last: int, fs: Figures)
    ensures Ascending(DayNets(ledger, first, last, fs))
    ensures forall day :: Shown(DayNets(ledger, first, last, fs), day) <==> first <= day <= last && Moved(ledger, day)
    decreases last - first
  {
    if first <= last {
      DaysShown(ledger, first, last - 1, fs);
      var nets, before := DayNets(ledger, first, last, fs), DayNets(ledger, first, last - 1, fs);
      if Moved(ledger, last) {
        OneMoreDay(before, Last(nets));
        assert nets == before + [Last(nets)];
        forall day
          ensures Shown(nets, day) <==> Shown(before, day) || day == last
        {
          ShownStep(before, Last(nets), day);
        }
      }
    }
  }

  lemma {:induction false} ShownStep(points: seq<Amounts>, next: Amounts, day: int)
    ensures Shown(points + [next], day) <==> Shown(points, day) || day == next.day
  {
    var more := points + [next];
    assert more[|points|] == next;
    if Shown(points, day) {
      var i :| 0 <= i < |points| && points[i].day == day;
      assert more[i].day == day;
    }
  }

  lemma {:induction false} OneMoreDay(points: seq<Amounts>, next: Amounts)
    requires Ascending(points) && forall day :: Shown(points, day) ==> day < next.day
    ensures Ascending(points + [next])
  {
    forall i | 0 <= i < |points|
      ensures points[i].day < next.day
    {
      assert Shown(points, points[i].day);
    }
  }

  predicate Shown(points: seq<Amounts>, day: int) {
    exists i :: 0 <= i < |points| && points[i].day == day
  }

  /** The current figures, read from the materialised balances. */
  function Current(s: Stock, fs: Figures): Amounts {
    Amounts(0, SumWhere(s.balances, fs.water), SumWhere(s.balances, fs.containers), SumWhere(s.balances, fs.atClients))
  }

  /**
    Each shown figure is the forward sum through the end of its day exactly when the movements
    after the window cancel out - in particular when there are none.
   */
  lemma {:induction false} TrendIsForwardSum(s: Stock, first: int, last: int, fs: Figures, i: nat)
    requires StockOk(s) && i < |DayNets(s.ledger, first, last, fs)|
    ensures var nets := DayNets(s.ledger, first, last, fs);
            var point := PointAt(Current(s, fs), nets, i);
            && point.day == nets[i].day && Moved(s.ledger, point.day)
            && (point.water == NetThrough(s.ledger, point.day, fs.water) <==> NetAfter(s.ledger, last, fs.water) == 0)
            && (point.containers == NetThrough(s.ledger, point.day, fs.containers) <==> NetAfter(s.ledger, last, fs.containers) == 0)
            && (point.atClients == NetThrough(s.ledger, point.day, fs.atClients) <==> NetAfter(s.ledger, last, fs.atClients) == 0)
  {
    LaterNets(s.ledger, first, last, fs, i);
    PointIsForwardSum(s, first, last, fs, i);
  }

  /** What the chart shows: the forward sum of its day, off by exactly what moved after the window. */
  lemma {:induction false} PointIsForwardSum(s: Stock, first: int, last: int, fs: Figures, i: nat)
    requires StockOk(s) && i < |DayNets(s.ledger, first, last, fs)|
    ensures var point := PointAt(Current(s, fs), DayNets(s.ledger, first, last, fs), i);
            && point.water == NetThrough(s.ledger, point.day, fs.water) + NetAfter(s.ledger, last, fs.water)
            && point.containers == NetThrough(s.ledger, point.day, fs.containers) + NetAfter(s.ledger, last, fs.containers)
            && point.atClients == NetThrough(s.ledger, point.day, fs.atClients) + NetAfter(s.ledger, last, fs.atClients)
  {
    LaterNets(s.ledger, first, last, fs, i);
    ThroughSplits(s.ledger, last, fs.water);
    ThroughSplits(s.ledger, last, fs.containers);
    ThroughSplits(s.ledger, last, fs.atClients);
  }

  /** No row after the window is enough. */
  lemma {:induction false} QuietAfterwards(ledger: seq<StockRow>, last: int, f: Figure)
    requires forall n :: 0 <= n < |ledger| ==> Day(ledger[n]) <= last
    ensures NetAfter(ledger, last, f) == 0
  {
    if ledger != [] {
      QuietAfterwards(Front(ledger), last, f);
    }
  }
}
