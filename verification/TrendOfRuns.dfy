/** The stock trend of the running back office. */
module TrendOfRuns {
  import opened StockLedger
  import opened System
  import opened RunInvariant
  import opened Trend

  /** Every shown figure is the forward sum of its day plus what moved after the window. */
  ghost predicate ForwardSums(ledger: seq<StockRow>, last: int, fs: Figures, points: seq<Amounts>) {
    forall i :: 0 <= i < |points| ==>
      && points[i].water == NetThrough(ledger, points[i].day, fs.water) + NetAfter(ledger, last, fs.water)
      && points[i].containers == NetThrough(ledger, points[i].day, fs.containers) + NetAfter(ledger, last, fs.containers)
      && points[i].atClients == NetThrough(ledger, points[i].day, fs.atClients) + NetAfter(ledger, last, fs.atClients)
  }

  /** One point per day of the window with any movement, in order. */
  ghost predicate DaysInOrder(ledger: seq<StockRow>, first: int, last: int, points: seq<Amounts>) {
    && Ascending(points)
    && (forall day :: Shown(points, day) <==> first <= day <= last && Moved(ledger, day))
  }

  /**
    get_inventory_trends on any reachable database: one point per day with movement, each the
    forward ledger sum through that day up to what moved after the window.
   */
  method TrendOfRun(cmds: seq<Command>, first: int, last: int, fs: Figures) returns (points: seq<Amounts>)
    ensures ForwardSums(Run(EMPTY, cmds).stock.ledger, last, fs, points)
    ensures DaysInOrder(Run(EMPTY, cmds).stock.ledger, first, last, points)
  {
    var s := Run(EMPTY, cmds).stock;
    assert StockOk(s) by {
      StartsInOrder();
      RunKeepsInv(EMPTY, cmds);
    }
    points := InventoryTrend(Current(s, fs), DayNets(s.ledger, first, last, fs));
    PointsAreForwardSums(s, first, last, fs, points);
  }

  lemma {:induction false} PointsAreForwardSums(s: Stock, first: int, last: int, fs: Figures, points: seq<Amounts>)
    requires StockOk(s) && |points| == |DayNets(s.ledger, first, last, fs)|
    requires forall i :: 0 <= i < |points| ==> points[i] == PointAt(Current(s, fs), DayNets(s.ledger, first, last, fs), i)
    ensures ForwardSums(s.ledger, last, fs, points) && DaysInOrder(s.ledger, first, last, points)
  {
    var nets := DayNets(s.ledger, first, last, fs);
    assert forall i :: 0 <= i < |points| ==> points[i].day == nets[i].day;
    DaysShown(s.ledger, first, last, fs);
    forall i | 0 <= i < |points|
      ensures points[i].water == NetThrough(s.ledger, points[i].day, fs.water) + NetAfter(s.ledger, last, fs.water)
      ensures points[i].containers == NetThrough(s.ledger, points[i].day, fs.containers) + NetAfter(s.ledger, last, fs.containers)
      ensures points[i].atClients == NetThrough(s.ledger, points[i].day, fs.atClients) + NetAfter(s.ledger, last, fs.atClients)
    {
      PointIsForwardSum(s, first, last, fs, i);
    }
    forall day
      ensures Shown(points, day) <==> first <= day <= last && Moved(s.ledger, day)
    {
      SameDays(points, nets, day);
    }
  }

  lemma {:induction false} SameDays(points: seq<Amounts>, nets: seq<Amounts>, day: int)
    requires |points| == |nets| && forall i :: 0 <= i < |points| ==> points[i].day == nets[i].day
    ensures Shown(points, day) <==> Shown(nets, day)
  {
    if Shown(points, day) {
      var i :| 0 <= i < |points| && points[i].day == day;
      assert nets[i].day == day;
    }
  }
}
