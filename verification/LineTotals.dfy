/** How edits of an order's lines change the quantities and the value they add up to. */
module LineTotals {
  import opened Base
  import opened Tally
  import opened Quotas
  import opened Database
  import opened OrderSteps

  function Held(lines: seq<Line>, p: ProductId): int {
    Quantity(Quantities(lines), p)
  }

  lemma {:induction false} HeldFront(lines: seq<Line>, p: ProductId)
    requires lines != []
    ensures Held(lines, p) == Held(Front(lines), p) + (if Last(lines).product == p then Last(lines).quantity else 0)
  {
    assert Front(Quantities(lines)) == Quantities(Front(lines));
  }

  lemma {:induction false} HeldAppend(lines: seq<Line>, more: seq<Line>, p: ProductId)
    ensures Held(lines + more, p) == Held(lines, p) + Held(more, p)
    ensures LinesValue(lines + more) == LinesValue(lines) + LinesValue(more)
  {
    if more == [] {
      assert lines + more == lines;
    } else {
      HeldAppend(lines, Front(more), p);
      assert Front(lines + more) == lines + Front(more);
      HeldFront(lines + more, p);
      HeldFront(more, p);
    }
  }

  lemma {:induction false} HeldSingle(line: Line, p: ProductId)
    ensures Held([line], p) == if line.product == p then line.quantity else 0
    ensures LinesValue([line]) == line.unitPrice * line.quantity
  {
    HeldFront([line], p);
    assert Front([line]) == [];
    assert Quantities([]) == [];
  }

  lemma {:induction false} HeldSplit(lines: seq<Line>, i: nat, p: ProductId)
    requires i < |lines|
    ensures Held(lines, p) == Held(lines[..i], p) + Held([lines[i]], p) + Held(lines[i + 1..], p)
    ensures LinesValue(lines) == LinesValue(lines[..i]) + LinesValue([lines[i]]) + LinesValue(lines[i + 1..])
  {
    assert lines == lines[..i] + [lines[i]] + lines[i + 1..];
    HeldAppend(lines[..i] + [lines[i]], lines[i + 1..], p);
    HeldAppend(lines[..i], [lines[i]], p);
  }

  lemma {:induction false} HeldNonNegative(lines: seq<Line>, p: ProductId)
    requires LinesAllowed(lines)
    ensures Held(lines, p) >= 0 && LinesValue(lines) >= 0
    ensures AllPositive(Quantities(lines))
  {
    if lines != [] {
      HeldNonNegative(Front(lines), p);
      HeldFront(lines, p);
      assert Last(lines).unitPrice * Last(lines).quantity >= 0;
    }
  }

  /** Adding to the lines adds the quantity, and charges the line's own price. */
  lemma {:induction false} HeldAfterAdd(lines: seq<Line>, p: ProductId, quantity: int, price: int, x: ProductId)
    ensures Held(AddToLines(lines, p, quantity, price), x) == Held(lines, x) + (if x == p then quantity else 0)
    ensures LinesValue(AddToLines(lines, p, quantity, price)) ==
            LinesValue(lines) + quantity * (if FindLine(lines, p).Some? then lines[FindLine(lines, p).value].unitPrice else price)
  {
    var found := FindLine(lines, p);
    if found.Some? {
      var i := found.value;
      var line := lines[i].(quantity := lines[i].quantity + quantity);
      var lines' := lines[i := line];
      HeldSplit(lines, i, x);
      HeldSplit(lines', i, x);
      assert lines'[..i] == lines[..i] && lines'[i + 1..] == lines[i + 1..];
      HeldSingle(lines[i], x);
      HeldSingle(line, x);
      assert line.unitPrice * line.quantity == lines[i].unitPrice * lines[i].quantity + quantity * lines[i].unitPrice;
    } else {
      HeldAppend(lines, [Line(p, quantity, price)], x);
      HeldSingle(Line(p, quantity, price), x);
    }
  }

  lemma {:induction false} HeldAfterRemove(lines: seq<Line>, i: nat, x: ProductId)
    requires i < |lines|
    ensures Held(lines[..i] + lines[i + 1..], x) ==
            Held(lines, x) - (if x == lines[i].product then lines[i].quantity else 0)
    ensures LinesValue(lines[..i] + lines[i + 1..]) == LinesValue(lines) - lines[i].unitPrice * lines[i].quantity
  {
    HeldSplit(lines, i, x);
    HeldSingle(lines[i], x);
    HeldAppend(lines[..i], lines[i + 1..], x);
  }

  /** A partial delivery keeps the products and never raises a quantity. */
  lemma {:induction false} DeliveredShape(lines: seq<Line>, actual: Cart)
    requires LinesAllowed(lines) && DeliveredLines(lines, actual).Success?
    ensures var delivered := DeliveredLines(lines, actual).value;
            && |delivered| == |lines|
            && LinesAllowed(delivered)
            && (forall i :: 0 <= i < |lines| ==>
                  delivered[i].product == lines[i].product && delivered[i].quantity <= lines[i].quantity)
  {
    if lines != [] {
      DeliveredShape(Front(lines), actual);
    }
  }

  /** The undelivered quantities are the exact difference of the lines. */
  lemma {:induction false} UndeliveredTotals(lines: seq<Line>, delivered: seq<Line>, x: ProductId)
    requires |delivered| == |lines|
    requires forall i :: 0 <= i < |lines| ==>
      delivered[i].product == lines[i].product && delivered[i].quantity <= lines[i].quantity
    ensures Quantity(Undelivered(lines, delivered), x) == Held(lines, x) - Held(delivered, x)
    ensures AllPositive(Undelivered(lines, delivered))
  {
    if lines != [] {
      UndeliveredTotals(Front(lines), Front(delivered), x);
      HeldFront(lines, x);
      HeldFront(delivered, x);
      var rest := Undelivered(Front(lines), Front(delivered));
      var diff := Last(lines).quantity - Last(delivered).quantity;
      if diff > 0 {
        assert Front(rest + [(Last(lines).product, diff)]) == rest;
      } else {
        assert rest + [] == rest;
      }
    }
  }

  lemma {:induction false} LinesOfCart(catalog: Catalog, terms: Option<PriceList>, cart: Cart)
    requires Priced(catalog, terms, cart)
    ensures Quantities(LinesOf(catalog, terms, cart)) == cart
  {
  }
}
