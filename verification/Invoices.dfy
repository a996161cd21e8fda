/** Billing: adjacent periods tile, and invoice numbers and periods are unique per contract. */
module Invoices {
  import opened Base
  import opened Database
  import opened Digits
  import opened ContractSteps

  /** Adjacent day ranges split the completed orders: nothing counted twice, nothing lost. */
  lemma {:induction false} PeriodsTile(orders: seq<Order>, c: ContractId, first: int, middle: int, last: int)
    requires first <= middle + 1 && middle <= last
    ensures Billed(orders, c, first, last) == Billed(orders, c, first, middle) + Billed(orders, c, middle + 1, last)
  {
    if orders != [] {
      PeriodsTile(Front(orders), c, first, middle, last);
    }
  }

  // ---- Numbers ----

  /** A number ends with a dash and the padded sequence. */
  ghost predicate EndsWith(number: string, sequence: nat) {
    exists head: string :: number == head + "-" + Padded(sequence, 3)
  }

  /** Only digits follow the last dash. */
  lemma {:induction false} DashPlace(number: string, head: string, digits: string)
    requires number == head + "-" + digits && AllDigits(digits)
    ensures |head| < |number| && number[|head|] == '-' && number[|head| + 1..] == digits
    ensures forall i :: |head| < i < |number| ==> IsDigit(number[i])
  {
    assert forall i :: |head| < i < |number| ==> number[i] == digits[i - |head| - 1];
  }

  /** The sequence can be read back from the number, whatever precedes it. */
  lemma {:induction false} SequenceIsUnique(number: string, a: nat, b: nat)
    requires EndsWith(number, a) && EndsWith(number, b)
    ensures a == b
  {
    var x: string :| number == x + "-" + Padded(a, 3);
    var y: string :| number == y + "-" + Padded(b, 3);
    PaddedValue(a, 3);
    PaddedValue(b, 3);
    DashPlace(number, x, Padded(a, 3));
    DashPlace(number, y, Padded(b, 3));
    assert |x| == |y|;
    assert Padded(a, 3) == Padded(b, 3);
  }

  lemma {:induction false} SequencesApart(number: string, a: nat, b: nat)
    requires EndsWith(number, a) && a != b
    ensures !EndsWith(number, b)
  {
    if EndsWith(number, b) {
      SequenceIsUnique(number, a, b);
    }
  }

  /** The n-th invoice carries sequence n, and no period is billed twice unless annulled. */
  ghost predicate InvoicesOk(invoices: seq<Invoice>) {
    && (forall n :: 0 <= n < |invoices| ==> EndsWith(invoices[n].number, n + 1))
    && (forall n, k :: 0 <= n < k < |invoices| && invoices[n].status != Annulled && invoices[k].status != Annulled ==>
          invoices[n].periodFrom != invoices[k].periodFrom || invoices[n].periodTo != invoices[k].periodTo)
  }

  /** No two invoices of a contract share a number. */
  lemma {:induction false} NumbersDiffer(invoices: seq<Invoice>, n: nat, k: nat)
    requires InvoicesOk(invoices) && n < k < |invoices|
    ensures invoices[n].number != invoices[k].number
  {
    if invoices[n].number == invoices[k].number {
      SequenceIsUnique(invoices[n].number, n + 1, k + 1);
    }
  }

  lemma {:induction false} NextNumber(contract: string, year: nat, month: nat, sequence: nat)
    ensures EndsWith(InvoiceNumber(contract, year, month, sequence), sequence)
  {
    var head := contract + "/" + Decimal(year) + "-" + Padded(month, 2);
    assert InvoiceNumber(contract, year, month, sequence) == head + "-" + Padded(sequence, 3);
  }

  /** The next number in sequence is not in use. */
  lemma {:induction false} NumberIsFree(invoices: seq<Invoice>, number: string)
    requires InvoicesOk(invoices) && EndsWith(number, |invoices| + 1)
    ensures forall n :: 0 <= n < |invoices| ==> invoices[n].number != number
  {
    forall n | 0 <= n < |invoices|
      ensures invoices[n].number != number
    {
      SequencesApart(invoices[n].number, n + 1, |invoices| + 1);
    }
  }

  lemma {:induction false} AppendKeepsInvoices(invoices: seq<Invoice>, next: Invoice)
    requires InvoicesOk(invoices) && EndsWith(next.number, |invoices| + 1)
    requires !PeriodTaken(invoices, next.periodFrom, next.periodTo)
    ensures InvoicesOk(invoices + [next])
  {
  }

  /**
    Generating an invoice keeps numbers and periods unique; the database's unique-number check
    is never what stops it.
   */
  lemma {:induction false} GenerateKeepsInvoices(db: Db, c: ContractId, first: int, last: int, year: nat, month: nat)
    requires c < |db.contracts| && InvoicesOk(db.contracts[c].invoices)
    ensures var k := db.contracts[c];
            var out := GenerateInvoice(db, c, first, last, year, month);
            && (out.Success? <==>
                  !PeriodTaken(k.invoices, first, last) && first < last && Billed(db.orders, c, first, last) >= 0)
            && (out.Success? ==>
                  && InvoicesOk(out.value.contracts[c].invoices)
                  && Last(out.value.contracts[c].invoices).amount == Billed(db.orders, c, first, last))
  {
    var invoices := db.contracts[c].invoices;
    var number := InvoiceNumber(db.contracts[c].number, year, month, |invoices| + 1);
    NextNumber(db.contracts[c].number, year, month, |invoices| + 1);
    NumberIsFree(invoices, number);
    var out := GenerateInvoice(db, c, first, last, year, month);
    if out.Success? {
      AppendKeepsInvoices(invoices, Last(out.value.contracts[c].invoices));
    }
  }

  lemma {:induction false} MoveKeepsInvoices(db: Db, c: ContractId, n: nat, target: InvoiceStatus)
    requires MoveInvoice(db, c, n, target).Success? && InvoicesOk(db.contracts[c].invoices)
    ensures InvoicesOk(MoveInvoice(db, c, n, target).value.contracts[c].invoices)
  {
    var invoices, invoices' := db.contracts[c].invoices, MoveInvoice(db, c, n, target).value.contracts[c].invoices;
    forall i | 0 <= i < |invoices'|
      ensures EndsWith(invoices'[i].number, i + 1)
    {
      assert invoices'[i].number == invoices[i].number;
    }
  }
}
