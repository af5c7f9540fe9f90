/**
 The payment ledger of `addPayment`: tax-inclusive total, the capped payment
 plus "Reliquat" entry on overpayment, and the derived financial status.
 */
module Ledger {
  import opened Wrappers
  import opened Documents

  /** `Math.round(n / 100)` on an integer `n`: the nearest integer, halves rounded up. */
  function RoundDiv100(n: int): (r: int)
    ensures 100 * r - 50 <= n < 100 * r + 50
  {
    (n + 50) / 100
  }

  /** The tax on a document: `Math.round(totalHT * tva / 100)`. */
  function TvaAmount(d: Document): int {
    RoundDiv100(TotalHT(d.items) * d.tva)
  }

  /**
   The amount due (TTC): the taxable base plus the rounded tax, that is
   `totalHT * (1 + tva / 100)` to within half a unit.
   */
  function TotalTTC(d: Document): (r: int)
    ensures 100 * r - 50 <= TotalHT(d.items) * (100 + d.tva) < 100 * r + 50
  {
    var ht := TotalHT(d.items);
    assert ht * (100 + d.tva) == 100 * ht + ht * d.tva;
    ht + TvaAmount(d)
  }

  /**
   `payments.reduce((sum, p) => sum + p.amount, 0)`: 0 for no entry, the
   entry's amount for one, and never negative when no entry is.
   */
  function AmountPaid(payments: seq<Payment>): (r: int)
    ensures payments == [] ==> r == 0
    ensures |payments| == 1 ==> r == payments[0].amount
    ensures (forall i | 0 <= i < |payments| :: payments[i].amount >= 0) ==> r >= 0
  {
    if payments == [] then 0
    else
      var init := payments[..|payments| - 1];
      assert forall i | 0 <= i < |init| :: init[i] == payments[i];
      AmountPaid(init) + payments[|payments| - 1].amount
  }

  /** The note of the surplus entry: `Reliquat - ${note || 'Paiement'}`. */
  function ReliquatNote(note: Option<string>): string {
    "Reliquat - " + (if note.Some? && note.value != "" then note.value else "Paiement")
  }

  /** Appending one entry adds its amount to the total paid. */
  lemma PaidAppend(payments: seq<Payment>, p: Payment)
    ensures AmountPaid(payments + [p]) == AmountPaid(payments) + p.amount
  {
    assert (payments + [p])[..|payments|] == payments;
  }

  /**
   The `addPayment` update of one document. The payment is appended; when the
   ledger then exceeds the amount due, the new entry is cut down so that the
   entries before the surplus add up to exactly the amount due, and a
   "Reliquat" entry carrying the excess closes the ledger. The status becomes
   `paid` once the amount due is reached, `partial` while something but not
   all is paid, and is kept otherwise.
   */
  function ApplyPayment(d: Document, p: Payment): (r: Document)
    ensures r.(payments := d.payments, status := d.status) == d
    ensures |r.payments| > |d.payments| && r.payments[..|d.payments|] == d.payments
    ensures AmountPaid(r.payments) == AmountPaid(d.payments) + p.amount
    ensures var paid := AmountPaid(d.payments) + p.amount; var ttc := TotalTTC(d);
      && (paid <= ttc ==> r.payments == d.payments + [p])
      && (paid > ttc ==>
            && |r.payments| == |d.payments| + 2
            && r.payments[|d.payments|] == p.(amount := ttc - AmountPaid(d.payments))
            && r.payments[|d.payments| + 1] == Payment(p.date, paid - ttc, Some(ReliquatNote(p.note)))
            && AmountPaid(r.payments[..|d.payments| + 1]) == ttc)
    ensures var paid := AmountPaid(d.payments) + p.amount; var ttc := TotalTTC(d);
      && (paid >= ttc ==> r.status == Paid)
      && (0 < paid < ttc ==> r.status == Partial)
      && (paid <= 0 && paid < ttc ==> r.status == d.status)
  {
    var payments := d.payments + [p];
    var ttc := TotalTTC(d);
    PaidAppend(d.payments, p);
    var paid := AmountPaid(payments);
    var newPayments :=
      if paid > ttc then
        var excess := paid - ttc;
        var capped := p.(amount := p.amount - excess);
        var reliquat := Payment(p.date, excess, Some(ReliquatNote(p.note)));
        PaidAppend(d.payments, capped);
        PaidAppend(d.payments + [capped], reliquat);
        assert (d.payments + [capped] + [reliquat])[..|d.payments| + 1] == d.payments + [capped];
        d.payments + [capped] + [reliquat]
      else payments;
    var status := if paid >= ttc then Paid else if paid > 0 then Partial else d.status;
    d.(payments := newPayments, status := status)
  }

  /** `addPayment`: every document carrying `docId` takes the payment; an unknown id changes nothing. */
  function AddPayment(docs: seq<Document>, docId: string, p: Payment): (r: seq<Document>)
    ensures |r| == |docs|
    ensures forall i | 0 <= i < |docs| :: r[i] == if docs[i].id == docId then ApplyPayment(docs[i], p) else docs[i]
    ensures IdFree(docs, docId) ==> r == docs
  {
    MapMatching(docs, docId, Pay(p))
  }

  /** The rewrite `addPayment` applies to the document it pays. */
  function Pay(p: Payment): Document -> Document {
    (d: Document) => ApplyPayment(d, p)
  }

  /**
   After a payment, looking up the paid id finds the paid document, any other
   lookup is unchanged, and ids stay unique.
   */
  lemma AddPaymentLookup(docs: seq<Document>, docId: string, p: Payment, x: string)
    ensures var r := AddPayment(docs, docId, p);
      && Find(r, x) == (if x == docId && Find(docs, x).Some? then Some(ApplyPayment(Find(docs, x).value, p)) else Find(docs, x))
      && (UniqueIds(docs) ==> UniqueIds(r))
  {
    assert KeepsIds(docs, docId, Pay(p));
    FindMapMatching(docs, docId, Pay(p), x);
    if UniqueIds(docs) {
      MapMatchingKeepsUniqueIds(docs, docId, Pay(p));
    }
  }

  /**
   The reliquat entry counts towards what is paid, so once a document has been
   overpaid every further payment is recorded as a negative capped entry
   followed by a reliquat larger than the payment itself.
   */
  lemma PaymentAfterOverpayment(d: Document, p1: Payment, p2: Payment)
    requires AmountPaid(d.payments) + p1.amount > TotalTTC(d)
    requires p2.amount > 0
    ensures var d1 := ApplyPayment(d, p1); var d2 := ApplyPayment(d1, p2);
      && |d2.payments| == |d1.payments| + 2
      && d2.payments[|d1.payments|].amount < 0
      && d2.payments[|d1.payments| + 1].amount > p2.amount
  {
  }

  /** A capped entry is negative exactly when the ledger already exceeded the amount due. */
  lemma CappedEntrySign(d: Document, p: Payment)
    requires AmountPaid(d.payments) + p.amount > TotalTTC(d)
    ensures var r := ApplyPayment(d, p);
      r.payments[|d.payments|].amount < 0 <==> AmountPaid(d.payments) > TotalTTC(d)
  {
  }

  /**
   Overpayment: a base of 1000 at 18% is due 1180; with 1000 already paid, a
   payment of 300 is recorded as 180 followed by a reliquat of 120, and the
   document is paid.
   */
  lemma OverpaymentExample(d: Document, p: Payment)
    requires TotalHT(d.items) == 1000 && d.tva == 18
    requires AmountPaid(d.payments) == 1000 && p.amount == 300
    ensures var r := ApplyPayment(d, p);
      && TotalTTC(d) == 1180
      && |r.payments| == |d.payments| + 2
      && r.payments[|d.payments|].amount == 180
      && r.payments[|d.payments| + 1].amount == 120
      && r.payments[|d.payments| + 1].note == Some(ReliquatNote(p.note))
      && r.status == Paid
  {
  }

  /**
   Partial payments: with 1180 due and nothing paid, 500 makes the document
   partial, a further 680 makes it paid, and no reliquat entry appears.
   */
  lemma PartialPaymentsExample(d: Document, p1: Payment, p2: Payment)
    requires TotalHT(d.items) == 1000 && d.tva == 18 && d.payments == []
    requires p1.amount == 500 && p2.amount == 680
    ensures var d1 := ApplyPayment(d, p1); var d2 := ApplyPayment(d1, p2);
      && d1.status == Partial
      && d2.status == Paid
      && d2.payments == [p1, p2]
      && AmountPaid(d2.payments) == 1180
  {
    FirstPartialPayment(d, p1);
    PaidAppend([p1], p2);
    assert [p1] + [p2] == [p1, p2];
  }

  /** The first step of the partial-payments example: 500 of 1180 leaves the document partial. */
  lemma FirstPartialPayment(d: Document, p1: Payment)
    requires TotalHT(d.items) == 1000 && d.tva == 18 && d.payments == [] && p1.amount == 500
    ensures var d1 := ApplyPayment(d, p1);
      && d1.payments == [p1] && d1.status == Partial && TotalTTC(d1) == 1180 && AmountPaid(d1.payments) == 500
  {
    assert TotalTTC(d) == 1180;
    assert [] + [p1] == [p1];
  }
}
