/**
 The quote -> order -> delivery note -> invoice lifecycle as a whole: the
 numbering invariant the derivations keep, what the collection looks like
 after each step, and the chain `getDocumentWorkflow` reads back from it.
 */
module Lifecycle {
  import opened Wrappers
  import opened Documents
  import opened Numbering
  import opened Workflow
  import opened Traversal

  /**
   A collection the engine can keep numbering without collisions in `year`:
   ids are unique, every document carries the number its type, date and
   reference call for, and no document is dated a whole number of centuries
   away from `year`.
   */
  predicate Consistent(docs: seq<Document>, year: nat) {
    year >= 10 && UniqueIds(docs) && AllWellNumbered(docs) && NoCenturyClash(docs, year)
  }

  /** Linking a child changes neither id, type, date nor reference, so the number stays right. */
  lemma LinkKeepsNumber(d: Document, childId: string, wf: WorkflowStatus)
    requires WellNumbered(d)
    ensures WellNumbered(Link(d, childId, wf))
  {
  }

  /** A document number is never empty, so a well-numbered collection finds nothing under the empty id. */
  lemma NumberedIdSet(docs: seq<Document>, id: string)
    requires AllWellNumbered(docs) && Find(docs, id).Some?
    ensures id != ""
  {
    var k := FindFirst(docs, id);
    assert WellNumbered(docs[k]);
  }

  /** A derivation from a source dated in `year` keeps every number right. */
  lemma DeriveKeepsNumbering(docs: seq<Document>, srcId: string, required: DocType, t: DocType, wf: WorkflowStatus,
                             year: nat, error: string, order: Option<(string, Option<ContractTerms>)>)
    requires Consistent(docs, year)
    requires Derive(docs, srcId, required, t, wf, year, error, order).outcome.Success?
    requires Find(docs, srcId).value.date.year == year
    ensures AllWellNumbered(Derive(docs, srcId, required, t, wf, year, error, order).docs)
  {
    var r := Derive(docs, srcId, required, t, wf, year, error, order);
    var child := r.outcome.value;
    var src := Find(docs, srcId).value;
    var linked := Link(src, child.id, wf);
    DerivedNumberMatchesDate(docs, srcId, required, t, wf, year, error, order);
    var k := FindFirst(docs, srcId);
    LinkKeepsNumber(docs[k], child.id, wf);
    ReplaceKeepsNumbering(docs, srcId, linked);
    assert r.docs == [child] + Replace(docs, srcId, linked);
    PrependKeepsNumbering(child, Replace(docs, srcId, linked));
  }

  /** A derivation from a source dated in `year` adds no document dated in another century's `year`. */
  lemma DeriveKeepsCenturies(docs: seq<Document>, srcId: string, required: DocType, t: DocType, wf: WorkflowStatus,
                             year: nat, error: string, order: Option<(string, Option<ContractTerms>)>)
    requires NoCenturyClash(docs, year)
    requires Derive(docs, srcId, required, t, wf, year, error, order).outcome.Success?
    requires Find(docs, srcId).value.date.year == year
    ensures NoCenturyClash(Derive(docs, srcId, required, t, wf, year, error, order).docs, year)
  {
    var r := Derive(docs, srcId, required, t, wf, year, error, order);
    var src := Find(docs, srcId).value;
    var child := r.outcome.value;
    var linked := Link(src, child.id, wf);
    var rest := Replace(docs, srcId, linked);
    assert r.docs == [child] + rest;
    ReplaceInYearKeepsCenturies(docs, srcId, linked, year);
    PrependInYearKeepsCenturies(child, rest, year);
  }

  /** Replacing documents by one dated in `year` adds no century clash. */
  lemma ReplaceInYearKeepsCenturies(docs: seq<Document>, id: string, v: Document, year: nat)
    requires NoCenturyClash(docs, year) && v.date.year == year
    ensures NoCenturyClash(Replace(docs, id, v), year)
  {
  }

  /** Putting a document dated in `year` in front adds no century clash. */
  lemma PrependInYearKeepsCenturies(d: Document, docs: seq<Document>, year: nat)
    requires NoCenturyClash(docs, year) && d.date.year == year
    ensures NoCenturyClash([d] + docs, year)
  {
    var r := [d] + docs;
    forall i | 0 <= i < |r|
      ensures r[i].date.year % 100 == year % 100 ==> r[i].date.year == year
    {
      if i > 0 {
        assert r[i] == docs[i - 1];
      }
    }
  }

  /** A derivation from a source dated in `year` keeps the collection consistent for `year`. */
  lemma DeriveKeepsConsistent(docs: seq<Document>, srcId: string, required: DocType, t: DocType, wf: WorkflowStatus,
                              year: nat, error: string, order: Option<(string, Option<ContractTerms>)>)
    requires Consistent(docs, year)
    requires Derive(docs, srcId, required, t, wf, year, error, order).outcome.Success?
    requires Find(docs, srcId).value.date.year == year
    ensures Consistent(Derive(docs, srcId, required, t, wf, year, error, order).docs, year)
  {
    DeriveIssuesFreshNumber(docs, srcId, required, t, wf, year, error, order);
    DeriveKeepsNumbering(docs, srcId, required, t, wf, year, error, order);
    DeriveKeepsCenturies(docs, srcId, required, t, wf, year, error, order);
  }

  /**
   After a derivation whose child got a fresh id, looking up the child finds
   it, looking up the source finds the linked source, and every other lookup
   is unchanged.
   */
  lemma DeriveFinds(docs: seq<Document>, srcId: string, required: DocType, t: DocType, wf: WorkflowStatus,
                    year: nat, error: string, order: Option<(string, Option<ContractTerms>)>)
    requires Derive(docs, srcId, required, t, wf, year, error, order).outcome.Success?
    requires IdFree(docs, Derive(docs, srcId, required, t, wf, year, error, order).outcome.value.id)
    ensures var r := Derive(docs, srcId, required, t, wf, year, error, order);
      var child := r.outcome.value;
      && Find(r.docs, child.id) == Some(child)
      && Find(r.docs, srcId) == Some(Link(Find(docs, srcId).value, child.id, wf))
      && forall x | x != child.id && x != srcId :: Find(r.docs, x) == Find(docs, x)
  {
    var r := Derive(docs, srcId, required, t, wf, year, error, order);
    var child := r.outcome.value;
    var linked := Link(Find(docs, srcId).value, child.id, wf);
    var rest := Replace(docs, srcId, linked);
    assert r.docs == [child] + rest;
    assert srcId != child.id;
    FindReplace(docs, srcId, linked, srcId);
    forall x | x != child.id && x != srcId
      ensures Find(r.docs, x) == Find(docs, x)
    {
      FindReplace(docs, srcId, linked, x);
    }
  }

  /**
   How the lookups change when `child` is derived from the document carrying
   `srcId`: the child, whose id is set and was carried by no document, is found
   under its own id, the source linked to it under `srcId`, and every other
   lookup is unchanged.
   */
  ghost predicate Stepped(before: seq<Document>, after: seq<Document>, srcId: string, child: Document, wf: WorkflowStatus) {
    && Find(before, srcId).Some?
    && child.id != "" && IdFree(before, child.id)
    && Find(after, child.id) == Some(child)
    && Find(after, srcId) == Some(Link(Find(before, srcId).value, child.id, wf))
    && forall x | x != child.id && x != srcId :: Find(after, x) == Find(before, x)
  }

  /**
   One derivation from a source dated in `year`, in a consistent collection:
   the collection stays consistent and the lookups change as `Stepped` says.
   */
  lemma DeriveStep(docs: seq<Document>, srcId: string, required: DocType, t: DocType, wf: WorkflowStatus,
                   year: nat, error: string, order: Option<(string, Option<ContractTerms>)>)
    requires Consistent(docs, year)
    requires Derive(docs, srcId, required, t, wf, year, error, order).outcome.Success?
    requires Find(docs, srcId).value.date.year == year
    ensures var r := Derive(docs, srcId, required, t, wf, year, error, order);
      && Consistent(r.docs, year)
      && Stepped(docs, r.docs, srcId, r.outcome.value, wf)
  {
    DeriveKeepsConsistent(docs, srcId, required, t, wf, year, error, order);
    DeriveIssuesFreshNumber(docs, srcId, required, t, wf, year, error, order);
    DeriveFinds(docs, srcId, required, t, wf, year, error, order);
  }

  /** Ordering a quote dated in `year`: the order is a fresh, childless document dated like the quote. */
  lemma OrderStep(docs: seq<Document>, quoteId: string, orderNumber: string,
                  contractTerms: Option<ContractTerms>, year: nat)
    requires Consistent(docs, year)
    requires Find(docs, quoteId).Some? && Find(docs, quoteId).value.docType == Proforma
    requires Find(docs, quoteId).value.date.year == year
    ensures var r := CreateOrderFromQuote(docs, quoteId, orderNumber, contractTerms, year);
      && r.outcome.Success?
      && Consistent(r.docs, year)
      && Stepped(docs, r.docs, quoteId, r.outcome.value, Ordered)
      && r.outcome.value.docType == Order && r.outcome.value.date.year == year
      && r.outcome.value.parentDocumentId == Some(quoteId) && r.outcome.value.childDocuments == []
  {
    DeriveStep(docs, quoteId, Proforma, Order, Ordered, year, OrderError, Some((orderNumber, contractTerms)));
  }

  /** Delivering an order dated in `year`: the delivery note is a fresh, childless document dated like the order. */
  lemma DeliveryStep(docs: seq<Document>, orderId: string, year: nat)
    requires Consistent(docs, year)
    requires Find(docs, orderId).Some? && Find(docs, orderId).value.docType == Order
    requires Find(docs, orderId).value.date.year == year
    ensures var r := CreateDeliveryFromOrder(docs, orderId, year);
      && r.outcome.Success?
      && Consistent(r.docs, year)
      && Stepped(docs, r.docs, orderId, r.outcome.value, Delivered)
      && r.outcome.value.docType == Delivery && r.outcome.value.date.year == year
      && r.outcome.value.parentDocumentId == Some(orderId) && r.outcome.value.childDocuments == []
  {
    DeriveStep(docs, orderId, Order, Delivery, Delivered, year, DeliveryError, None);
  }

  /** Invoicing a delivery note dated in `year`: the invoice is a fresh, childless document. */
  lemma InvoiceStep(docs: seq<Document>, deliveryId: string, year: nat)
    requires Consistent(docs, year)
    requires Find(docs, deliveryId).Some? && Find(docs, deliveryId).value.docType == Delivery
    requires Find(docs, deliveryId).value.date.year == year
    ensures var r := CreateInvoiceFromDelivery(docs, deliveryId, year);
      && r.outcome.Success?
      && Consistent(r.docs, year)
      && Stepped(docs, r.docs, deliveryId, r.outcome.value, Completed)
      && r.outcome.value.parentDocumentId == Some(deliveryId) && r.outcome.value.childDocuments == []
  {
    DeriveStep(docs, deliveryId, Delivery, Invoice, Completed, year, InvoiceError, None);
  }

  /**
   Three derivations in a row, each from the child of the one before and
   starting from an unlinked quote, leave the four documents linked as one
   chain.
   */
  lemma SteppedChain(d0: seq<Document>, d1: seq<Document>, d2: seq<Document>, d3: seq<Document>,
                     q: Document, o: Document, dl: Document, inv: Document)
    requires Find(d0, q.id) == Some(q) && q.id != "" && !IsSet(q.parentDocumentId) && q.childDocuments == []
    requires Stepped(d0, d1, q.id, o, Ordered) && o.parentDocumentId == Some(q.id) && o.childDocuments == []
    requires Stepped(d1, d2, o.id, dl, Delivered) && dl.parentDocumentId == Some(o.id) && dl.childDocuments == []
    requires Stepped(d2, d3, dl.id, inv, Completed) && inv.parentDocumentId == Some(dl.id) && inv.childDocuments == []
    requires |d3| >= 4
    ensures Chain(d3, Link(q, o.id, Ordered), Link(o, dl.id, Delivered), Link(dl, inv.id, Completed), inv)
  {
    var a, b, c := Link(q, o.id, Ordered), Link(o, dl.id, Delivered), Link(dl, inv.id, Completed);
    assert Find(d1, q.id) == Some(a);
    assert dl.id != q.id && Find(d2, q.id) == Some(a);
    assert inv.id != q.id && inv.id != o.id && Find(d3, q.id) == Some(a);
    assert Find(d2, o.id) == Some(b);
    assert Find(d3, o.id) == Some(b);
    assert Find(d3, dl.id) == Some(c);
    assert Find(d3, inv.id) == Some(inv);
    assert a.id != "" && b.id != "" && c.id != "";
    assert a.childDocuments == [b.id];
    assert b.childDocuments == [c.id];
    assert c.childDocuments == [inv.id];
    assert b.parentDocumentId == Some(a.id) && c.parentDocumentId == Some(b.id);
  }

  /**
   The whole pipeline from an unlinked quote dated in `year`: ordering it,
   delivering the order and invoicing the delivery note all succeed, the
   collection stays consistent, and asking for the workflow of any of the
   four documents returns the same chain: the quote, the order, the delivery
   note (each linked to the next and advanced to its stage) and the invoice.
   */
  lemma QuoteToInvoice(docs: seq<Document>, quoteId: string, orderNumber: string,
                       contractTerms: Option<ContractTerms>, year: nat)
    requires Consistent(docs, year)
    requires Find(docs, quoteId).Some? && Find(docs, quoteId).value.docType == Proforma
    requires !IsSet(Find(docs, quoteId).value.parentDocumentId)
    requires Find(docs, quoteId).value.childDocuments == []
    requires Find(docs, quoteId).value.date.year == year
    ensures var q := Find(docs, quoteId).value;
      var s1 := CreateOrderFromQuote(docs, quoteId, orderNumber, contractTerms, year);
      && s1.outcome.Success?
      && var o := s1.outcome.value;
      var s2 := CreateDeliveryFromOrder(s1.docs, o.id, year);
      && s2.outcome.Success?
      && var dl := s2.outcome.value;
      var s3 := CreateInvoiceFromDelivery(s2.docs, dl.id, year);
      && s3.outcome.Success?
      && var inv := s3.outcome.value;
      var chain := [Link(q, o.id, Ordered), Link(o, dl.id, Delivered), Link(dl, inv.id, Completed), inv];
      && Consistent(s3.docs, year)
      && GetDocumentWorkflow(s3.docs, quoteId) == chain
      && GetDocumentWorkflow(s3.docs, o.id) == chain
      && GetDocumentWorkflow(s3.docs, dl.id) == chain
      && GetDocumentWorkflow(s3.docs, inv.id) == chain
  {
    var q := Find(docs, quoteId).value;
    NumberedIdSet(docs, quoteId);
    OrderStep(docs, quoteId, orderNumber, contractTerms, year);
    var s1 := CreateOrderFromQuote(docs, quoteId, orderNumber, contractTerms, year);
    var o := s1.outcome.value;
    DeliveryStep(s1.docs, o.id, year);
    var s2 := CreateDeliveryFromOrder(s1.docs, o.id, year);
    var dl := s2.outcome.value;
    InvoiceStep(s2.docs, dl.id, year);
    var s3 := CreateInvoiceFromDelivery(s2.docs, dl.id, year);
    var inv := s3.outcome.value;
    SteppedChain(docs, s1.docs, s2.docs, s3.docs, q, o, dl, inv);
    ChainWorkflow(s3.docs, Link(q, o.id, Ordered), Link(o, dl.id, Delivered), Link(dl, inv.id, Completed), inv);
  }

  /** Appending two elements one at a time is appending both. */
  lemma AppendTwo<T>(s: seq<T>, x: T, y: T)
    ensures s + [x] + [y] == s + [x, y]
  {
  }

  /**
   The guard of `createOrderFromQuote` looks only at the type, and linking
   keeps the type: a quote that was already ordered can be ordered again.
   The second order gets a different number and the quote lists both.
   */
  lemma QuoteOrderedTwice(docs: seq<Document>, quoteId: string, first: string, second: string,
                          contractTerms: Option<ContractTerms>, year: nat)
    requires Consistent(docs, year)
    requires Find(docs, quoteId).Some? && Find(docs, quoteId).value.docType == Proforma
    requires Find(docs, quoteId).value.date.year == year
    ensures var q := Find(docs, quoteId).value;
      var s1 := CreateOrderFromQuote(docs, quoteId, first, contractTerms, year);
      var s2 := CreateOrderFromQuote(s1.docs, quoteId, second, contractTerms, year);
      && s1.outcome.Success? && s2.outcome.Success?
      && s1.outcome.value.id != s2.outcome.value.id
      && Find(s2.docs, quoteId).value.childDocuments
         == q.childDocuments + [s1.outcome.value.id, s2.outcome.value.id]
  {
    var q := Find(docs, quoteId).value;
    OrderStep(docs, quoteId, first, contractTerms, year);
    var s1 := CreateOrderFromQuote(docs, quoteId, first, contractTerms, year);
    OrderStep(s1.docs, quoteId, second, contractTerms, year);
    var s2 := CreateOrderFromQuote(s1.docs, quoteId, second, contractTerms, year);
    assert Find(s1.docs, s1.outcome.value.id).Some?;
    AppendTwo(q.childDocuments, s1.outcome.value.id, s2.outcome.value.id);
  }

  /**
   After ordering a quote dated in another year, the quote is still found,
   still a quote, and the order counter of the current year has not moved.
   */
  lemma PastQuoteOrdered(docs: seq<Document>, quoteId: string, first: string,
                         contractTerms: Option<ContractTerms>, year: nat)
    requires UniqueIds(docs)
    requires Find(docs, quoteId).Some? && Find(docs, quoteId).value.docType == Proforma
    requires Find(docs, quoteId).value.date.year != year
    requires quoteId != FormatNumber(Order, year, NextSequence(docs, Order, year))
    ensures var s1 := CreateOrderFromQuote(docs, quoteId, first, contractTerms, year);
      && s1.outcome.Success?
      && s1.outcome.value.id == FormatNumber(Order, year, NextSequence(docs, Order, year))
      && NextSequence(s1.docs, Order, year) == NextSequence(docs, Order, year)
      && Find(s1.docs, quoteId).Some? && Find(s1.docs, quoteId).value.docType == Proforma
  {
    var q := Find(docs, quoteId).value;
    var s1 := CreateOrderFromQuote(docs, quoteId, first, contractTerms, year);
    var o1 := s1.outcome.value;
    DeriveAdvancesCounter(docs, quoteId, Proforma, Order, Ordered, year, OrderError, Some((first, contractTerms)));
    var linked := Link(q, o1.id, Ordered);
    FindReplace(docs, quoteId, linked, quoteId);
    assert s1.docs[1..] == Replace(docs, quoteId, linked);
    assert Find(s1.docs, quoteId) == Find(s1.docs[1..], quoteId);
  }

  /**
   A quote dated in another year than the current one adds nothing to the
   order counter of the current year, so ordering it twice issues the same
   order number twice, and the collection then holds two documents under
   that number.
   */
  lemma PastQuoteOrderedTwice(docs: seq<Document>, quoteId: string, first: string, second: string,
                              contractTerms: Option<ContractTerms>, year: nat)
    requires UniqueIds(docs)
    requires Find(docs, quoteId).Some? && Find(docs, quoteId).value.docType == Proforma
    requires Find(docs, quoteId).value.date.year != year
    requires quoteId != FormatNumber(Order, year, NextSequence(docs, Order, year))
    ensures var s1 := CreateOrderFromQuote(docs, quoteId, first, contractTerms, year);
      var s2 := CreateOrderFromQuote(s1.docs, quoteId, second, contractTerms, year);
      && s1.outcome.Success? && s2.outcome.Success?
      && s1.outcome.value.id == s2.outcome.value.id
      && !UniqueIds(s2.docs)
  {
    PastQuoteOrdered(docs, quoteId, first, contractTerms, year);
    var s1 := CreateOrderFromQuote(docs, quoteId, first, contractTerms, year);
    var o1 := s1.outcome.value;
    var s2 := CreateOrderFromQuote(s1.docs, quoteId, second, contractTerms, year);
    var o2 := s2.outcome.value;
    var n := NextSequence(s1.docs, Order, year);
    assert o2.id == FormatNumber(Order, year, n);
    var linked := Link(Find(s1.docs, quoteId).value, o2.id, Ordered);
    assert s2.docs[1..] == Replace(s1.docs, quoteId, linked);
    assert s2.docs[1] == o1;
  }
}
