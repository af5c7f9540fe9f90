/**
 The guarded workflow transitions of the quote -> order -> delivery note ->
 invoice pipeline, and the unchecked workflow override.
 */
module Workflow {
  import opened Wrappers
  import opened Documents
  import opened Numbering

  /** The collection after an operation and what the operation returned or threw. */
  datatype Transition = Transition(docs: seq<Document>, outcome: Result<Document, string>)

  const ValidateQuoteError: string := "Document non trouvé ou n'est pas un devis"
  const OrderError: string := "Devis non trouvé"
  const DeliveryError: string := "Commande non trouvée"
  const InvoiceError: string := "Bon de livraison non trouvé"

  /** The fields a derived document copies from its source unchanged. */
  predicate Inherits(child: Document, src: Document) {
    && child.date == src.date
    && child.header == src.header
    && child.tva == src.tva
    && child.items == src.items
  }

  /**
   What a derivation makes of its source: a fresh `pending` document of type
   `t` at workflow stage `wf`, linked back to `srcId`, with no children or
   payments yet, carrying the source's commercial fields; an order takes the
   given order number and contract terms, anything else copies the source's.
   */
  predicate DerivedFrom(child: Document, src: Document, srcId: string, t: DocType, wf: WorkflowStatus,
                        order: Option<(string, Option<ContractTerms>)>) {
    && child.docType == t
    && child.workflowStatus == Some(wf)
    && child.status == Pending
    && child.parentDocumentId == Some(srcId)
    && child.childDocuments == []
    && child.payments == []
    && Inherits(child, src)
    && child.orderNumber == (if order.Some? then Some(order.value.0) else src.orderNumber)
    && child.contractTerms == (if order.Some? then order.value.1 else src.contractTerms)
  }

  /** `src` after gaining the child `childId`: the id is appended to its children and its workflow advances to `wf`. */
  function Link(src: Document, childId: string, wf: WorkflowStatus): Document {
    src.(childDocuments := src.childDocuments + [childId], workflowStatus := Some(wf))
  }

  /**
   `validateQuote`: the first document carrying `quoteId` must be a quote; every
   document carrying that id becomes that quote marked validated in both its
   workflow and its financial status.
   */
  function ValidateQuote(docs: seq<Document>, quoteId: string): (r: Transition)
    ensures r.outcome.Success? <==> Find(docs, quoteId).Some? && Find(docs, quoteId).value.docType == Proforma
    ensures r.outcome.Failure? ==> r.docs == docs && r.outcome.error == ValidateQuoteError
    ensures r.outcome.Success? ==>
      var q := Find(docs, quoteId).value;
      && r.outcome.value.(workflowStatus := q.workflowStatus, status := q.status) == q
      && r.outcome.value.workflowStatus == Some(WorkflowStatus.Validated)
      && r.outcome.value.status == Status.Validated
      && r.docs == Replace(docs, quoteId, r.outcome.value)
  {
    match Find(docs, quoteId)
    case None => Transition(docs, Failure(ValidateQuoteError))
    case Some(q) =>
      if q.docType != Proforma then Transition(docs, Failure(ValidateQuoteError))
      else
        var validated := q.(workflowStatus := Some(WorkflowStatus.Validated), status := Status.Validated);
        Transition(Replace(docs, quoteId, validated), Success(validated))
  }

  /**
   The shared shape of the three derivations: the first document carrying
   `srcId` must have type `required`; a new document of type `t`, numbered
   for `year`, is derived from it and put first, and every document carrying
   `srcId` becomes the source linked to that child. `order` carries the order
   number and contract terms an order is given; other derivations copy the
   source's.
   */
  function Derive(docs: seq<Document>, srcId: string, required: DocType, t: DocType, wf: WorkflowStatus,
                  year: nat, error: string, order: Option<(string, Option<ContractTerms>)>): (r: Transition)
    ensures r.outcome.Success? <==> Find(docs, srcId).Some? && Find(docs, srcId).value.docType == required
    ensures r.outcome.Failure? ==> r.docs == docs && r.outcome.error == error
    ensures r.outcome.Success? ==>
      var src := Find(docs, srcId).value;
      var child := r.outcome.value;
      var n := NextSequence(docs, t, year);
      && child.id == FormatNumber(t, year, n)
      && child.reference == Reference(year, n)
      && SequenceOf(child.reference) == Some(n)
      && DerivedFrom(child, src, srcId, t, wf, order)
      && |r.docs| == |docs| + 1
      && r.docs[0] == child
      && r.docs[1..] == Replace(docs, srcId, Link(src, child.id, wf))
  {
    match Find(docs, srcId)
    case None => Transition(docs, Failure(error))
    case Some(src) =>
      if src.docType != required then Transition(docs, Failure(error))
      else
        var n := NextSequence(docs, t, year);
        var stamped := if order.Some? then src.(orderNumber := Some(order.value.0), contractTerms := order.value.1) else src;
        var child := stamped.(
          id := FormatNumber(t, year, n),
          reference := Reference(year, n),
          docType := t,
          workflowStatus := Some(wf),
          status := Pending,
          parentDocumentId := Some(srcId),
          childDocuments := [],
          payments := []);
        var linked := Link(src, child.id, wf);
        var rest := Replace(docs, srcId, linked);
        assert ([child] + rest)[1..] == rest;
        Transition([child] + rest, Success(child))
  }

  /**
   `createOrderFromQuote`: only a quote can be ordered. The order takes the
   given order number and contract terms, starts `ordered` and `pending`, and
   the quote moves to `ordered`.
   */
  function CreateOrderFromQuote(docs: seq<Document>, quoteId: string, orderNumber: string,
                                contractTerms: Option<ContractTerms>, year: nat): (r: Transition)
    ensures r.outcome.Success? <==> Find(docs, quoteId).Some? && Find(docs, quoteId).value.docType == Proforma
    ensures r.outcome.Failure? ==> r.docs == docs && r.outcome.error == OrderError
    ensures r.outcome.Success? ==>
      && r.outcome.value.docType == Order
      && r.outcome.value.workflowStatus == Some(Ordered)
      && r.outcome.value.orderNumber == Some(orderNumber)
      && r.outcome.value.contractTerms == contractTerms
      && r.outcome.value.parentDocumentId == Some(quoteId)
      && |r.docs| == |docs| + 1 && r.docs[0] == r.outcome.value
  {
    Derive(docs, quoteId, Proforma, Order, Ordered, year, OrderError, Some((orderNumber, contractTerms)))
  }

  /**
   `createDeliveryFromOrder`: only an order can be delivered. The delivery
   note starts `delivered` and `pending`, and the order moves to `delivered`.
   */
  function CreateDeliveryFromOrder(docs: seq<Document>, orderId: string, year: nat): (r: Transition)
    ensures r.outcome.Success? <==> Find(docs, orderId).Some? && Find(docs, orderId).value.docType == Order
    ensures r.outcome.Failure? ==> r.docs == docs && r.outcome.error == DeliveryError
    ensures r.outcome.Success? ==>
      && r.outcome.value.docType == Delivery
      && r.outcome.value.workflowStatus == Some(Delivered)
      && r.outcome.value.parentDocumentId == Some(orderId)
      && |r.docs| == |docs| + 1 && r.docs[0] == r.outcome.value
  {
    Derive(docs, orderId, Order, Delivery, Delivered, year, DeliveryError, None)
  }

  /**
   `createInvoiceFromDelivery`: only a delivery note can be invoiced. The
   invoice starts `completed` and `pending`, and the delivery note moves to
   `completed`.
   */
  function CreateInvoiceFromDelivery(docs: seq<Document>, deliveryId: string, year: nat): (r: Transition)
    ensures r.outcome.Success? <==> Find(docs, deliveryId).Some? && Find(docs, deliveryId).value.docType == Delivery
    ensures r.outcome.Failure? ==> r.docs == docs && r.outcome.error == InvoiceError
    ensures r.outcome.Success? ==>
      && r.outcome.value.docType == Invoice
      && r.outcome.value.workflowStatus == Some(Completed)
      && r.outcome.value.parentDocumentId == Some(deliveryId)
      && |r.docs| == |docs| + 1 && r.docs[0] == r.outcome.value
  {
    Derive(docs, deliveryId, Delivery, Invoice, Completed, year, InvoiceError, None)
  }

  /** `updateDocumentWorkflow`: the workflow status of every document carrying `id` is overwritten, unchecked. */
  function UpdateDocumentWorkflow(docs: seq<Document>, id: string, wf: Option<WorkflowStatus>): (r: seq<Document>)
    ensures |r| == |docs|
    ensures forall i | 0 <= i < |docs| :: r[i] == if docs[i].id == id then docs[i].(workflowStatus := wf) else docs[i]
    ensures IdFree(docs, id) ==> r == docs
  {
    MapMatching(docs, id, SetWorkflow(wf))
  }

  /** The rewrite `updateDocumentWorkflow` applies: `{ ...d, workflowStatus }`. */
  function SetWorkflow(wf: Option<WorkflowStatus>): Document -> Document {
    (d: Document) => d.(workflowStatus := wf)
  }

  /**
   After overriding a workflow status, looking up that id finds the document
   with the new status, any other lookup is unchanged, and ids stay unique.
   */
  lemma UpdateWorkflowLookup(docs: seq<Document>, id: string, wf: Option<WorkflowStatus>, x: string)
    ensures var r := UpdateDocumentWorkflow(docs, id, wf);
      && Find(r, x) == (if x == id && Find(docs, x).Some? then Some(Find(docs, x).value.(workflowStatus := wf)) else Find(docs, x))
      && (UniqueIds(docs) ==> UniqueIds(r))
  {
    assert KeepsIds(docs, id, SetWorkflow(wf));
    FindMapMatching(docs, id, SetWorkflow(wf), x);
    if UniqueIds(docs) {
      MapMatchingKeepsUniqueIds(docs, id, SetWorkflow(wf));
    }
  }

  /** Validating a quote is idempotent: a second validation changes nothing and returns the same quote. */
  lemma ValidateQuoteIdempotent(docs: seq<Document>, quoteId: string)
    requires ValidateQuote(docs, quoteId).outcome.Success?
    ensures ValidateQuote(ValidateQuote(docs, quoteId).docs, quoteId) == ValidateQuote(docs, quoteId)
  {
    var r := ValidateQuote(docs, quoteId);
    var v := r.outcome.value;
    FindReplace(docs, quoteId, v, quoteId);
    assert Find(r.docs, quoteId) == Some(v);
    var r2 := ValidateQuote(r.docs, quoteId);
    assert v.(workflowStatus := Some(WorkflowStatus.Validated), status := Status.Validated) == v;
    ReplaceTwice(docs, quoteId, v);
  }

  /** Validation touches no id, type, date or reference, so it keeps ids unique and numbers consistent. */
  lemma ValidateQuoteKeepsNumbering(docs: seq<Document>, quoteId: string)
    requires UniqueIds(docs) && AllWellNumbered(docs)
    ensures UniqueIds(ValidateQuote(docs, quoteId).docs) && AllWellNumbered(ValidateQuote(docs, quoteId).docs)
  {
    var r := ValidateQuote(docs, quoteId);
    if r.outcome.Success? {
      var q := Find(docs, quoteId).value;
      var k :| 0 <= k < |docs| && docs[k] == q;
      assert WellNumbered(r.outcome.value);
      ReplaceKeepsNumbering(docs, quoteId, r.outcome.value);
      ReplaceKeepsUniqueIds(docs, quoteId, r.outcome.value);
    }
  }

  /** Overwriting the workflow status twice keeps only the second value. */
  lemma UpdateWorkflowLastWins(docs: seq<Document>, id: string, a: Option<WorkflowStatus>, b: Option<WorkflowStatus>)
    ensures UpdateDocumentWorkflow(UpdateDocumentWorkflow(docs, id, a), id, b) == UpdateDocumentWorkflow(docs, id, b)
  {
    var once := UpdateDocumentWorkflow(docs, id, a);
    var twice := UpdateDocumentWorkflow(once, id, b);
    var direct := UpdateDocumentWorkflow(docs, id, b);
    forall i | 0 <= i < |docs|
      ensures twice[i] == direct[i]
    {
      assert once[i].id == docs[i].id;
    }
  }

  /** A derivation shifts the stored documents one place back without changing any id. */
  lemma DeriveKeepsIds(docs: seq<Document>, srcId: string, required: DocType, t: DocType, wf: WorkflowStatus,
                       year: nat, error: string, order: Option<(string, Option<ContractTerms>)>)
    requires Derive(docs, srcId, required, t, wf, year, error, order).outcome.Success?
    ensures var r := Derive(docs, srcId, required, t, wf, year, error, order);
      forall i | 0 <= i < |docs| :: r.docs[i + 1].id == docs[i].id
  {
    var r := Derive(docs, srcId, required, t, wf, year, error, order);
    forall i | 0 <= i < |docs|
      ensures r.docs[i + 1].id == docs[i].id
    {
      assert r.docs[i + 1] == r.docs[1..][i];
    }
  }

  /**
   A derivation numbers the child by `year` but dates it like its source, so
   the counter of `t` for `year` advances exactly when the source is dated in
   `year`; otherwise the number just issued is issued again next time.
   */
  lemma DeriveAdvancesCounter(docs: seq<Document>, srcId: string, required: DocType, t: DocType, wf: WorkflowStatus,
                              year: nat, error: string, order: Option<(string, Option<ContractTerms>)>)
    requires UniqueIds(docs)
    requires Derive(docs, srcId, required, t, wf, year, error, order).outcome.Success?
    ensures var r := Derive(docs, srcId, required, t, wf, year, error, order);
      NextSequence(r.docs, t, year) == NextSequence(docs, t, year) + (if Find(docs, srcId).value.date.year == year then 1 else 0)
  {
    var r := Derive(docs, srcId, required, t, wf, year, error, order);
    var child := r.outcome.value;
    var src := Find(docs, srcId).value;
    FindUnique(docs, srcId);
    ReplaceKeepsMax(docs, srcId, Link(src, child.id, wf), t, year);
    assert r.docs == [child] + r.docs[1..];
    NextSequencePrepend(child, r.docs[1..], t, year);
  }

  /**
   A derivation from a source dated in another year leaves the number it just
   issued as the next number of its type for `year`: the following derivation
   or save of that type in `year` issues the same id again.
   */
  lemma DerivationReissuesNumber(docs: seq<Document>, srcId: string, required: DocType, t: DocType, wf: WorkflowStatus,
                                 year: nat, error: string, order: Option<(string, Option<ContractTerms>)>)
    requires UniqueIds(docs)
    requires Derive(docs, srcId, required, t, wf, year, error, order).outcome.Success?
    requires Find(docs, srcId).value.date.year != year
    ensures var r := Derive(docs, srcId, required, t, wf, year, error, order);
      r.docs[0].id == FormatNumber(t, year, NextSequence(r.docs, t, year)) && !IdFree(r.docs, FormatNumber(t, year, NextSequence(r.docs, t, year)))
  {
    var r := Derive(docs, srcId, required, t, wf, year, error, order);
    var n := NextSequence(docs, t, year);
    DeriveAdvancesCounter(docs, srcId, required, t, wf, year, error, order);
    assert NextSequence(r.docs, t, year) == n;
    assert r.docs[0].id == FormatNumber(t, year, n);
  }

  /**
   A derivation from a store of consistently numbered documents issues an id
   no stored document has, and keeps the ids unique.
   */
  lemma DeriveIssuesFreshNumber(docs: seq<Document>, srcId: string, required: DocType, t: DocType, wf: WorkflowStatus,
                                year: nat, error: string, order: Option<(string, Option<ContractTerms>)>)
    requires AllWellNumbered(docs) && UniqueIds(docs)
    requires year >= 10 && NoCenturyClash(docs, year)
    requires Derive(docs, srcId, required, t, wf, year, error, order).outcome.Success?
    ensures var r := Derive(docs, srcId, required, t, wf, year, error, order);
      IdFree(docs, r.outcome.value.id) && UniqueIds(r.docs)
  {
    var r := Derive(docs, srcId, required, t, wf, year, error, order);
    NextNumberIsFree(docs, t, year);
    DeriveKeepsIds(docs, srcId, required, t, wf, year, error, order);
    assert r.docs == [r.outcome.value] + r.docs[1..];
    PrependFresh(r.outcome.value, docs, r.docs[1..]);
  }

  /**
   The child carries the number its own type, date and reference call for
   exactly when its source is dated in the year it was numbered for.
   */
  lemma DerivedNumberMatchesDate(docs: seq<Document>, srcId: string, required: DocType, t: DocType, wf: WorkflowStatus,
                                 year: nat, error: string, order: Option<(string, Option<ContractTerms>)>)
    requires year >= 10 && NoCenturyClash(docs, year)
    requires Derive(docs, srcId, required, t, wf, year, error, order).outcome.Success?
    ensures var r := Derive(docs, srcId, required, t, wf, year, error, order);
      WellNumbered(r.outcome.value) <==> Find(docs, srcId).value.date.year == year
  {
    var r := Derive(docs, srcId, required, t, wf, year, error, order);
    var child := r.outcome.value;
    var n := NextSequence(docs, t, year);
    var src := Find(docs, srcId).value;
    var k :| 0 <= k < |docs| && docs[k] == src;
    assert src.date.year % 100 == year % 100 ==> src.date.year == year;
    if WellNumbered(child) {
      FormatNumberInjective(t, src.date.year, n, t, year, n);
    }
  }
}
