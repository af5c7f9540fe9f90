/**
 The customer document and the collection operations every reducer of the
 engine is built from: `documents.find(d => d.id === id)` and
 `documents.map(d => d.id === id ? f(d) : d)`.
 */
module Documents {
  import opened Wrappers

  /** The kind of a customer document: quote (proforma), delivery note, invoice, contract or order. */
  datatype DocType = Proforma | Delivery | Invoice | Contract | Order

  /** The financial status of a document. */
  datatype Status = Validated | Paid | Partial | Overdue | Pending

  /** The position of a document in the quote-to-invoice lifecycle. */
  datatype WorkflowStatus = Draft | Validated | Ordered | Delivered | Invoiced | Completed

  /** A calendar date (the ISO `yyyy-mm-dd` strings of the application). */
  datatype Date = Date(year: nat, month: nat, day: nat)

  /** One priced line; delivery notes also track the quantity actually received. */
  datatype LineItem = LineItem(description: string, quantity: int, unitPrice: int, receivedQuantity: Option<int>)

  /** A ledger entry; amounts are whole FCFA. */
  datatype Payment = Payment(date: Date, amount: int, note: Option<string>)

  datatype ScheduleEntry = ScheduleEntry(date: Date, amount: int, description: string)

  datatype ContractTerms = ContractTerms(
    deliveryDate: Option<Date>,
    warrantyPeriod: Option<string>,
    specialConditions: Option<string>,
    paymentSchedule: Option<seq<ScheduleEntry>>)

  /**
   The descriptive fields of a document that no engine operation reads or
   changes: the client, the due date and payment terms, and the references to
   records outside the document collection.
   */
  datatype Header = Header(
    client: string,
    address: Option<string>,
    city: Option<string>,
    dueDate: Option<Date>,
    paymentTermsDays: Option<int>,
    sourceId: Option<string>,
    contractOrderReference: Option<string>)

  /**
   A customer document. `payments` and `childDocuments` are optional arrays in
   the application, always read as `x || []`; here an absent array is the
   empty sequence.
   */
  datatype Document = Document(
    id: string,
    docType: DocType,
    reference: string,
    date: Date,
    header: Header,
    tva: int,
    items: seq<LineItem>,
    status: Status,
    payments: seq<Payment>,
    workflowStatus: Option<WorkflowStatus>,
    parentDocumentId: Option<string>,
    childDocuments: seq<string>,
    orderNumber: Option<string>,
    contractTerms: Option<ContractTerms>)

  /** No document of `docs` carries `id`. */
  predicate IdFree(docs: seq<Document>, id: string) {
    forall i | 0 <= i < |docs| :: docs[i].id != id
  }

  /** No two documents of `docs` share an id. */
  predicate UniqueIds(docs: seq<Document>) {
    forall i, j | 0 <= i < j < |docs| :: docs[i].id != docs[j].id
  }

  /** JavaScript truthiness of an optional id: `undefined` and `""` are both false. */
  predicate IsSet(s: Option<string>) {
    s.Some? && s.value != ""
  }

  /** `docs.find(d => d.id === id)`: the first document carrying `id`. */
  function Find(docs: seq<Document>, id: string): (r: Option<Document>)
    ensures r.None? <==> IdFree(docs, id)
    ensures r.Some? ==> r.value.id == id && r.value in docs
  {
    if docs == [] then None
    else if docs[0].id == id then Some(docs[0])
    else Find(docs[1..], id)
  }

  /** What `Find` returns sits at a position before which no document carries `id`. */
  lemma {:induction false} FindFirst(docs: seq<Document>, id: string) returns (i: nat)
    requires Find(docs, id).Some?
    ensures i < |docs| && docs[i] == Find(docs, id).value && IdFree(docs[..i], id)
    decreases |docs|
  {
    if docs[0].id == id {
      i := 0;
    } else {
      var j := FindFirst(docs[1..], id);
      i := j + 1;
      assert docs[..i] == [docs[0]] + docs[1..][..j];
    }
  }

  /** `docs.map(d => d.id === id ? f(d) : d)`: every document carrying `id` is rewritten, the rest is kept. */
  function MapMatching(docs: seq<Document>, id: string, f: Document -> Document): (r: seq<Document>)
    ensures |r| == |docs|
    ensures forall i | 0 <= i < |docs| :: r[i] == if docs[i].id == id then f(docs[i]) else docs[i]
  {
    if docs == [] then []
    else [if docs[0].id == id then f(docs[0]) else docs[0]] + MapMatching(docs[1..], id, f)
  }

  /** `docs.map(d => d.id === id ? v : d)`: every document carrying `id` is replaced by the one value `v`. */
  function Replace(docs: seq<Document>, id: string, v: Document): (r: seq<Document>)
    ensures |r| == |docs|
    ensures forall i | 0 <= i < |docs| :: r[i] == if docs[i].id == id then v else docs[i]
  {
    if docs == [] then []
    else [if docs[0].id == id then v else docs[0]] + Replace(docs[1..], id, v)
  }

  /**
   Looking up an id after `Replace` finds `v` for the replaced id, if it was
   present at all, and the untouched document for any other id.
   */
  lemma {:induction false} FindReplace(docs: seq<Document>, id: string, v: Document, x: string)
    requires v.id == id
    ensures Find(Replace(docs, id, v), x) == if x == id && Find(docs, x).Some? then Some(v) else Find(docs, x)
    decreases |docs|
  {
    if docs != [] {
      assert Replace(docs, id, v)[1..] == Replace(docs[1..], id, v);
      FindReplace(docs[1..], id, v, x);
    }
  }

  /** Replacing with a value that keeps the id is idempotent. */
  lemma ReplaceTwice(docs: seq<Document>, id: string, v: Document)
    requires v.id == id
    ensures Replace(Replace(docs, id, v), id, v) == Replace(docs, id, v)
  {
    var once := Replace(docs, id, v);
    assert forall i | 0 <= i < |docs| :: Replace(once, id, v)[i] == once[i];
  }

  /** Putting a document with a free id in front of a rewrite that kept every id keeps the ids unique. */
  lemma PrependFresh(c: Document, docs: seq<Document>, rest: seq<Document>)
    requires UniqueIds(docs) && IdFree(docs, c.id)
    requires |rest| == |docs| && forall i | 0 <= i < |docs| :: rest[i].id == docs[i].id
    ensures UniqueIds([c] + rest)
  {
    var r := [c] + rest;
    forall i, j | 0 <= i < j < |r|
      ensures r[i].id != r[j].id
    {
      assert r[j] == rest[j - 1];
      if i > 0 {
        assert r[i] == rest[i - 1];
      }
    }
  }

  /** Under unique ids, every document carrying `id` is the one `Find` returns. */
  lemma FindUnique(docs: seq<Document>, id: string)
    requires UniqueIds(docs) && Find(docs, id).Some?
    ensures forall i | 0 <= i < |docs| && docs[i].id == id :: docs[i] == Find(docs, id).value
  {
    var j := FindFirst(docs, id);
    forall i | 0 <= i < |docs| && docs[i].id == id
      ensures docs[i] == Find(docs, id).value
    {
      assert i == j;
    }
  }

  /** Replacing documents by one carrying the same id keeps the ids unique. */
  lemma ReplaceKeepsUniqueIds(docs: seq<Document>, id: string, v: Document)
    requires UniqueIds(docs) && v.id == id
    ensures UniqueIds(Replace(docs, id, v))
  {
    var r := Replace(docs, id, v);
    assert forall i | 0 <= i < |docs| :: r[i].id == docs[i].id;
  }

  /** A property every document of `docs` and `d` have is had by every document of `[d] + docs`. */
  lemma PrependAll(p: Document -> bool, d: Document, docs: seq<Document>)
    requires p(d) && forall i | 0 <= i < |docs| :: p(docs[i])
    ensures forall i | 0 <= i < |docs| + 1 :: p(([d] + docs)[i])
  {
    var r := [d] + docs;
    forall i | 0 <= i < |r|
      ensures p(r[i])
    {
      if i == 0 {
        assert r[i] == d;
      } else {
        assert r[i] == docs[i - 1];
      }
    }
  }

  /** A property every document of `docs` and `v` have is kept by `Replace(docs, id, v)`. */
  lemma ReplaceAll(p: Document -> bool, docs: seq<Document>, id: string, v: Document)
    requires p(v) && forall i | 0 <= i < |docs| :: p(docs[i])
    ensures forall i | 0 <= i < |docs| :: p(Replace(docs, id, v)[i])
  {
    var r := Replace(docs, id, v);
    forall i | 0 <= i < |r|
      ensures p(r[i])
    {
      if docs[i].id == id {
        assert r[i] == v;
      } else {
        assert r[i] == docs[i];
      }
    }
  }

  /** The value of one line before tax. */
  function LineTotal(item: LineItem): int {
    item.quantity * item.unitPrice
  }

  /**
   `items.reduce((sum, it) => sum + it.quantity * it.unitPrice, 0)`: the
   taxable base (HT), 0 for no lines, the line's own total for one line, and
   never negative when no line is.
   */
  function TotalHT(items: seq<LineItem>): (r: int)
    ensures items == [] ==> r == 0
    ensures |items| == 1 ==> r == LineTotal(items[0])
    ensures (forall i | 0 <= i < |items| :: LineTotal(items[i]) >= 0) ==> r >= 0
  {
    if items == [] then 0
    else
      var init := items[..|items| - 1];
      assert forall i | 0 <= i < |init| :: init[i] == items[i];
      TotalHT(init) + LineTotal(items[|items| - 1])
  }

  /** The total of two runs of lines is the sum of their totals, as the reduce adds line by line. */
  lemma {:induction false} TotalHTAppend(a: seq<LineItem>, b: seq<LineItem>)
    ensures TotalHT(a + b) == TotalHT(a) + TotalHT(b)
    decreases |b|
  {
    if b != [] {
      var init := b[..|b| - 1];
      assert (a + b)[..|a + b| - 1] == a + init;
      assert (a + b)[|a + b| - 1] == b[|b| - 1];
      TotalHTAppend(a, init);
    } else {
      assert a + b == a;
    }
  }

  /** `f` keeps the id of every document of `docs` it rewrites. */
  predicate KeepsIds(docs: seq<Document>, id: string, f: Document -> Document) {
    forall i | 0 <= i < |docs| && docs[i].id == id :: f(docs[i]).id == id
  }

  /**
   Looking up an id after `MapMatching` finds the rewritten document for the
   rewritten id and the untouched one for any other id.
   */
  lemma {:induction false} FindMapMatching(docs: seq<Document>, id: string, f: Document -> Document, x: string)
    requires KeepsIds(docs, id, f)
    ensures x == id ==> Find(MapMatching(docs, id, f), x) == (if Find(docs, x).Some? then Some(f(Find(docs, x).value)) else None)
    ensures x != id ==> Find(MapMatching(docs, id, f), x) == Find(docs, x)
    decreases |docs|
  {
    if docs != [] {
      var m := MapMatching(docs, id, f);
      assert m[1..] == MapMatching(docs[1..], id, f);
      assert KeepsIds(docs[1..], id, f) by {
        forall i | 0 <= i < |docs[1..]| && docs[1..][i].id == id
          ensures f(docs[1..][i]).id == id
        {
          assert docs[1..][i] == docs[i + 1];
        }
      }
      FindMapMatching(docs[1..], id, f, x);
    }
  }

  /** Rewriting documents without changing their ids keeps the ids unique. */
  lemma MapMatchingKeepsUniqueIds(docs: seq<Document>, id: string, f: Document -> Document)
    requires KeepsIds(docs, id, f) && UniqueIds(docs)
    ensures UniqueIds(MapMatching(docs, id, f))
  {
    var m := MapMatching(docs, id, f);
    assert forall i | 0 <= i < |docs| :: m[i].id == docs[i].id;
  }
}
