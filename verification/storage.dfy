/**
 The database side of a customer document: the type enum of the `documents`
 table and its mapping to and from the application's types, the generated
 reference, the stored line rows and totals, and the row written on save and
 the document read back from a row.
 */
module Storage {
  import opened Wrappers
  import opened Text
  import D = Documents
  import N = Numbering

  /** The `type` column of the `documents` table. */
  datatype StoredType = Proforma | Bl | Invoice | Acompte | Solde

  /** The string the application uses for each document type. */
  function TypeName(t: D.DocType): string {
    match t
    case Proforma => "proforma"
    case Delivery => "delivery"
    case Invoice => "invoice"
    case Contract => "contract"
    case Order => "order"
  }

  /**
   `mapDocumentType`: a delivery note is stored as `bl`, an invoice as
   `invoice`, and every other name falls back to `proforma`; the two
   database-only types are never produced.
   */
  function MapDocumentType(name: string): (r: StoredType)
    ensures r == Bl <==> name == "delivery"
    ensures r == Invoice <==> name == "invoice"
    ensures r == Proforma <==> name != "delivery" && name != "invoice"
  {
    if name == "delivery" then Bl
    else if name == "invoice" then Invoice
    else Proforma
  }

  /**
   The type read back from a row: `bl` is a delivery note, `proforma` a
   quote, and anything else (including the deposit and balance types) an
   invoice.
   */
  function DocTypeFromStored(s: StoredType): (r: D.DocType)
    ensures r == D.Delivery <==> s == Bl
    ensures r == D.Proforma <==> s == Proforma
    ensures r == D.Invoice <==> s != Bl && s != Proforma
  {
    match s
    case Bl => D.Delivery
    case Proforma => D.Proforma
    case _ => D.Invoice
  }

  /** The type names are distinct, so the mapping sees which type it was given. */
  lemma TypeNameInjective(a: D.DocType, b: D.DocType)
    requires TypeName(a) == TypeName(b)
    ensures a == b
  {
  }

  /**
   Storing a type and reading it back keeps quotes, delivery notes and
   invoices, and turns orders and contracts into quotes.
   */
  lemma TypeRoundTrip(t: D.DocType)
    ensures DocTypeFromStored(MapDocumentType(TypeName(t)))
         == if t == D.Order || t == D.Contract then D.Proforma else t
  {
  }

  /**
   Reading a stored type and storing it again keeps `proforma`, `bl` and
   `invoice`, and turns the deposit and balance types into `invoice`.
   */
  lemma StoredTypeRoundTrip(s: StoredType)
    ensures MapDocumentType(TypeName(DocTypeFromStored(s)))
         == if s == Acompte || s == Solde then Invoice else s
  {
  }

  /** Storing is not one-to-one: an order and a quote share the stored type `proforma`. */
  lemma OrderStoredAsQuote()
    ensures MapDocumentType(TypeName(D.Order)) == MapDocumentType(TypeName(D.Proforma))
    ensures DocTypeFromStored(MapDocumentType(TypeName(D.Order))) != D.Order
  {
  }

  /**
   The words that open a generated reference: `PROFORMA` for a quote, `BL`
   for a delivery note and `FACTURE` for any other type name.
   */
  function ReferencePrefix(name: string): (p: string)
    ensures p == "PROFORMA" <==> name == "proforma"
    ensures p == "BL" <==> name == "delivery"
    ensures p == "FACTURE" <==> name != "proforma" && name != "delivery"
  {
    if name == "proforma" then "PROFORMA" else if name == "delivery" then "BL" else "FACTURE"
  }

  /**
   `generateDocumentReference`: `<prefix> <year>-<random>`, the random draw
   `Math.floor(Math.random() * 10000)` given as `random` and padded to four
   digits. It opens with the prefix and a space, and its segment after the
   last dash reads back as the draw, which is what the application's
   numbering takes for the sequence of a stored document.
   */
  function GenerateReference(name: string, year: nat, random: nat): (r: string)
    requires random < 10000
    ensures |r| > |ReferencePrefix(name)| && r[..|ReferencePrefix(name)| + 1] == ReferencePrefix(name) + " "
    ensures N.SequenceOf(r) == Some(random)
  {
    var ps := PadStart(NatToString(random), 4);
    PadStartParses(random, 4);
    DigitsHaveNoDash(ps);
    LastSegmentAfterDash(ReferencePrefix(name) + " " + NatToString(year), ps);
    ReferencePrefix(name) + " " + NatToString(year) + "-" + ps
  }

  /** A generated reference is the application's raw reference for the same year and draw, behind the prefix. */
  lemma GeneratedReferenceShape(name: string, year: nat, random: nat)
    requires random < 10000
    ensures GenerateReference(name, year, random) == ReferencePrefix(name) + " " + N.Reference(year, random)
  {
    var p, y, ps := ReferencePrefix(name), NatToString(year), PadStart(NatToString(random), 4);
    N.ReferenceSpelled(year, random, y, ps);
    assert p + " " + y + "-" + ps == p + " " + (y + "-" + ps);
  }

  /**
   An order saved without a reference is stored as a quote but gets an
   invoice reference: the prefix rule and the type mapping disagree.
   */
  lemma OrderGetsInvoiceReference(year: nat, random: nat)
    requires random < 10000
    ensures MapDocumentType(TypeName(D.Order)) == Proforma
    ensures GenerateReference(TypeName(D.Order), year, random)[..7] == "FACTURE"
  {
  }

  /** A row of the `line_items` table. */
  datatype LineRow = LineRow(description: string, quantity: int, unitPrice: int, totalHt: int, receivedQuantity: int)

  /**
   The row saved for a line: its total is quantity times unit price, and a
   missing received quantity is stored as 0 (`item.receivedQuantity || 0`).
   */
  function ToLineRow(item: D.LineItem): (r: LineRow)
    ensures r.totalHt == D.LineTotal(item)
    ensures r.receivedQuantity == if item.receivedQuantity.Some? then item.receivedQuantity.value else 0
  {
    LineRow(item.description, item.quantity, item.unitPrice, item.quantity * item.unitPrice,
            item.receivedQuantity.GetOr(0))
  }

  /** The line read back from a row: the stored total is not read, the received quantity always is. */
  function FromLineRow(row: LineRow): D.LineItem {
    D.LineItem(row.description, row.quantity, row.unitPrice, Some(row.receivedQuantity))
  }

  /** Saving a line and reading it back keeps it, except that a missing received quantity comes back as 0. */
  lemma LineRoundTrip(item: D.LineItem)
    ensures FromLineRow(ToLineRow(item)) == item.(receivedQuantity := Some(item.receivedQuantity.GetOr(0)))
  {
  }

  function ToLineRows(items: seq<D.LineItem>): (r: seq<LineRow>)
    ensures |r| == |items|
    ensures forall i | 0 <= i < |items| :: r[i] == ToLineRow(items[i])
  {
    seq(|items|, i requires 0 <= i < |items| => ToLineRow(items[i]))
  }

  /** The sum of the stored line totals, in row order. */
  function RowsTotal(rows: seq<LineRow>): int {
    if rows == [] then 0 else RowsTotal(rows[..|rows| - 1]) + rows[|rows| - 1].totalHt
  }

  /**
   The document total saved by `calculateTotalHT` is the sum of the totals of
   the line rows saved with it; both are 0 for a document without lines.
   */
  lemma {:induction false} StoredTotalMatchesLines(items: seq<D.LineItem>)
    ensures RowsTotal(ToLineRows(items)) == D.TotalHT(items)
    decreases |items|
  {
    if items != [] {
      var init := items[..|items| - 1];
      assert ToLineRows(items)[..|items| - 1] == ToLineRows(init);
      StoredTotalMatchesLines(init);
    }
  }

  /** A row of the `payments` table. */
  datatype PaymentRow = PaymentRow(amount: int, paymentDate: D.Date, note: Option<string>)

  /** `x || null` and `x || undefined` on an optional string: an empty string is dropped. */
  function Truthy(s: Option<string>): (r: Option<string>)
    ensures r.Some? <==> D.IsSet(s)
    ensures r.Some? ==> r == s
  {
    if D.IsSet(s) then s else None
  }

  function ToPaymentRow(p: D.Payment): PaymentRow {
    PaymentRow(p.amount, p.date, Truthy(p.note))
  }

  function FromPaymentRow(row: PaymentRow): D.Payment {
    D.Payment(row.paymentDate, row.amount, Truthy(row.note))
  }

  /** Saving a payment and reading it back keeps it, except that an empty note is dropped. */
  lemma PaymentRoundTrip(p: D.Payment)
    ensures FromPaymentRow(ToPaymentRow(p)) == p.(note := Truthy(p.note))
  {
  }

  /** The columns of a `documents` row that the document engine writes and reads. */
  datatype StoredDocument = StoredDocument(
    id: string,
    storedType: StoredType,
    reference: string,
    dateCreation: D.Date,
    dateEcheance: Option<D.Date>,
    tva: int,
    statut: D.Status,
    workflowStatus: D.WorkflowStatus,
    parentDocumentId: Option<string>,
    orderNumber: Option<string>,
    contractOrderReference: Option<string>,
    totalHt: int)

  /**
   The row `saveDocumentToSupabase` inserts for `d`, under the id `rowId` the
   database assigns: the mapped type, the given reference or a generated one,
   `draft` for a missing workflow status, and the HT total of the lines.
   */
  function ToStored(d: D.Document, rowId: string, year: nat, random: nat): (r: StoredDocument)
    requires random < 10000
    ensures r.storedType == MapDocumentType(TypeName(d.docType))
    ensures r.workflowStatus == if d.workflowStatus.Some? then d.workflowStatus.value else D.Draft
    ensures d.reference != "" ==> r.reference == d.reference
    ensures d.reference == "" ==> N.SequenceOf(r.reference) == Some(random)
    ensures r.totalHt == RowsTotal(ToLineRows(d.items))
  {
    var reference := if d.reference != "" then d.reference else GenerateReference(TypeName(d.docType), year, random);
    StoredTotalMatchesLines(d.items);
    StoredDocument(rowId, MapDocumentType(TypeName(d.docType)), reference, d.date, d.header.dueDate, d.tva, d.status,
                   d.workflowStatus.GetOr(D.Draft), Truthy(d.parentDocumentId), Truthy(d.orderNumber),
                   Truthy(d.header.contractOrderReference), D.TotalHT(d.items))
  }

  /** What the `clients` join gives for a row: the company name, address and city. */
  datatype ClientRow = ClientRow(raisonSociale: string, adresse: Option<string>, ville: Option<string>)

  /**
   `convertSupabaseDocumentToCustomerDocument`: the document read back from a
   row, its client, line rows and payment rows. The stored total is not read;
   links to children, contract terms and payment terms are not stored.
   */
  function FromStored(row: StoredDocument, client: Option<ClientRow>, lines: seq<LineRow>,
                      payments: seq<PaymentRow>): (d: D.Document)
    ensures d.docType == DocTypeFromStored(row.storedType)
    ensures d.workflowStatus.Some?
    ensures d.childDocuments == [] && d.contractTerms == None
    ensures |d.items| == |lines| && |d.payments| == |payments|
  {
    var name := if client.Some? then client.value.raisonSociale else "";
    var header := D.Header(
      name,
      if client.Some? then Truthy(client.value.adresse) else None,
      if client.Some? then Truthy(client.value.ville) else None,
      row.dateEcheance, None, None, Truthy(row.contractOrderReference));
    D.Document(
      row.id, DocTypeFromStored(row.storedType), row.reference, row.dateCreation, header, row.tva,
      seq(|lines|, i requires 0 <= i < |lines| => FromLineRow(lines[i])),
      row.statut,
      seq(|payments|, i requires 0 <= i < |payments| => FromPaymentRow(payments[i])),
      Some(row.workflowStatus), Truthy(row.parentDocumentId), [], Truthy(row.orderNumber), None)
  }

  /**
   Saving a document and reading it back gives the row id the database
   assigned, and keeps the reference when one was given; without one, the
   reference read back is the generated `<PREFIX> <year>-<nnnn>` whose
   sequence is the draw. The date, amounts, status and parent link are kept,
   an order or a contract comes back as a quote, a missing workflow status as
   `draft`, and the children are forgotten.
   */
  lemma DocumentRoundTrip(d: D.Document, rowId: string, year: nat, random: nat)
    requires random < 10000
    ensures var back := FromStored(ToStored(d, rowId, year, random), None, ToLineRows(d.items), []);
      && back.id == rowId
      && (d.reference != "" ==> back.reference == d.reference)
      && (d.reference == "" ==> back.reference == GenerateReference(TypeName(d.docType), year, random)
                                && N.SequenceOf(back.reference) == Some(random))
      && back.date == d.date && back.tva == d.tva && back.status == d.status
      && back.docType == (if d.docType == D.Order || d.docType == D.Contract then D.Proforma else d.docType)
      && back.workflowStatus == Some(d.workflowStatus.GetOr(D.Draft))
      && back.parentDocumentId == Truthy(d.parentDocumentId)
      && back.childDocuments == []
      && D.TotalHT(back.items) == D.TotalHT(d.items)
  {
    TypeRoundTrip(d.docType);
    ReadLinesTotal(d.items);
  }

  /** Reading back the saved lines keeps every quantity and price, so the HT total is unchanged. */
  lemma {:induction false} ReadLinesTotal(items: seq<D.LineItem>)
    ensures var rows := ToLineRows(items);
      D.TotalHT(seq(|rows|, i requires 0 <= i < |rows| => FromLineRow(rows[i]))) == D.TotalHT(items)
    decreases |items|
  {
    var rows := ToLineRows(items);
    var back := seq(|rows|, i requires 0 <= i < |rows| => FromLineRow(rows[i]));
    if items != [] {
      var init := items[..|items| - 1];
      var rowsInit := ToLineRows(init);
      assert back[..|back| - 1] == seq(|rowsInit|, i requires 0 <= i < |rowsInit| => FromLineRow(rowsInit[i]));
      ReadLinesTotal(init);
    }
  }
}
