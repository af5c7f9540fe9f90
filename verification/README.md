# EDIBA customer-document engine in Dafny

This project models the customer-document engine of the EDIBA INTER
management application. The engine handles quotes (`proforma`), orders,
delivery notes (`delivery`, "BL"), invoices and contracts. It is held as a
collection of immutable `Document` records, and every operation is a pure
function from the collection to a new collection, an answer, or both:

- **Numbering** (`numbering.dfy`, with the decimal text helpers in `text.dfy`).
  `formatNumberNew` builds the human number `N°<prefix><yy><sequence>`.
  `nextSequence` picks one more than the largest sequence already used for a
  type and year. The numbering part of `saveDocument` stamps a new document
  with both. The model proves three things about this:
  - the number decodes back to its type, year and sequence;
  - the next sequence lies strictly above every used one;
  - a new number is free in a well-numbered collection with unique ids, for a
    year of at least two digits, provided no document is dated a whole number
    of centuries away from the new number's year.
- **Payment ledger** (`ledger.dfy`). `addPayment` recomputes HT, the rounded
  TVA and TTC. It cuts an overpayment into a capped entry and a "Reliquat"
  entry, and sets the financial status.
- **Workflow transitions** (`workflow.dfy`). These are `validateQuote`,
  `createOrderFromQuote`, `createDeliveryFromOrder`,
  `createInvoiceFromDelivery` and the unchecked `updateDocumentWorkflow`.
  Each guarded operation returns a `Transition`: the new collection, and
  either the document it returns or the message of the error it throws.
- **Chain traversal** (`traversal.dfy`). `getDocumentWorkflow` walks up the
  parent links, then depth-first down the child lists.
- **The pipeline as a whole** (`lifecycle.dfy`). Order, delivery and invoice
  run one after another from an unlinked quote dated in the current year, in
  a consistent collection (a current year of at least two digits, unique
  ids, every document well numbered, no date a whole number of centuries
  away from the current year). The collection stays consistent, and the
  workflow query returns the same four-document chain from any of its
  members. A source dated in another year breaks consistency: the child's
  number is not the one its date calls for, and the number can be issued
  again.
- **Storage mapping** (`storage.dfy`). This covers:
  - the database type enum and its lossy mapping to and from the
    application's types;
  - the generated reference `<PREFIX> <year>-<nnnn>`;
  - the stored line rows and HT total;
  - the row written on save and the document read back from a row.

`documents.dfy` holds the data model and the two collection idioms every
reducer is built from:
- `documents.find(d => d.id === id)`, which is `Find`;
- `documents.map(d => d.id === id ? … : d)`, which is `MapMatching` and
  `Replace`.

`wrappers.dfy` holds `Option` and `Result`.

The model makes these representation choices:
- Money, quantities and prices are integers: FCFA has no subunit, and `tva`
  is an integer percent.
- `Math.round(n / 100)` is `(n + 50) / 100`.
- Dates are `Date(year, month, day)` records. `date.startsWith(String(year))`
  becomes `date.year == year`.
- The clock and the random draw are parameters: the current `year`, and the
  `random` number of a generated reference.
- Optional arrays (`payments || []`, `childDocuments || []`) are plain
  sequences, with an absent array read as empty.

Some behaviours of the source are proved as they are:
- **A derived document can reissue an existing number.** A derivation numbers
  the new document with the current year but copies the source's date. A
  document derived in one year from a source dated in another therefore
  leaves the counter for the current year unchanged, and, with unique ids,
  the next derivation issues the same number again
  (`Workflow.DerivationReissuesNumber`). A quote dated in a previous year and
  ordered twice gets the same order number both times, and the collection
  then holds two documents under it (`Lifecycle.PastQuoteOrderedTwice`).
- **Payments after an overpayment go negative.** Once a document is overpaid,
  its Reliquat entry counts as paid. Every later payment is then recorded as a
  negative capped entry plus a Reliquat larger than the payment
  (`Ledger.PaymentAfterOverpayment`).
- **A number can collide with one from a century earlier.** The number keeps
  only the last two digits of the year, while the counter filters on the whole
  year. An invoice dated 1925 and numbered `N°F2500001` is well numbered, and
  the first invoice number of 2025 is `N°F2500001` again
  (`Numbering.CenturyClashReissuesNumber`, `Numbering.CenturyClashExample`).
  The freshness results therefore assume `NoCenturyClash`.
- **A quote can be ordered more than once.** The order guard looks only at the
  type. For a quote dated in the current year in a consistent collection the
  two orders get different numbers (`Lifecycle.QuoteOrderedTwice`); for a
  quote dated in another year they get the same one
  (`Lifecycle.PastQuoteOrderedTwice`).
- **Storage changes types and references.** An order or a contract is stored
  and read back as a quote, and an order saved without a reference gets a
  `FACTURE` reference (`Storage.TypeRoundTrip`,
  `Storage.OrderGetsInvoiceReference`).

Two further facts about the code:
- Each guarded operation throws a single error message, whether the document
  is missing or has the wrong type.
- Nothing enforces unique references within a type and year.

## Model

| member | source | states |
|---|---|---|
| Text.NatToStringSpec | src/contexts/DataContext.tsx:347 | `String(n)` is a non-empty digit string whose value is `n`, one digit long exactly when `n < 10`, and with no leading zero when longer |
| Text.ParseInt | src/contexts/DataContext.tsx:352 | `parseInt(s, 10)` is NaN exactly when `s` does not start with a digit, and otherwise is the value of the longest digit prefix, whatever follows it |
| Text.LeadingDigits | src/contexts/DataContext.tsx:352 | the digits `parseInt` reads are the longest digit prefix of the string |
| Text.LastSegmentSpec | src/contexts/DataContext.tsx:352 | `split('-').pop()` is the longest dash-free suffix, preceded by a dash unless it is the whole string |
| Text.LastSegmentAfterDash | src/contexts/DataContext.tsx:352 | the last segment of `a-b` is `b` when `b` has no dash |
| Text.PadStartParses | src/contexts/DataContext.tsx:347 | `padStart(width, '0')` of `String(n)` is a digit string at least `width` long that reads back as `n` |
| Text.PadStartShape | src/contexts/DataContext.tsx:347 | for a positive width, `String(n).padStart(width, '0')` is exactly `width` long, or longer with a non-zero first digit |
| Text.DigitsValueZeros | src/contexts/DataContext.tsx:347 | leading zeros do not change the value read back |
| Numbering.FormatNumberExample | src/contexts/DataContext.tsx:337-348 | the seventh invoice of 2025 is `N°F2500007` with reference `2025-0007` |
| Numbering.FormatNumber | src/contexts/DataContext.tsx:337-348 | a number opens with `N°` and the type prefix; for a year of at least two digits, at least seven digits follow, two spelling the year modulo 100 and the rest the sequence, zero-padded to five digits and longer only with a non-zero leading digit |
| Numbering.YearSuffixDigits | src/contexts/DataContext.tsx:342 | `String(year).slice(-2)` is two digits spelling `year % 100` |
| Numbering.DecodeNumber | src/contexts/DataContext.tsx:337-348 | reading a number back gives a year suffix below 100 |
| Numbering.FormatNumberDecodes | src/contexts/DataContext.tsx:337-348 | decoding `formatNumberNew(t, year, n)` gives back `t`, `year % 100` and `n` |
| Numbering.FormatNumberInjective | src/contexts/DataContext.tsx:337-348 | equal numbers have equal type, year modulo 100 and sequence |
| Numbering.SequenceOf | src/contexts/DataContext.tsx:352 | the trailing reference segment is unreadable exactly when it is non-empty and does not start with a digit; an empty segment reads as 0; otherwise the result is the value of the segment's whole leading digit run, whatever follows it |
| Numbering.Reference | src/contexts/DataContext.tsx:2756 | the reference opens with the year and a dash; the rest spells the sequence in digits, zero-padded to four and longer only with a non-zero leading digit; the numbering reads the sequence back from it |
| Numbering.MaxSequence | src/contexts/DataContext.tsx:350-354 | the maximum is above every sequence of the type and year, and is 0 or one of them |
| Numbering.NextSequence | src/contexts/DataContext.tsx:350-355 | the next sequence is at least 1, strictly above every used sequence, and 1 or one above a used sequence |
| Numbering.SaveDocument | src/contexts/DataContext.tsx:2753-2778 | the saved document is the input with no payments, the number for the next sequence of its type and own year, and the reference `<year>-<sequence>` for that sequence, which reads back as it; it is put in front |
| Numbering.NextSequenceAfterSave | src/contexts/DataContext.tsx:2754-2758 | saving raises the next sequence of the saved type and year by exactly one |
| Numbering.NextSequencePrepend | src/contexts/DataContext.tsx:350-355 | a new front document raises the next sequence only when its own sequence reaches it |
| Numbering.NextSequenceSkipsOthers | src/contexts/DataContext.tsx:351 | a document of another type or year leaves the next sequence alone |
| Numbering.MaxSequenceAgrees | src/contexts/DataContext.tsx:350-354 | the maximum depends only on the sequences the documents contribute |
| Numbering.ReplaceKeepsMax | src/contexts/DataContext.tsx:350-354 | rewriting documents without changing what they contribute keeps the maximum |
| Numbering.NumberDiffers | src/contexts/DataContext.tsx:337-355 | a well-numbered document below the next sequence does not carry the next number |
| Numbering.NextNumberIsFree | src/contexts/DataContext.tsx:337-355 | in a well-numbered collection with no document dated a century away from a year of at least two digits, the next number of any type in that year is carried by no document |
| Numbering.SaveIssuesFreshNumber | src/contexts/DataContext.tsx:2753-2778 | saving into a well-numbered collection with unique ids, none of it dated a century away from the new document's year of at least two digits, issues a free number and keeps both properties |
| Numbering.YearSuffixCentury | src/contexts/DataContext.tsx:342 | two years of at least two digits with the same last two digits get the same year suffix |
| Numbering.CenturyClashReissuesNumber | src/contexts/DataContext.tsx:337-355 | a well-numbered first document of a year a century away from `year` makes the first number of `year` one that is already taken |
| Numbering.CenturyClashExample | src/contexts/DataContext.tsx:337-355 | an invoice of 1925 numbered `N°F2500001` is well numbered, and the first invoice number of 2025 is that same `N°F2500001` |
| Numbering.ReplaceKeepsNumbering | src/contexts/DataContext.tsx:2985 | replacing documents by a well-numbered one keeps the collection well numbered |
| Numbering.PrependKeepsNumbering | src/contexts/DataContext.tsx:2778 | putting a well-numbered document in front keeps the collection well numbered |
| Documents.Find | src/contexts/DataContext.tsx:2980 | `find` fails exactly when no document carries the id, and otherwise returns a member carrying it |
| Documents.FindFirst | src/contexts/DataContext.tsx:2980 | what `find` returns is the first document carrying the id |
| Documents.FindUnique | src/contexts/DataContext.tsx:2980 | under unique ids, every document carrying the id is the one `find` returns |
| Documents.MapMatching | src/contexts/DataContext.tsx:3142 | the map rewrites exactly the documents carrying the id and keeps order and length |
| Documents.Replace | src/contexts/DataContext.tsx:2985 | the map replaces exactly the documents carrying the id by one value |
| Documents.FindReplace | src/contexts/DataContext.tsx:2985 | after replacing, looking up the id finds the new value if it was present, and other lookups are unchanged |
| Documents.FindMapMatching | src/contexts/DataContext.tsx:3142 | after rewriting without changing ids, looking up the id finds the rewritten document, and other lookups are unchanged |
| Documents.ReplaceTwice | src/contexts/DataContext.tsx:2985 | replacing twice by the same value is replacing once |
| Documents.ReplaceKeepsUniqueIds | src/contexts/DataContext.tsx:2985 | replacing by a value with the same id keeps ids unique |
| Documents.MapMatchingKeepsUniqueIds | src/contexts/DataContext.tsx:3142 | rewriting without changing ids keeps ids unique |
| Documents.PrependFresh | src/contexts/DataContext.tsx:3022 | a document with a free id put in front of an id-preserving rewrite keeps ids unique |
| Documents.TotalHT | src/services/dataService.ts:663-665 | the HT total is 0 for no lines, the line total for one line, and never negative when no line total is |
| Documents.TotalHTAppend | src/services/dataService.ts:663-665 | the HT total of two runs of lines is the sum of their HT totals |
| Ledger.TotalTTC | src/contexts/DataContext.tsx:2786-2788 | TTC is HT times `(100 + tva) / 100` to within half a unit |
| Ledger.AmountPaid | src/contexts/DataContext.tsx:2789 | the total paid is 0 for no entry, the amount for one entry, and never negative when no amount is |
| Ledger.RoundDiv100 | src/contexts/DataContext.tsx:2787 | `Math.round(n / 100)` is the integer within half a unit of `n / 100`, halves rounded up |
| Ledger.PaidAppend | src/contexts/DataContext.tsx:2789 | appending an entry adds its amount to the total paid |
| Ledger.ApplyPayment | src/contexts/DataContext.tsx:2783-2808 | only payments and status change; no overpayment means one entry appended; an overpayment means a capped entry bringing the total to exactly TTC plus a Reliquat entry holding the excess; the total paid rises by the payment amount; status is paid, partial or kept as paid reaches TTC, is positive, or neither |
| Ledger.AddPayment | src/contexts/DataContext.tsx:2781-2810 | exactly the documents carrying the id take the payment; an unknown id changes nothing |
| Ledger.AddPaymentLookup | src/contexts/DataContext.tsx:2781-2810 | after a payment, the paid id finds the paid document, other lookups are unchanged, and ids stay unique |
| Ledger.PaymentAfterOverpayment | src/contexts/DataContext.tsx:2789-2804 | after an overpayment, a further positive payment is recorded as a negative capped entry and a Reliquat larger than the payment |
| Ledger.CappedEntrySign | src/contexts/DataContext.tsx:2793-2796 | the capped entry is negative exactly when the ledger already exceeded TTC |
| Ledger.OverpaymentExample | src/contexts/DataContext.tsx:2785-2806 | with 1000 HT at 18% and 1000 paid, a payment of 300 becomes 180 plus a Reliquat of 120 and the document is paid |
| Ledger.PartialPaymentsExample | src/contexts/DataContext.tsx:2785-2806 | with 1180 due, 500 makes the document partial and a further 680 makes it paid with no Reliquat |
| Workflow.ValidateQuote | src/contexts/DataContext.tsx:2979-2987 | succeeds exactly when the first document with the id is a quote; otherwise throws its message and changes nothing; on success, the quote differs only in its two statuses, both validated, and replaces every document with the id |
| Workflow.ValidateQuoteIdempotent | src/contexts/DataContext.tsx:2979-2987 | validating twice is validating once |
| Workflow.ValidateQuoteKeepsNumbering | src/contexts/DataContext.tsx:2979-2987 | validation keeps ids unique and the collection well numbered |
| Workflow.Derive | src/contexts/DataContext.tsx:2988-3100 | succeeds exactly when the source has the required type, otherwise throws and changes nothing; on success the child has the next number of its type and year and the reference `<year>-<sequence>` for it, is a pending, childless, unpaid copy of the source at the new stage, is linked to the source, and is put in front of the collection with the source linked to it |
| Workflow.CreateOrderFromQuote | src/contexts/DataContext.tsx:2988-3026 | only a quote can be ordered (error `Devis non trouvé`); the order is at stage ordered, carries the given order number and terms, is linked to the quote and is put in front |
| Workflow.CreateDeliveryFromOrder | src/contexts/DataContext.tsx:3027-3063 | only an order can be delivered (error `Commande non trouvée`); the delivery note is at stage delivered, is linked to the order and is put in front |
| Workflow.CreateInvoiceFromDelivery | src/contexts/DataContext.tsx:3064-3100 | only a delivery note can be invoiced (error `Bon de livraison non trouvé`); the invoice is at stage completed, is linked to the note and is put in front |
| Workflow.UpdateDocumentWorkflow | src/contexts/DataContext.tsx:3139-3144 | exactly the documents with the id take the new status, unchecked; an unknown id changes nothing |
| Workflow.UpdateWorkflowLookup | src/contexts/DataContext.tsx:3139-3144 | after the override, the id finds the document with the new status, other lookups are unchanged, and ids stay unique |
| Workflow.UpdateWorkflowLastWins | src/contexts/DataContext.tsx:3139-3144 | of two overrides the last one wins |
| Workflow.DeriveKeepsIds | src/contexts/DataContext.tsx:2988-3100 | a derivation shifts the stored documents back one place without changing their ids |
| Workflow.DeriveAdvancesCounter | src/contexts/DataContext.tsx:2988-3100 | under unique ids, a derivation raises the next sequence of its type for the current year by one exactly when the source is dated in that year |
| Workflow.DerivationReissuesNumber | src/contexts/DataContext.tsx:2994-3002 | in a collection with unique ids, a derivation from a source dated in another year leaves the next number equal to the one just issued, which is already taken |
| Workflow.DeriveIssuesFreshNumber | src/contexts/DataContext.tsx:2994-3023 | in a well-numbered collection with unique ids and no document dated a century away from the current year of at least two digits, a derivation issues a free number and keeps ids unique |
| Workflow.DerivedNumberMatchesDate | src/contexts/DataContext.tsx:2994-3002 | for a current year of at least two digits and a collection with no document dated a whole number of centuries away from it, the derived document carries the number its own type, date and reference call for exactly when the source is dated in the current year |
| Traversal.AncestorsChain | src/contexts/DataContext.tsx:3108-3117 | the upward walk returns collection members, each the parent of the next, the last the parent of the start, and stops only at an orphan or when the budget is spent |
| Traversal.Descendants | src/contexts/DataContext.tsx:3123-3133 | the downward walk returns collection members, and nothing when every child id dangles |
| Traversal.DescendantsAppend | src/contexts/DataContext.tsx:3125-3131 | walking a child list is walking its halves one after the other |
| Traversal.GetDocumentWorkflow | src/contexts/DataContext.tsx:3101-3138 | the answer is empty exactly when the id is unknown, and holds only collection members |
| Traversal.WorkflowShape | src/contexts/DataContext.tsx:3101-3120 | the document found sits right after its ancestors, which are linked parent to child down to it |
| Traversal.ChainAncestors | src/contexts/DataContext.tsx:3108-3117 | on a four-document chain, the walk up from each member collects the chain from its root |
| Traversal.ChainDescendants | src/contexts/DataContext.tsx:3123-3135 | on a four-document chain, the walk down below each member emits the rest of the chain |
| Traversal.ChainWorkflow | src/contexts/DataContext.tsx:3101-3138 | on a four-document chain, asking about any member returns the whole chain, root first |
| Lifecycle.LinkKeepsNumber | src/contexts/DataContext.tsx:3014-3018 | linking a child keeps a document well numbered |
| Lifecycle.NumberedIdSet | src/contexts/DataContext.tsx:337-348 | in a well-numbered collection no document carries the empty id |
| Lifecycle.DeriveKeepsNumbering | src/contexts/DataContext.tsx:2994-3023 | in a consistent collection, a derivation from a source dated in the current year keeps the collection well numbered |
| Lifecycle.DeriveKeepsCenturies | src/contexts/DataContext.tsx:2999-3002 | a derivation from a source dated in the current year adds no date a century away |
| Lifecycle.DeriveKeepsConsistent | src/contexts/DataContext.tsx:2988-3100 | in a consistent collection, a derivation from a source dated in the current year keeps the collection consistent |
| Lifecycle.DeriveFinds | src/contexts/DataContext.tsx:3014-3023 | after a derivation with a fresh number, the child is found under its id, the linked source under the source id, and other lookups are unchanged |
| Lifecycle.DeriveStep | src/contexts/DataContext.tsx:2988-3100 | one derivation from a source dated in the current year, in a consistent collection, keeps it consistent and changes the lookups only for the child and the source |
| Lifecycle.OrderStep | src/contexts/DataContext.tsx:2988-3026 | ordering a current-year quote in a consistent collection succeeds with a fresh, childless order linked to the quote |
| Lifecycle.DeliveryStep | src/contexts/DataContext.tsx:3027-3063 | delivering a current-year order in a consistent collection succeeds with a fresh, childless delivery note linked to the order, and keeps the collection consistent |
| Lifecycle.InvoiceStep | src/contexts/DataContext.tsx:3064-3100 | invoicing a current-year delivery note in a consistent collection succeeds with a fresh, childless invoice linked to the note, and keeps the collection consistent |
| Lifecycle.SteppedChain | src/contexts/DataContext.tsx:2988-3100 | three derivations, each from the previous child and starting at an unlinked quote, link the four documents as one chain |
| Lifecycle.QuoteToInvoice | src/contexts/DataContext.tsx:2988-3138 | in a consistent collection, from an unlinked, childless current-year quote, order, delivery and invoice all succeed, the collection stays consistent, and asking about any of the four returns the same four-document chain |
| Lifecycle.QuoteOrderedTwice | src/contexts/DataContext.tsx:2988-3026 | a current-year quote in a consistent collection can be ordered again after being ordered; the second order gets a different number and the quote lists both |
| Lifecycle.PastQuoteOrderedTwice | src/contexts/DataContext.tsx:2988-3026 | in a collection with unique ids, a quote dated in another year that does not itself carry the next order number can be ordered twice, and both orders get the same number, so the ids are no longer unique |
| Storage.MapDocumentType | src/services/dataService.ts:645-654 | a delivery note is stored as `bl`, an invoice as `invoice`, and every other name as `proforma` |
| Storage.DocTypeFromStored | src/services/dataService.ts:675 | `bl` reads as a delivery note, `proforma` as a quote, and anything else as an invoice |
| Storage.TypeNameInjective | src/contexts/DataContext.tsx:53 | the five type names are distinct |
| Storage.TypeRoundTrip | src/services/dataService.ts:645-675 | storing and reading back keeps quotes, delivery notes and invoices, and turns orders and contracts into quotes |
| Storage.StoredTypeRoundTrip | src/services/dataService.ts:645-675 | reading and storing again keeps `proforma`, `bl` and `invoice`, and turns `acompte` and `solde` into `invoice` |
| Storage.OrderStoredAsQuote | src/services/dataService.ts:645-675 | an order and a quote share a stored type, and an order does not come back as an order |
| Storage.ReferencePrefix | src/services/dataService.ts:658 | the prefix is `PROFORMA` exactly for a quote, `BL` exactly for a delivery note, and `FACTURE` otherwise |
| Storage.GenerateReference | src/services/dataService.ts:656-661 | a generated reference opens with its prefix and a space, and its trailing segment reads back as the random draw |
| Storage.GeneratedReferenceShape | src/services/dataService.ts:656-661 | a generated reference is the prefix, a space, and the raw reference of the same year and draw |
| Storage.OrderGetsInvoiceReference | src/services/dataService.ts:645-661 | an order saved without a reference is stored as `proforma` but gets a `FACTURE` reference |
| Storage.ToLineRow | src/services/dataService.ts:113-120 | a stored line's total is quantity times unit price, and a missing received quantity is stored as 0 |
| Storage.LineRoundTrip | src/services/dataService.ts:683-688 | saving and reading back a line keeps it, except that a missing received quantity comes back as 0 |
| Storage.StoredTotalMatchesLines | src/services/dataService.ts:663-665 | the stored document total equals the sum of the stored line totals, 0 for no lines |
| Storage.Truthy | src/services/dataService.ts:94-96 | the fallback to `null` or `undefined` keeps exactly the non-empty strings |
| Storage.PaymentRoundTrip | src/services/dataService.ts:694-698 | saving and reading back a payment keeps it, except that an empty note is dropped |
| Storage.ToStored | src/services/dataService.ts:79-100 | the saved row has the mapped type, the given or a generated reference that reads back as the draw, `draft` for a missing workflow status, and the sum of the line totals as total |
| Storage.FromStored | src/services/dataService.ts:672-700 | the document read back has the reverse-mapped type, always a workflow status, no children and no contract terms, and one line and one payment per row |
| Storage.DocumentRoundTrip | src/services/dataService.ts:672-700 | a document saved and read back carries the row id the database assigns; it keeps its reference when one is given, and otherwise gets the generated `<PREFIX> <year>-<nnnn>` reference, which reads back as the draw; it keeps date, TVA, status, parent and HT total, turns orders and contracts into quotes, defaults the workflow status to `draft`, and forgets the children |
| Storage.ReadLinesTotal | src/services/dataService.ts:683-688 | reading back the saved lines keeps the HT total |

## Left out

- Supabase I/O is not modelled: the inserts, selects, the client lookup by company name, `created_by`, `objet`, and the Supabase branch of `saveDocument`. `Storage.ToStored` and `Storage.FromStored` model only the row contents that are written and read.
- The React provider, the `useEffect` localStorage mirroring, the seed tables, and the CRUD of other entities (suppliers, articles, bank accounts, discharges) are not modelled. They carry no engine logic.
- Clock and randomness are not modelled: the current year and the random draw of a generated reference are parameters.
- `calculateTotalTTC` and the 18.5% fallback rate use floating-point arithmetic and are not modelled. The ledger's integer TTC is modelled.
- `new Date(docInput.date).getFullYear()` and `startsWith(String(year))` are both taken as the `year` field of the date. Time zones are not modelled, and neither are years outside 1000-9999.
- Text.ParseInt: leading blanks and signs are not modelled. They never occur in references the engine writes.
- Traversal.Ancestors and Traversal.Descendants carry a step budget, set to the size of the collection. On a cycle of parent links the source's upward `while` loop never ends (`src/contexts/DataContext.tsx:3109-3117`). On a cycle of child links the recursive `addChildren` calls itself without bound until the stack overflows and a `RangeError` is thrown (`src/contexts/DataContext.tsx:3123-3133`). Neither behaviour is modelled: the budget ends both walks.
- Traversal.Descendants: the contract gives only membership and the empty case. The exact order of the walk is stated for the four-document chain by `Traversal.ChainDescendants`.
- Documents.Find: the first-match property is stated separately in `Documents.FindFirst`.
- The guarded operations and `saveDocument` read `state.documents` and write through `setState(s => …)`. Two calls in flight at once could therefore see different collections; two saves in flight would compute the same sequence from the same `state.documents` and issue the same number. The model is sequential, and every call sees the collection the previous one left.
- Numbering.NextSequence: sequences are JavaScript doubles in the source and unbounded naturals here. Above 2^53, `parseInt` loses precision and `max + 1` can equal `max`, and `String(seq)` switches to exponent notation from 10^21 on. The facts "strictly above every used sequence" and the freshness lemmas hold in the source only for sequences below 2^53.
- NextNumberIsFree: assumes `year >= 10` and `NoCenturyClash`. Without them the next number can already be taken, in the source as in the model (`Numbering.CenturyClashReissuesNumber`).
- SaveIssuesFreshNumber: assumes `NoCenturyClash` for the saved document's year, which must have at least two digits. The century collision shows the source issues a taken number otherwise.
- DeriveIssuesFreshNumber: assumes `year >= 10` and `NoCenturyClash` for the current year, for the same reason.
- Storage.MapDocumentType: names that are keys of `Object.prototype` are not modelled. They would make the record lookup return a non-string. The model sends every other name to `proforma`.
- The document header is not modelled field by field: client, address, city, due date, payment terms, `sourceId` and contract-order reference are grouped into one record. The engine only copies it.
