/**
 Document numbering: the human id `N°<prefix><yy><sequence>` and the raw
 reference `<year>-<sequence>` of a document, the next free sequence number
 for a type and year, and the numbering part of saving a new document.
 */
module Numbering {
  import opened Wrappers
  import opened Text
  import opened Documents

  /** The letters that open a document number for each type. */
  function Prefix(t: DocType): string {
    match t
    case Proforma => "D"
    case Delivery => "BL"
    case Order => "CMD"
    case Invoice => "F"
    case Contract => "DOC"
  }

  /** `String(year).slice(-2)`. */
  function YearSuffix(year: nat): string {
    LastTwo(NatToString(year))
  }

  /**
   `formatNumberNew`: the human id of the `sequence`-th document of type `t` in
   `year`. It opens with `N°` and the type prefix; for a year of at least two
   digits, at least seven digits follow, the first two spelling the year modulo
   100 and the rest the sequence, zero-padded to five digits and never longer
   than that with a leading zero.
   */
  function FormatNumber(t: DocType, year: nat, sequence: nat): (r: string)
    ensures |r| >= 2 + |Prefix(t)| && r[..2 + |Prefix(t)|] == "N°" + Prefix(t)
    ensures year >= 10 ==> var body := r[2 + |Prefix(t)|..];
      && |body| >= 7 && AllDigits(body)
      && AllDigits(body[..2]) && DigitsValue(body[..2]) == year % 100
      && AllDigits(body[2..]) && DigitsValue(body[2..]) == sequence
      && (|body| == 7 || body[2] != '0')
  {
    var body := YearSuffix(year) + PadStart(NatToString(sequence), 5);
    NumberDigits(year, sequence);
    var r := "N°" + Prefix(t) + body;
    assert r[2 + |Prefix(t)|..] == body;
    r
  }

  /** The seventh invoice of 2025 is `N°F2500007`, with raw reference `2025-0007`. */
  lemma FormatNumberExample()
    ensures FormatNumber(Invoice, 2025, 7) == "N°F2500007"
    ensures Reference(2025, 7) == "2025-0007"
  {
    CenturyYears();
    SevenPadded();
    FormatNumberSpelled(Invoice, 2025, 7, "25", "00007");
    ReferenceSpelled(2025, 7, "2025", "0007");
    SpelledLiterals();
  }

  /** The literal spellings the examples put together. */
  lemma SpelledLiterals()
    ensures "N°" + "F" + "25" + "00007" == "N°F2500007"
    ensures "2025" + "-" + "0007" == "2025-0007"
    ensures "N°" + "F" + "25" + "00001" == "N°F2500001"
    ensures "1925" + "-" + "0001" == "1925-0001"
  {
  }

  /** `String(7)` padded to five and to four digits. */
  lemma SevenPadded()
    ensures PadStart(NatToString(7), 5) == "00007" && PadStart(NatToString(7), 4) == "0007"
  {
    assert NatToString(7) == "7";
  }

  /** A number spelled from its year suffix and padded sequence. */
  lemma FormatNumberSpelled(t: DocType, year: nat, sequence: nat, ys: string, ps: string)
    requires YearSuffix(year) == ys && PadStart(NatToString(sequence), 5) == ps
    ensures FormatNumber(t, year, sequence) == "N°" + Prefix(t) + ys + ps
  {
  }

  /** A reference spelled from its year and padded sequence. */
  lemma ReferenceSpelled(year: nat, sequence: nat, y: string, ps: string)
    requires NatToString(year) == y && PadStart(NatToString(sequence), 4) == ps
    ensures Reference(year, sequence) == y + "-" + ps
  {
  }

  /** What a document number says: its type, the last two digits of its year and its sequence. */
  datatype NumberParts = NumberParts(docType: DocType, yearSuffix: nat, sequence: nat)

  /** The type whose prefix opens `s` (a `D` followed by `OC` is a contract, not a quote). */
  function PrefixType(s: string): Option<DocType> {
    if |s| == 0 then None
    else if s[0] == 'D' then (if |s| >= 3 && s[1] == 'O' && s[2] == 'C' then Some(Contract) else Some(Proforma))
    else if s[0] == 'C' then (if |s| >= 3 && s[1] == 'M' && s[2] == 'D' then Some(Order) else None)
    else if s[0] == 'B' then (if |s| >= 2 && s[1] == 'L' then Some(Delivery) else None)
    else if s[0] == 'F' then Some(Invoice)
    else None
  }

  /**
   Reads a document number back: `N°`, a type prefix, two year digits and at
   least five sequence digits.
   */
  function DecodeNumber(id: string): (r: Option<NumberParts>)
    ensures r.Some? ==> r.value.yearSuffix < 100
  {
    if |id| < 2 || id[..2] != "N°" then None
    else
      var rest := id[2..];
      match PrefixType(rest)
      case None => None
      case Some(t) =>
        if |rest| < |Prefix(t)| then None
        else
        var body := rest[|Prefix(t)|..];
        if |body| < 7 || !AllDigits(body) then None
        else
          assert AllDigits(body[..2]) && AllDigits(body[2..]);
          var yy := DigitsValue(body[..2]);
          TwoDigitsValue(body[..2]);
          Some(NumberParts(t, yy, DigitsValue(body[2..])))
  }

  /** The last character of `String(m)` is the last decimal digit of `m`. */
  lemma NatToStringLast(m: nat)
    ensures NatToString(m)[|NatToString(m)| - 1] == DigitChar(m % 10)
  {
  }

  /** The last two decimal digits of `y` are those of `y % 100`. */
  lemma LastTwoDigits(y: nat)
    ensures y % 100 == (y / 10 % 10) * 10 + y % 10
  {
  }

  /** For a year of at least two digits, `String(year).slice(-2)` spells `year % 100`. */
  lemma YearSuffixDigits(year: nat)
    requires year >= 10
    ensures |YearSuffix(year)| == 2 && AllDigits(YearSuffix(year))
    ensures DigitsValue(YearSuffix(year)) == year % 100
  {
    var s := NatToString(year);
    assert s == NatToString(year / 10) + [DigitChar(year % 10)];
    NatToStringLast(year / 10);
    var ys := YearSuffix(year);
    assert ys == [DigitChar(year / 10 % 10), DigitChar(year % 10)];
    TwoDigitsValue(ys);
    LastTwoDigits(year);
  }

  /** The sequence digits of a number: at least five, reading back as `sequence`. */
  lemma SequenceDigits(sequence: nat)
    ensures |PadStart(NatToString(sequence), 5)| >= 5
    ensures AllDigits(PadStart(NatToString(sequence), 5))
    ensures DigitsValue(PadStart(NatToString(sequence), 5)) == sequence
  {
    PadStartParses(sequence, 5);
    assert |PadStart(NatToString(sequence), 5)| >= 5;
  }

  /** `N°`, a type prefix and a run of at least seven digits decode to that type and those digits. */
  lemma DecodeParts(t: DocType, body: string)
    requires |body| >= 7 && AllDigits(body)
    ensures AllDigits(body[..2]) && AllDigits(body[2..])
    ensures DecodeNumber("N°" + Prefix(t) + body) == Some(NumberParts(t, DigitsValue(body[..2]), DigitsValue(body[2..])))
  {
    var id := "N°" + Prefix(t) + body;
    assert id[..2] == "N°";
    var rest := id[2..];
    assert rest == Prefix(t) + body;
    assert IsDigit(body[0]);
    assert PrefixType(rest) == Some(t) by {
      match t
      case Proforma => assert rest[0] == 'D' && rest[1] == body[0];
      case Delivery => assert rest[0] == 'B' && rest[1] == 'L';
      case Order => assert rest[0] == 'C' && rest[1] == 'M' && rest[2] == 'D';
      case Contract => assert rest[0] == 'D' && rest[1] == 'O' && rest[2] == 'C';
      case Invoice => assert rest[0] == 'F';
    }
    assert rest[|Prefix(t)|..] == body;
  }

  /** The digits after the prefix: two for the year, then at least five for the sequence. */
  lemma NumberDigits(year: nat, sequence: nat)
    ensures year >= 10 ==> var body := YearSuffix(year) + PadStart(NatToString(sequence), 5);
      && |body| >= 7 && AllDigits(body)
      && AllDigits(body[..2]) && DigitsValue(body[..2]) == year % 100
      && AllDigits(body[2..]) && DigitsValue(body[2..]) == sequence
      && (|body| == 7 || body[2] != '0')
  {
    if year >= 10 {
      var ys := YearSuffix(year);
      var ps := PadStart(NatToString(sequence), 5);
      YearSuffixDigits(year);
      SequenceDigits(sequence);
      PadStartShape(sequence, 5);
      var body := ys + ps;
      assert body[..2] == ys && body[2..] == ps;
    }
  }

  /** Decoding a formatted number gives back its type, year suffix and sequence. */
  lemma FormatNumberDecodes(t: DocType, year: nat, sequence: nat)
    requires year >= 10
    ensures DecodeNumber(FormatNumber(t, year, sequence)) == Some(NumberParts(t, year % 100, sequence))
  {
    var body := YearSuffix(year) + PadStart(NatToString(sequence), 5);
    assert FormatNumber(t, year, sequence) == "N°" + Prefix(t) + body;
    NumberDigits(year, sequence);
    DecodeParts(t, body);
  }

  /** A document number determines its type, its year modulo 100 and its sequence. */
  lemma FormatNumberInjective(t1: DocType, y1: nat, s1: nat, t2: DocType, y2: nat, s2: nat)
    requires y1 >= 10 && y2 >= 10
    requires FormatNumber(t1, y1, s1) == FormatNumber(t2, y2, s2)
    ensures t1 == t2 && y1 % 100 == y2 % 100 && s1 == s2
  {
    FormatNumberDecodes(t1, y1, s1);
    FormatNumberDecodes(t2, y2, s2);
  }

  /**
   The raw reference `<year>-<sequence padded to four digits>` of
   `saveDocument`: it opens with the year and a dash; the digits after the
   dash spell the sequence, zero-padded to four digits and never longer than
   that with a leading zero; and the numbering reads the sequence back from it.
   */
  function Reference(year: nat, sequence: nat): (r: string)
    ensures |r| > |NatToString(year)| && r[..|NatToString(year)| + 1] == NatToString(year) + "-"
    ensures var tail := r[|NatToString(year)| + 1..];
      && |tail| >= 4 && AllDigits(tail) && DigitsValue(tail) == sequence
      && (|tail| == 4 || tail[0] != '0')
    ensures SequenceOf(r) == Some(sequence)
  {
    var ps := PadStart(NatToString(sequence), 4);
    PadStartParses(sequence, 4);
    PadStartShape(sequence, 4);
    DigitsHaveNoDash(ps);
    LastSegmentAfterDash(NatToString(year), ps);
    var r := NatToString(year) + "-" + ps;
    assert r[|NatToString(year)| + 1..] == ps;
    r
  }

  /**
   `parseInt(reference.split('-').pop() || '0', 10)`: the sequence written after
   the last dash of a reference, an empty segment reading as 0, `None` when the
   segment does not start with a digit.
   */
  function SequenceOf(reference: string): (r: Option<nat>)
    ensures r.None? <==> LastSegment(reference) != "" && !IsDigit(LastSegment(reference)[0])
    ensures LastSegment(reference) == "" ==> r == Some(0)
    ensures var seg := LastSegment(reference);
      forall j {:trigger DigitRunEnd(seg, j)} | DigitRunEnd(seg, j) :: r == Some(DigitsValue(seg[..j]))
  {
    var segment := LastSegment(reference);
    assert AllDigits("0") && DigitsValue("0") == 0 by { assert "0"[..0] == ""; }
    ParseInt(if segment == "" then "0" else segment)
  }

  /** `d.type === type && d.date.startsWith(String(year))`. */
  predicate Counts(d: Document, t: DocType, year: nat) {
    d.docType == t && d.date.year == year
  }

  /** The sequence a document contributes to the numbering of `t` in `year`, if any. */
  function Contribution(d: Document, t: DocType, year: nat): Option<nat> {
    if Counts(d, t, year) then SequenceOf(d.reference) else None
  }

  /** Some document of `docs` contributes the sequence `k` to the numbering of `t` in `year`. */
  predicate Uses(docs: seq<Document>, t: DocType, year: nat, k: nat) {
    exists i | 0 <= i < |docs| :: Contribution(docs[i], t, year) == Some(k)
  }

  /** Every sequence `docs` contributes to the numbering of `t` in `year` is below `bound`. */
  predicate AllBelow(docs: seq<Document>, t: DocType, year: nat, bound: nat) {
    forall i | 0 <= i < |docs| && Contribution(docs[i], t, year).Some? :: Contribution(docs[i], t, year).value < bound
  }

  /** The largest sequence already used for `t` in `year`, 0 when there is none. */
  function MaxSequence(docs: seq<Document>, t: DocType, year: nat): (m: nat)
    ensures AllBelow(docs, t, year, m + 1)
    ensures m == 0 || Uses(docs, t, year, m)
  {
    if docs == [] then 0
    else
      var rest := MaxSequence(docs[1..], t, year);
      var c := Contribution(docs[0], t, year);
      var m := if c.Some? && c.value > rest then c.value else rest;
      assert forall i | 1 <= i < |docs| :: docs[i] == docs[1..][i - 1];
      assert m == rest && rest != 0 ==> Uses(docs, t, year, m) by {
        if m == rest && rest != 0 {
          var i :| 0 <= i < |docs[1..]| && Contribution(docs[1..][i], t, year) == Some(rest);
          assert docs[i + 1] == docs[1..][i];
        }
      }
      m
  }

  /**
   `nextSequence`: one more than the largest sequence among the documents of
   type `t` dated in `year`; unreadable references are skipped.
   */
  function NextSequence(docs: seq<Document>, t: DocType, year: nat): (n: nat)
    ensures n >= 1
    ensures AllBelow(docs, t, year, n)
    ensures n == 1 || Uses(docs, t, year, n - 1)
  {
    var m := MaxSequence(docs, t, year);
    assert AllBelow(docs, t, year, m + 1);
    assert m == 0 || Uses(docs, t, year, m);
    m + 1
  }

  /** `saveDocument` (local path): number a new document by its own date and put it first. */
  function SaveDocument(docs: seq<Document>, input: Document): (r: (seq<Document>, Document))
    ensures r.0 == [r.1] + docs
    ensures r.1 == input.(id := r.1.id, reference := r.1.reference, payments := [])
    ensures var s := NextSequence(docs, input.docType, input.date.year);
      && r.1.id == FormatNumber(input.docType, input.date.year, s)
      && r.1.reference == Reference(input.date.year, s)
      && SequenceOf(r.1.reference) == Some(s)
  {
    var year := input.date.year;
    var sequence := NextSequence(docs, input.docType, year);
    var doc := input.(id := FormatNumber(input.docType, year, sequence), reference := Reference(year, sequence), payments := []);
    ([doc] + docs, doc)
  }

  /** Documents with the same contributions get the same largest sequence. */
  lemma {:induction false} MaxSequenceAgrees(a: seq<Document>, b: seq<Document>, t: DocType, year: nat)
    requires |a| == |b|
    requires forall i | 0 <= i < |a| :: Contribution(a[i], t, year) == Contribution(b[i], t, year)
    ensures MaxSequence(a, t, year) == MaxSequence(b, t, year)
    decreases |a|
  {
    if a != [] {
      MaxSequenceAgrees(a[1..], b[1..], t, year);
    }
  }

  /** Replacing documents by one that contributes the same sequence leaves the largest sequence alone. */
  lemma ReplaceKeepsMax(docs: seq<Document>, id: string, v: Document, t: DocType, year: nat)
    requires forall i | 0 <= i < |docs| && docs[i].id == id :: Contribution(docs[i], t, year) == Contribution(v, t, year)
    ensures MaxSequence(Replace(docs, id, v), t, year) == MaxSequence(docs, t, year)
  {
    MaxSequenceAgrees(Replace(docs, id, v), docs, t, year);
  }

  /** Putting a document in front raises the next sequence only when its own sequence reaches it. */
  lemma NextSequencePrepend(d: Document, docs: seq<Document>, t: DocType, year: nat)
    ensures var c := Contribution(d, t, year);
      NextSequence([d] + docs, t, year) == if c.Some? && c.value >= NextSequence(docs, t, year) then c.value + 1 else NextSequence(docs, t, year)
  {
    assert ([d] + docs)[1..] == docs;
  }

  /** A new document that does not count for `t` in `year` leaves its numbering alone. */
  lemma NextSequenceSkipsOthers(d: Document, docs: seq<Document>, t: DocType, year: nat)
    requires !Counts(d, t, year)
    ensures NextSequence([d] + docs, t, year) == NextSequence(docs, t, year)
  {
    assert ([d] + docs)[1..] == docs;
  }

  /** Saving a document raises the next sequence of its type and year by exactly one. */
  lemma NextSequenceAfterSave(docs: seq<Document>, input: Document)
    ensures var t := input.docType; var y := input.date.year;
      NextSequence(SaveDocument(docs, input).0, t, y) == NextSequence(docs, t, y) + 1
  {
    var r := SaveDocument(docs, input);
    var t := input.docType;
    var y := input.date.year;
    var s := NextSequence(docs, t, y);
    assert Contribution(r.1, t, y) == Some(s);
    assert r.0[1..] == docs;
    assert MaxSequence(r.0, t, y) == s;
  }

  /** A document whose id is the number its own type, date and reference call for. */
  predicate WellNumbered(d: Document) {
    && d.date.year >= 10
    && SequenceOf(d.reference).Some?
    && d.id == FormatNumber(d.docType, d.date.year, SequenceOf(d.reference).value)
  }

  predicate AllWellNumbered(docs: seq<Document>) {
    forall i | 0 <= i < |docs| :: WellNumbered(docs[i])
  }

  /** No stored document is dated a whole number of centuries away from `year`. */
  predicate NoCenturyClash(docs: seq<Document>, year: nat) {
    forall i | 0 <= i < |docs| :: docs[i].date.year % 100 == year % 100 ==> docs[i].date.year == year
  }

  /** Replacing documents by a well-numbered one keeps the store consistently numbered. */
  lemma ReplaceKeepsNumbering(docs: seq<Document>, id: string, v: Document)
    requires AllWellNumbered(docs) && WellNumbered(v)
    ensures AllWellNumbered(Replace(docs, id, v))
  {
    ReplaceAll(WellNumbered, docs, id, v);
  }

  /**
   In a store where every document carries the number its type, date and
   reference call for, saving a document issues a number no stored document
   has, and the store keeps that property.
   */
  lemma SaveIssuesFreshNumber(docs: seq<Document>, input: Document)
    requires AllWellNumbered(docs) && UniqueIds(docs)
    requires input.date.year >= 10 && NoCenturyClash(docs, input.date.year)
    ensures var r := SaveDocument(docs, input);
      IdFree(docs, r.1.id) && UniqueIds(r.0) && AllWellNumbered(r.0)
  {
    var r := SaveDocument(docs, input);
    NextNumberIsFree(docs, input.docType, input.date.year);
    PrependFresh(r.1, docs, docs);
    assert WellNumbered(r.1);
    PrependKeepsNumbering(r.1, docs);
  }

  /** Putting a well-numbered document in front keeps the store consistently numbered. */
  lemma PrependKeepsNumbering(d: Document, docs: seq<Document>)
    requires WellNumbered(d) && AllWellNumbered(docs)
    ensures AllWellNumbered([d] + docs)
  {
    PrependAll(WellNumbered, d, docs);
  }

  /**
   In a store where every document carries the number its type, date and
   reference call for, the next number of any type and year is free.
   */
  lemma NextNumberIsFree(docs: seq<Document>, t: DocType, year: nat)
    requires AllWellNumbered(docs)
    requires year >= 10 && NoCenturyClash(docs, year)
    ensures IdFree(docs, FormatNumber(t, year, NextSequence(docs, t, year)))
  {
    var s := NextSequence(docs, t, year);
    forall i | 0 <= i < |docs|
      ensures docs[i].id != FormatNumber(t, year, s)
    {
      NumberDiffers(docs[i], t, year, s);
    }
  }

  /** Two years of at least two digits with the same last two digits share their suffix. */
  lemma YearSuffixCentury(y1: nat, y2: nat)
    requires y1 >= 10 && y2 >= 10 && y1 % 100 == y2 % 100
    ensures YearSuffix(y1) == YearSuffix(y2)
  {
    var a := YearSuffix(y1);
    var b := YearSuffix(y2);
    YearSuffixDigits(y1);
    YearSuffixDigits(y2);
    TwoDigitsValue(a);
    TwoDigitsValue(b);
    assert DigitValue(a[1]) == DigitValue(b[1]) && DigitValue(a[0]) == DigitValue(b[0]);
    assert a == [a[0], a[1]] && b == [b[0], b[1]];
  }

  /**
   The century collision: the number keeps only the last two digits of the
   year while the counter filters on the whole year, so in a well-numbered
   store holding the first document of a year a century away, the first number
   of `year` is already taken. Freshness therefore needs `NoCenturyClash`.
   */
  lemma CenturyClashReissuesNumber(d: Document, year: nat)
    requires WellNumbered(d) && SequenceOf(d.reference) == Some(1)
    requires year >= 10 && d.date.year != year && d.date.year % 100 == year % 100
    ensures AllWellNumbered([d]) && UniqueIds([d]) && !NoCenturyClash([d], year)
    ensures NextSequence([d], d.docType, year) == 1
    ensures !IdFree([d], FormatNumber(d.docType, year, NextSequence([d], d.docType, year)))
  {
    var t := d.docType;
    NextSequenceSkipsOthers(d, [], t, year);
    assert [d] + [] == [d];
    YearSuffixCentury(d.date.year, year);
    var ps := PadStart(NatToString(1), 5);
    FormatNumberSpelled(t, year, 1, YearSuffix(year), ps);
    FormatNumberSpelled(t, d.date.year, 1, YearSuffix(year), ps);
    assert [d][0] == d;
  }

  /** The renderings the century example needs: 1925 and 2025 share the number `N°F2500001`. */
  lemma CenturyClashStrings()
    ensures Reference(1925, 1) == "1925-0001"
    ensures FormatNumber(Invoice, 1925, 1) == "N°F2500001"
    ensures FormatNumber(Invoice, 2025, 1) == "N°F2500001"
  {
    CenturyYears();
    OnePadded();
    FormatNumberSpelled(Invoice, 1925, 1, "25", "00001");
    FormatNumberSpelled(Invoice, 2025, 1, "25", "00001");
    ReferenceSpelled(1925, 1, "1925", "0001");
    SpelledLiterals();
  }

  /** `String(1)` padded to five and to four digits. */
  lemma OnePadded()
    ensures PadStart(NatToString(1), 5) == "00001" && PadStart(NatToString(1), 4) == "0001"
  {
    assert NatToString(1) == "1";
  }

  /** `String(1925)` and `String(2025)`. */
  lemma CenturyYears()
    ensures NatToString(1925) == "1925" && NatToString(2025) == "2025"
    ensures YearSuffix(1925) == "25" && YearSuffix(2025) == "25"
  {
    assert NatToString(1925) == "1925" by {
      assert NatToString(19) == "19";
      assert NatToString(192) == "192";
    }
    assert NatToString(2025) == "2025" by {
      assert NatToString(20) == "20";
      assert NatToString(202) == "202";
    }
  }

  /**
   An invoice of 1925 numbered `N°F2500001` is well numbered, yet the first
   invoice number of 2025 is that same `N°F2500001`.
   */
  lemma CenturyClashExample()
    ensures var d := Document("N°F2500001", Invoice, "1925-0001", Date(1925, 1, 1),
                              Header("", None, None, None, None, None, None), 18, [], Pending, [],
                              None, None, [], None, None);
      && WellNumbered(d) && NextSequence([d], Invoice, 2025) == 1
      && FormatNumber(Invoice, 2025, 1) == d.id
  {
    CenturyClashStrings();
    var d := Document("N°F2500001", Invoice, "1925-0001", Date(1925, 1, 1),
                      Header("", None, None, None, None, None, None), 18, [], Pending, [],
                      None, None, [], None, None);
    assert SequenceOf(d.reference) == Some(1);
    CenturyClashReissuesNumber(d, 2025);
  }

  /**
   A well-numbered document whose sequence lies below `sequence` (when it
   counts for `t` in `year` at all) does not carry the number `sequence` would get.
   */
  lemma NumberDiffers(d: Document, t: DocType, year: nat, sequence: nat)
    requires WellNumbered(d) && year >= 10
    requires d.date.year % 100 == year % 100 ==> d.date.year == year
    requires Contribution(d, t, year).Some? ==> Contribution(d, t, year).value < sequence
    ensures d.id != FormatNumber(t, year, sequence)
  {
    if d.id == FormatNumber(t, year, sequence) {
      FormatNumberInjective(d.docType, d.date.year, SequenceOf(d.reference).value, t, year, sequence);
      assert false;
    }
  }
}
