/**
 Decimal text as the engine builds and reads it: `String(n)` for a natural
 number, `padStart(width, '0')`, `slice(-2)`, `parseInt(s, 10)` and the last
 segment of `s.split('-')`.
 */
module Text {
  import opened Wrappers

  predicate IsDigit(c: char) {
    '0' <= c <= '9'
  }

  predicate AllDigits(s: string) {
    forall i | 0 <= i < |s| :: IsDigit(s[i])
  }

  predicate NoDash(s: string) {
    forall i | 0 <= i < |s| :: s[i] != '-'
  }

  function DigitValue(c: char): (d: nat)
    requires IsDigit(c)
    ensures d < 10
  {
    c as int - '0' as int
  }

  function DigitChar(d: nat): (c: char)
    requires d < 10
    ensures IsDigit(c) && DigitValue(c) == d
  {
    ('0' as int + d) as char
  }

  /** The number a string of decimal digits denotes (leading zeros allowed). */
  function DigitsValue(s: string): nat
    requires AllDigits(s)
  {
    if s == [] then 0 else DigitsValue(s[..|s| - 1]) * 10 + DigitValue(s[|s| - 1])
  }

  /** `String(n)`: the decimal rendering of `n`, without leading zeros. */
  function NatToString(n: nat): string
    decreases n
  {
    if n < 10 then [DigitChar(n)] else NatToString(n / 10) + [DigitChar(n % 10)]
  }

  /**
   The rendering of `n` is a non-empty digit string denoting `n`, one digit
   long exactly when `n < 10`, and without a leading zero when longer.
   */
  lemma {:induction false} NatToStringSpec(n: nat)
    ensures |NatToString(n)| >= 1 && AllDigits(NatToString(n))
    ensures DigitsValue(NatToString(n)) == n
    ensures n < 10 <==> |NatToString(n)| == 1
    ensures |NatToString(n)| >= 2 ==> NatToString(n)[0] != '0'
    decreases n
  {
    if n >= 10 {
      NatToStringSpec(n / 10);
      var s := NatToString(n);
      assert s[..|s| - 1] == NatToString(n / 10);
      assert s[0] == NatToString(n / 10)[0];
      if n / 10 < 10 {
        assert DigitValue(NatToString(n / 10)[0]) == n / 10;
      }
    }
  }

  /** A run of `k` zero characters. */
  function Zeros(k: nat): (z: string)
    ensures |z| == k
    ensures forall i | 0 <= i < k :: z[i] == '0'
  {
    seq(k, _ => '0')
  }

  /** `s.padStart(width, '0')`: zeros are added in front until `width` is reached; longer strings are kept. */
  function PadStart(s: string, width: nat): string {
    if |s| >= width then s else Zeros(width - |s|) + s
  }

  /** `s.slice(-2)`: the last two characters, or the whole string when it is shorter. */
  function LastTwo(s: string): string {
    if |s| >= 2 then s[|s| - 2..] else s
  }

  /** The longest prefix of `s` made of decimal digits. */
  function LeadingDigits(s: string): (r: string)
    ensures |r| <= |s| && r == s[..|r|]
    ensures AllDigits(r)
    ensures |r| < |s| ==> !IsDigit(s[|r|])
  {
    if s == [] || !IsDigit(s[0]) then []
    else
      var rest := LeadingDigits(s[1..]);
      assert s[1..][..|rest|] == s[1..|rest| + 1];
      [s[0]] + rest
  }

  /**
   `parseInt(s, 10)` on a string without sign or leading blanks: the value of the
   leading digits, whatever follows them, and `None` (JavaScript's `NaN`) when
   `s` does not start with one.
   */
  /** `s[..j]` is the whole run of digits `s` starts with: it is non-empty and `s[j]`, if any, is not a digit. */
  predicate DigitRunEnd(s: string, j: int) {
    0 < j <= |s| && AllDigits(s[..j]) && (j == |s| || !IsDigit(s[j]))
  }

  function ParseInt(s: string): (r: Option<nat>)
    ensures r.None? <==> (|s| == 0 || !IsDigit(s[0]))
    ensures AllDigits(s) && |s| > 0 ==> r == Some(DigitsValue(s))
    ensures forall j {:trigger DigitRunEnd(s, j)} | DigitRunEnd(s, j) :: r == Some(DigitsValue(s[..j]))
  {
    var digits := LeadingDigits(s);
    if digits == [] then None
    else
      assert AllDigits(s) ==> digits == s;
      Some(DigitsValue(digits))
  }

  /** `s.split('-').pop()`: everything after the last dash, or all of `s` when it has none. */
  function LastSegment(s: string): string {
    if s == [] || s[|s| - 1] == '-' then [] else LastSegment(s[..|s| - 1]) + [s[|s| - 1]]
  }

  /**
   The last segment is the longest dash-free suffix: it holds no dash, ends the
   string, and is either all of it or preceded by a dash.
   */
  lemma {:induction false} LastSegmentSpec(s: string)
    ensures NoDash(LastSegment(s))
    ensures |LastSegment(s)| <= |s| && LastSegment(s) == s[|s| - |LastSegment(s)|..]
    ensures |LastSegment(s)| < |s| ==> s[|s| - |LastSegment(s)| - 1] == '-'
  {
    if s != [] && s[|s| - 1] != '-' {
      var init := s[..|s| - 1];
      var t := LastSegment(init);
      LastSegmentSpec(init);
      var r := LastSegment(s);
      assert r == t + [s[|s| - 1]];
      assert s[|s| - |r|..] == init[|init| - |t|..] + [s[|s| - 1]];
      assert |r| < |s| ==> s[|s| - |r| - 1] == init[|init| - |t| - 1];
    }
  }

  /** Leading zeros do not change the value of a digit string. */
  lemma {:induction false} DigitsValueZeros(k: nat, s: string)
    requires AllDigits(s)
    ensures AllDigits(Zeros(k) + s)
    ensures DigitsValue(Zeros(k) + s) == DigitsValue(s)
    decreases |s|, k
  {
    var z := Zeros(k);
    if s == [] {
      assert z + s == z;
      if k > 0 {
        assert z[..k - 1] == Zeros(k - 1);
        DigitsValueZeros(k - 1, s);
        assert Zeros(k - 1) + s == Zeros(k - 1);
      }
    } else {
      var init := s[..|s| - 1];
      assert (z + s)[..|z + s| - 1] == z + init;
      DigitsValueZeros(k, init);
    }
  }

  /** Reading back a zero-padded rendering gives the number that was rendered. */
  lemma PadStartParses(n: nat, width: nat)
    ensures AllDigits(PadStart(NatToString(n), width))
    ensures ParseInt(PadStart(NatToString(n), width)) == Some(n)
    ensures |PadStart(NatToString(n), width)| >= width
  {
    var s := NatToString(n);
    NatToStringSpec(n);
    if |s| < width {
      DigitsValueZeros(width - |s|, s);
    }
    assert |PadStart(s, width)| >= width;
  }

  /** Padding a rendering to a positive width gives exactly that width, or the longer rendering with no leading zero. */
  lemma PadStartShape(n: nat, width: nat)
    requires width >= 1
    ensures |PadStart(NatToString(n), width)| == width || PadStart(NatToString(n), width)[0] != '0'
  {
    NatToStringSpec(n);
  }

  /** The last segment of `a + "-" + b` is `b` when `b` holds no dash. */
  lemma {:induction false} LastSegmentAfterDash(a: string, b: string)
    requires NoDash(b)
    ensures LastSegment(a + "-" + b) == b
    decreases |b|
  {
    var s := a + "-" + b;
    if b != [] {
      var init := b[..|b| - 1];
      assert s[..|s| - 1] == a + "-" + init;
      assert s[|s| - 1] == b[|b| - 1];
      LastSegmentAfterDash(a, init);
      assert init + [b[|b| - 1]] == b;
    }
  }

  /** The value of a two-digit string. */
  lemma TwoDigitsValue(s: string)
    requires |s| == 2 && AllDigits(s)
    ensures DigitsValue(s) == DigitValue(s[0]) * 10 + DigitValue(s[1])
    ensures DigitsValue(s) < 100
  {
    var first := s[..1];
    assert first[..0] == [];
    assert DigitsValue(first) == DigitValue(s[0]);
    assert s[..|s| - 1] == first;
  }

  /** A digit string holds no dash. */
  lemma DigitsHaveNoDash(s: string)
    requires AllDigits(s)
    ensures NoDash(s)
  {
  }
}
