/** Decimal text for integers: Python's `str(n)` and `int(s)` (base 10, ASCII digits). */
module Decimal {
  import opened Wrappers
  import Seqs
  import Text

  predicate IsDigit(c: char) {
    '0' <= c <= '9'
  }

  predicate AllDigits(s: string) {
    forall k :: 0 <= k < |s| ==> IsDigit(s[k])
  }

  /** A digit string in the form `str` produces: non-empty, no leading zero unless it is "0". */
  predicate IsCanonical(s: string) {
    |s| > 0 && AllDigits(s) && (s[0] == '0' ==> |s| == 1)
  }

  function DigitValue(c: char): (d: nat)
    requires IsDigit(c)
    ensures d < 10
  {
    c as int - '0' as int
  }

  function DigitChar(d: nat): (c: char)
    requires d < 10
    ensures IsDigit(c) && DigitValue(c) == d
  {
    ('0' as int + d) as char
  }

  /** The number a string of ASCII digits denotes, most significant digit first. */
  function DigitsValue(s: string): nat
    requires AllDigits(s)
  {
    if |s| == 0 then 0 else DigitsValue(s[..|s| - 1]) * 10 + DigitValue(s[|s| - 1])
  }

  /** `str(n)` for a non-negative integer. */
  function NatToString(n: nat): (s: string)
    ensures IsCanonical(s)
    decreases n
  {
    if n < 10 then [DigitChar(n)] else NatToString(n / 10) + [DigitChar(n % 10)]
  }

  /** `str(v)` for any integer. */
  function IntToString(v: int): (s: string)
    ensures |s| > 0
    ensures v >= 0 <==> IsDigit(s[0])
  {
    if v < 0 then "-" + NatToString(-v) else NatToString(v)
  }

  lemma {:induction false} NatToStringValue(n: nat)
    ensures DigitsValue(NatToString(n)) == n
    decreases n
  {
    if n >= 10 {
      var s := NatToString(n);
      assert s[..|s| - 1] == NatToString(n / 10);
      NatToStringValue(n / 10);
    }
  }

  lemma {:induction false} LeadingNonZeroPositive(s: string)
    requires |s| > 0 && AllDigits(s) && s[0] != '0'
    ensures DigitsValue(s) > 0
    decreases |s|
  {
    if |s| > 1 {
      LeadingNonZeroPositive(s[..|s| - 1]);
    }
  }

  /** Reading a canonical digit string back and printing it gives the same string. */
  lemma {:induction false} CanonicalRoundTrip(s: string)
    requires IsCanonical(s)
    ensures NatToString(DigitsValue(s)) == s
    decreases |s|
  {
    if |s| > 1 {
      var init := s[..|s| - 1];
      LeadingNonZeroPositive(init);
      CanonicalRoundTrip(init);
      assert s == init + [s[|s| - 1]];
    }
  }

  /** `str` is injective on non-negative integers. */
  lemma NatToStringInjective(a: nat, b: nat)
    requires NatToString(a) == NatToString(b)
    ensures a == b
  {
    NatToStringValue(a);
    NatToStringValue(b);
  }

  /** The digit part of a Python integer literal: ASCII digits, where single
      underscores may separate two digits. */
  predicate IsDigitGroup(s: string) {
    && |s| > 0
    && IsDigit(s[0])
    && IsDigit(s[|s| - 1])
    && (forall k :: 0 <= k < |s| ==> IsDigit(s[k]) || s[k] == '_')
    && (forall k :: 0 <= k < |s| - 1 ==> s[k] == '_' ==> s[k + 1] != '_')
  }

  /** An optional sign followed by a digit group, already stripped of whitespace. */
  function ParseSignedDigits(t: string): (r: Option<int>)
    ensures r.Some? ==> exists k :: 0 <= k < |t| && IsDigit(t[k])
  {
    var signed := |t| > 0 && (t[0] == '-' || t[0] == '+');
    var body := if signed then t[1..] else t;
    if IsDigitGroup(body) then
      assert IsDigit(t[if signed then 1 else 0]);
      var v: int := DigitsValue(Seqs.Filter(IsDigit, body));
      Some(if signed && t[0] == '-' then -v else v)
    else
      None
  }

  /** Python's `int(s)` on a string, base 10: surrounding whitespace is ignored, an
      optional sign, then a digit group. `None` stands for the `ValueError` it raises. */
  function PyInt(s: string): (r: Option<int>)
    ensures r.Some? ==> exists k :: 0 <= k < |s| && IsDigit(s[k])
  {
    var t := Text.Strip(Text.IntSpace, s);
    var r := ParseSignedDigits(t);
    assert forall k :: 0 <= k < |t| ==> t[k] == s[Text.StripStart(Text.IntSpace, s) + k];
    r
  }

  /** `int()` does not skip the separators FS..US, which `str.strip` would remove:
      text starting with one of them is rejected. */
  lemma SeparatorRejected(s: string)
    requires |s| > 0 && 0x1C <= s[0] as int <= 0x1F
    ensures PyInt(s) == None
  {
    var t := Text.Strip(Text.IntSpace, s);
    assert Text.StripStart(Text.IntSpace, s) == 0;
    assert t[0] == s[0];
  }

  /** The printed form of an integer has no whitespace at either end. */
  lemma IntToStringUnpadded(v: int)
    ensures Text.Strip(Text.IntSpace, IntToString(v)) == IntToString(v)
  {
    var s := IntToString(v);
    assert IsDigit(s[|s| - 1]);
    assert !Text.IsBlank(Text.IntSpace, s[0]) && !Text.IsBlank(Text.IntSpace, s[|s| - 1]);
    assert Text.NoOuterBlanks(Text.IntSpace, s);
    Text.StripUnchanged(Text.IntSpace, s);
  }

  /** `int(str(n)) == n` on the digits alone. */
  lemma DigitGroupValue(n: nat)
    ensures IsDigitGroup(NatToString(n))
    ensures DigitsValue(Seqs.Filter(IsDigit, NatToString(n))) == n
  {
    var digits := NatToString(n);
    assert Seqs.All(IsDigit, digits);
    Seqs.FilterIdentity(IsDigit, digits);
    NatToStringValue(n);
  }

  lemma ParsePrinted(v: int)
    ensures ParseSignedDigits(IntToString(v)) == Some(v)
  {
    var s := IntToString(v);
    var n: nat := if v < 0 then -v else v;
    var digits := NatToString(n);
    DigitGroupValue(n);
    if v < 0 {
      assert s == "-" + digits && s[1..] == digits;
      assert s[0] == '-';
    } else {
      assert s == digits;
      assert s[0] != '-' && s[0] != '+';
    }
  }

  /** `int(str(v)) == v`. */
  lemma PyIntRoundTrip(v: int)
    ensures PyInt(IntToString(v)) == Some(v)
  {
    IntToStringUnpadded(v);
    ParsePrinted(v);
  }
}
