/** Python string whitespace, `str.strip()`, and the padding `int()` ignores. */
module Text {

  /** Python's `str.isspace` for one code point: the ASCII controls TAB..CR and
      FS..US, space, NEL, NO-BREAK SPACE and the Unicode space separators. */
  predicate IsWhitespace(c: char) {
    var n := c as int;
    (0x09 <= n <= 0x0D) || (0x1C <= n <= 0x20) || n == 0x85 || n == 0xA0 || n == 0x1680
    || (0x2000 <= n <= 0x200A) || n == 0x2028 || n == 0x2029 || n == 0x202F || n == 0x205F
    || n == 0x3000
  }

  /** Which characters count as padding. `str.strip()` removes every `str.isspace`
      character. `int()` skips ASCII space and TAB..CR and every non-ASCII
      `str.isspace` character, but not the separators FS..US (U+001C..U+001F): it
      maps non-ASCII spaces to ASCII ones and then skips only C's `isspace` set. */
  datatype Blanks = StrSpace | IntSpace

  predicate IsBlank(b: Blanks, c: char) {
    IsWhitespace(c) && (b.IntSpace? ==> !(0x1C <= c as int <= 0x1F))
  }

  /** Neither the first nor the last character is padding. */
  predicate NoOuterBlanks(b: Blanks, s: string) {
    |s| == 0 || (!IsBlank(b, s[0]) && !IsBlank(b, s[|s| - 1]))
  }

  /** How many padding characters `s` starts with. */
  function LeadingBlanks(b: Blanks, s: string): (n: nat)
    ensures n <= |s|
    ensures forall k :: 0 <= k < n ==> IsBlank(b, s[k])
    ensures n == |s| || !IsBlank(b, s[n])
  {
    if |s| == 0 || !IsBlank(b, s[0]) then 0 else 1 + LeadingBlanks(b, s[1..])
  }

  /** How many padding characters `s` ends with. */
  function TrailingBlanks(b: Blanks, s: string): (n: nat)
    ensures n <= |s|
    ensures forall k :: |s| - n <= k < |s| ==> IsBlank(b, s[k])
    ensures n == |s| || !IsBlank(b, s[|s| - n - 1])
  {
    if |s| == 0 || !IsBlank(b, s[|s| - 1]) then 0 else 1 + TrailingBlanks(b, s[..|s| - 1])
  }

  /** How many characters `Strip` removes from the front of `s`. */
  function StripStart(b: Blanks, s: string): nat {
    LeadingBlanks(b, s)
  }

  /** `s` without its leading and trailing padding; `Strip(StrSpace, s)` is
      `s.strip()`. The result is the slice of `s` starting at `StripStart(b, s)`,
      and everything of `s` outside that slice is padding. */
  function Strip(b: Blanks, s: string): (r: string)
    ensures NoOuterBlanks(b, r)
    ensures StripStart(b, s) + |r| <= |s| && r == s[StripStart(b, s)..StripStart(b, s) + |r|]
    ensures forall k :: 0 <= k < StripStart(b, s) ==> IsBlank(b, s[k])
    ensures forall k :: StripStart(b, s) + |r| <= k < |s| ==> IsBlank(b, s[k])
  {
    var i := LeadingBlanks(b, s);
    var j := |s| - TrailingBlanks(b, s[i..]);
    assert i == |s| ==> j == |s|;
    assert i < |s| ==> !IsBlank(b, s[i]) && j > i;
    s[i..j]
  }

  /** `Strip` changes a string exactly when it has padding at one of its ends. */
  lemma StripUnchanged(b: Blanks, s: string)
    ensures Strip(b, s) == s <==> NoOuterBlanks(b, s)
  {
    if NoOuterBlanks(b, s) && |s| > 0 {
      assert LeadingBlanks(b, s) == 0;
      assert TrailingBlanks(b, s) == 0;
    }
  }

  /** `Strip` removes only padding: every other character keeps its count. */
  lemma {:induction false} StripKeepsOthers(b: Blanks, s: string, c: char)
    requires !IsBlank(b, c)
    ensures multiset(Strip(b, s))[c] == multiset(s)[c]
  {
    var i := StripStart(b, s);
    var r := Strip(b, s);
    var j := i + |r|;
    assert s == s[..i] + r + s[j..];
    NoneOf(s[..i], c);
    NoneOf(s[j..], c);
    assert multiset(s) == multiset(s[..i]) + multiset(r) + multiset(s[j..]);
  }

  /** `StripKeepsOthers` for every non-padding character at once. */
  lemma StripKeepsAllOthers(b: Blanks, s: string)
    ensures forall c :: !IsBlank(b, c) ==> multiset(Strip(b, s))[c] == multiset(s)[c]
  {
    forall c | !IsBlank(b, c) {
      StripKeepsOthers(b, s, c);
    }
  }

  /** A character that occurs at no position of `s` has count zero in `s`. */
  lemma {:induction false} NoneOf(s: string, c: char)
    requires forall k :: 0 <= k < |s| ==> s[k] != c
    ensures multiset(s)[c] == 0
  {
    if |s| > 0 {
      assert s == [s[0]] + s[1..];
      NoneOf(s[1..], c);
      assert multiset(s) == multiset([s[0]]) + multiset(s[1..]);
    }
  }
}
