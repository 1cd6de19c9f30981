/** The download name of a customised product QR code: the product name reduced to
    a safe character class, trimmed, and wrapped as `QR_<name>.png` inside a
    `Content-Disposition` header value. */
module Filename {
  import opened Wrappers
  import opened Text
  import Seqs

  /** A character kept in the file name: alphanumeric (as judged by `alnum`, which
      stands for Python's `str.isalnum`), a space, a hyphen or an underscore. */
  predicate Kept(alnum: char -> bool, c: char) {
    alnum(c) || c == ' ' || c == '-' || c == '_'
  }

  predicate AllKept(alnum: char -> bool, s: string) {
    forall k :: 0 <= k < |s| ==> Kept(alnum, s[k])
  }

  /** A name the sanitiser leaves alone: only kept characters, nothing to trim. */
  predicate IsClean(alnum: char -> bool, s: string) {
    AllKept(alnum, s) && NoOuterBlanks(StrSpace, s)
  }

  /** Unicode letters and digits are neither whitespace nor a double quote; this is
      all the header property needs to know about `str.isalnum`. */
  predicate SensibleAlnum(alnum: char -> bool) {
    forall c :: alnum(c) ==> !IsWhitespace(c) && c != '"'
  }

  /** `str.isalnum` restricted to ASCII: the letters and the digits. */
  predicate AsciiAlnum(c: char) {
    ('a' <= c <= 'z') || ('A' <= c <= 'Z') || ('0' <= c <= '9')
  }

  /** The product name with every character dropped that is not alphanumeric, a
      space, a hyphen or an underscore; the survivors keep their order. */
  function KeptChars(alnum: char -> bool, name: string): (r: string)
    ensures AllKept(alnum, r)
    ensures |r| <= |name|
  {
    Seqs.Filter(c => Kept(alnum, c), name)
  }

  /** Nothing allowed is lost: each kept character occurs as often as in the
      name, each other character not at all. */
  lemma KeptCharsCounts(alnum: char -> bool, name: string)
    ensures forall c :: multiset(KeptChars(alnum, name))[c] == if Kept(alnum, c) then multiset(name)[c] else 0
  {
    Seqs.FilterCounts(c => Kept(alnum, c), name);
  }

  /** Filtering distributes over concatenation, so the kept characters stay in the
      name's order: those of a front part come before those of the rest. */
  lemma KeptCharsAppend(alnum: char -> bool, a: string, b: string)
    ensures KeptChars(alnum, a + b) == KeptChars(alnum, a) + KeptChars(alnum, b)
  {
    Seqs.FilterAppend(c => Kept(alnum, c), a, b);
  }

  /** The sanitised product name: the kept characters, then `.strip()`. */
  function CleanName(alnum: char -> bool, name: string): (r: string)
    ensures AllKept(alnum, r)
    ensures NoOuterBlanks(StrSpace, r)
    ensures |r| <= |name|
  {
    var kept := KeptChars(alnum, name);
    var r := Strip(StrSpace, kept);
    StripKeepsClass(alnum, kept);
    r
  }

  /** Apart from the whitespace trimmed at the ends, every kept character survives
      sanitising as often as it occurs in the name, and nothing else does. */
  lemma CleanNameCounts(alnum: char -> bool, name: string)
    ensures forall c :: !IsWhitespace(c) ==>
              multiset(CleanName(alnum, name))[c] == if Kept(alnum, c) then multiset(name)[c] else 0
  {
    KeptCharsCounts(alnum, name);
    StripKeepsAllOthers(StrSpace, KeptChars(alnum, name));
  }

  /** Sanitising only trims the ends: the result is one contiguous run of the kept
      characters, and everything kept before or after that run is whitespace. With
      `KeptCharsCounts` and `KeptCharsAppend`, which fix the kept characters, this
      fixes the sanitised name, interior spaces included. */
  lemma CleanNameTrimsOnlyEnds(alnum: char -> bool, name: string)
    ensures var kept := KeptChars(alnum, name);
            var i := StripStart(StrSpace, kept);
            var r := CleanName(alnum, name);
            && i + |r| <= |kept| && r == kept[i..i + |r|]
            && (forall k :: 0 <= k < i ==> IsWhitespace(kept[k]))
            && (forall k :: i + |r| <= k < |kept| ==> IsWhitespace(kept[k]))
  {
  }

  /** Sanitising leaves a name unchanged exactly when the name is already clean. */
  lemma CleanNameUnchanged(alnum: char -> bool, name: string)
    ensures CleanName(alnum, name) == name <==> IsClean(alnum, name)
  {
    var kept := KeptChars(alnum, name);
    Seqs.FilterIdentity(c => Kept(alnum, c), name);
    StripUnchanged(StrSpace, kept);
    if IsClean(alnum, name) {
      assert Seqs.All(c => Kept(alnum, c), name);
    }
  }

  /** The sanitised name is the product name with characters deleted: nothing is
      added, replaced or reordered. */
  lemma CleanNameIsSubsequence(alnum: char -> bool, name: string)
    ensures Seqs.IsSubsequence(CleanName(alnum, name), name)
  {
    var kept := KeptChars(alnum, name);
    var r := CleanName(alnum, name);
    Seqs.FilterIsSubsequence(c => Kept(alnum, c), name);
    Seqs.SliceIsSubsequence(kept, StripStart(StrSpace, kept), StripStart(StrSpace, kept) + |r|);
    Seqs.SubsequenceTransitive(r, kept, name);
  }

  lemma StripKeepsClass(alnum: char -> bool, s: string)
    requires AllKept(alnum, s)
    ensures AllKept(alnum, Strip(StrSpace, s))
  {
    var i := StripStart(StrSpace, s);
    var r := Strip(StrSpace, s);
    forall k | 0 <= k < |r|
      ensures Kept(alnum, r[k])
    {
      assert r[k] == s[i + k];
    }
  }

  const FilePrefix: string := "QR_"
  const FileSuffix: string := ".png"

  /** The attachment file name: the sanitised name between the `QR_` prefix and the
      `.png` extension. */
  function AttachmentFilename(alnum: char -> bool, name: string): (f: string)
    ensures |f| == |CleanName(alnum, name)| + 7
    ensures f[..3] == FilePrefix && f[|f| - 4..] == FileSuffix
    ensures f[3..|f| - 4] == CleanName(alnum, name)
  {
    FilePrefix + CleanName(alnum, name) + FileSuffix
  }

  const DispositionPrefix: string := "attachment; filename=\""

  /** The `Content-Disposition` header value for a file name. */
  function ContentDisposition(filename: string): (h: string)
    ensures |h| == |DispositionPrefix| + |filename| + 1
    ensures h[..|DispositionPrefix|] == DispositionPrefix && h[|h| - 1] == '"'
    ensures h[|DispositionPrefix|..|h| - 1] == filename
  {
    DispositionPrefix + filename + "\""
  }

  /** How a client reads the file name back out of the header: the text between the
      opening quote and the header's final character, which must be the only other quote. */
  function ParseDisposition(header: string): (r: Option<string>)
    ensures r.Some? ==> '"' !in r.value
  {
    var n := |DispositionPrefix|;
    if |header| > n && header[..n] == DispositionPrefix && header[|header| - 1] == '"'
       && '"' !in header[n..|header| - 1]
    then Some(header[n..|header| - 1])
    else None
  }

  /** No character that would end the quoted file name or the header line. */
  predicate SafeInQuotes(s: string) {
    forall k :: 0 <= k < |s| ==> s[k] != '"' && s[k] != '\r' && s[k] != '\n'
  }

  lemma KeptIsSafe(alnum: char -> bool, s: string)
    requires SensibleAlnum(alnum) && AllKept(alnum, s)
    ensures SafeInQuotes(s)
  {
    forall k | 0 <= k < |s|
      ensures s[k] != '"' && s[k] != '\r' && s[k] != '\n'
    {
      assert Kept(alnum, s[k]);
      assert IsWhitespace('\r') && IsWhitespace('\n');
    }
  }

  lemma SafeAppend(a: string, b: string)
    requires SafeInQuotes(a) && SafeInQuotes(b)
    ensures SafeInQuotes(a + b)
  {
  }

  lemma AffixesSafe()
    ensures SafeInQuotes(FilePrefix) && SafeInQuotes(FileSuffix)
  {
  }

  lemma AttachmentFilenameSafe(alnum: char -> bool, name: string)
    requires SensibleAlnum(alnum)
    ensures SafeInQuotes(AttachmentFilename(alnum, name))
  {
    var clean := CleanName(alnum, name);
    KeptIsSafe(alnum, clean);
    AffixesSafe();
    SafeAppend(FilePrefix, clean);
    SafeAppend(FilePrefix + clean, FileSuffix);
  }

  lemma DispositionRoundTrip(f: string)
    requires SafeInQuotes(f)
    ensures ParseDisposition(ContentDisposition(f)) == Some(f)
  {
    var h := ContentDisposition(f);
    assert h[..|DispositionPrefix|] == DispositionPrefix;
    assert h[|DispositionPrefix|..|h| - 1] == f;
    assert '"' !in f;
  }

  /** Nothing in a product name can break out of the quoted file name or end the
      header line: for every name, the header parses back to exactly the
      attachment file name. */
  lemma HeaderRoundTrip(alnum: char -> bool, name: string)
    requires SensibleAlnum(alnum)
    ensures SafeInQuotes(AttachmentFilename(alnum, name))
    ensures ParseDisposition(ContentDisposition(AttachmentFilename(alnum, name)))
            == Some(AttachmentFilename(alnum, name))
  {
    AttachmentFilenameSafe(alnum, name);
    DispositionRoundTrip(AttachmentFilename(alnum, name));
  }

  /** A header that parses is the header of the name it parses to. */
  lemma ParseDispositionSound(header: string, f: string)
    requires ParseDisposition(header) == Some(f)
    ensures header == ContentDisposition(f)
  {
    var n := |DispositionPrefix|;
    assert header == header[..n] + header[n..|header| - 1] + [header[|header| - 1]];
  }

  /** Sanitising is idempotent. */
  lemma CleanNameIdempotent(alnum: char -> bool, name: string)
    ensures CleanName(alnum, CleanName(alnum, name)) == CleanName(alnum, name)
  {
    CleanNameUnchanged(alnum, CleanName(alnum, name));
  }

  lemma KeptCharsOfThree(alnum: char -> bool, x: string, y: string, z: string,
                         rx: string, ry: string, rz: string)
    requires KeptChars(alnum, x) == rx && KeptChars(alnum, y) == ry && KeptChars(alnum, z) == rz
    ensures KeptChars(alnum, x + y + z) == rx + ry + rz
  {
    KeptCharsAppend(alnum, x, y);
    KeptCharsAppend(alnum, x + y, z);
  }

  lemma WidgetFront(alnum: char -> bool)
    requires alnum == AsciiAlnum
    ensures KeptChars(alnum, "Widget #") == "Widget "
  {
    var w := "Widget ";
    assert AllKept(alnum, w);
    assert KeptChars(alnum, w) == w;
    assert KeptChars(alnum, "#") == "";
    KeptCharsAppend(alnum, w, "#");
    assert w + "#" == "Widget #";
  }

  lemma WidgetMiddle(alnum: char -> bool)
    requires alnum == AsciiAlnum
    ensures KeptChars(alnum, "1/2 (") == "12 "
  {
    KeptCharsOfThree(alnum, "1", "/", "2 (", "1", "", "2 ");
  }

  lemma WidgetBack(alnum: char -> bool)
    requires alnum == AsciiAlnum
    ensures KeptChars(alnum, "Blue)!") == "Blue"
  {
    KeptCharsOfThree(alnum, "Bl", "ue", ")!", "Bl", "ue", "");
  }

  lemma WidgetKeptChars(alnum: char -> bool, name: string)
    requires alnum == AsciiAlnum
    requires name == "Widget #" + "1/2 (" + "Blue)!"
    ensures KeptChars(alnum, name) == "Widget 12 Blue"
  {
    WidgetPieces(alnum);
  }

  lemma WidgetPieces(alnum: char -> bool)
    requires alnum == AsciiAlnum
    ensures KeptChars(alnum, "Widget #" + "1/2 (" + "Blue)!") == "Widget " + "12 " + "Blue"
  {
    WidgetFront(alnum);
    WidgetMiddle(alnum);
    WidgetBack(alnum);
    KeptCharsOfThree(alnum, "Widget #", "1/2 (", "Blue)!", "Widget ", "12 ", "Blue");
  }

  lemma WidgetTrimmed(t: string)
    requires t == "Widget 12 Blue"
    ensures Strip(StrSpace, t) == t
  {
    assert !IsBlank(StrSpace, t[0]) && !IsBlank(StrSpace, t[|t| - 1]);
    StripUnchanged(StrSpace, t);
  }

  lemma WidgetClean(alnum: char -> bool, name: string)
    requires alnum == AsciiAlnum
    requires name == "Widget #" + "1/2 (" + "Blue)!"
    ensures CleanName(alnum, name) == "Widget 12 Blue"
  {
    WidgetKeptChars(alnum, name);
    WidgetTrimmed(KeptChars(alnum, name));
  }

  /** The worked example: `"Widget #1/2 (Blue)!"` downloads as `"QR_Widget 12 Blue.png"`. */
  lemma WidgetExample(alnum: char -> bool, name: string)
    requires alnum == AsciiAlnum
    requires name == "Widget #1/2 (Blue)!"
    ensures CleanName(alnum, name) == "Widget 12 Blue"
    ensures AttachmentFilename(alnum, name) == "QR_" + "Widget 12 Blue" + ".png"
  {
    assert name == "Widget #" + "1/2 (" + "Blue)!";
    WidgetClean(alnum, name);
  }
}
