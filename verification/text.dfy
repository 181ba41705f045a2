/** Character and string operations of Rust's standard library that the popup
    handler relies on: `str::trim`, `Path::extension` and ASCII case folding. */
module Text {
  import opened Wrappers

  /** The 25 code points the Unicode Character Database (PropList.txt) lists
      with the White_Space property, one by one. */
  const WhiteSpaceCodePoints: set<char> :=
    { '\t', '\n', '\U{000B}', '\U{000C}', '\r', ' ', '\U{0085}', '\U{00A0}', '\U{1680}',
      '\U{2000}', '\U{2001}', '\U{2002}', '\U{2003}', '\U{2004}', '\U{2005}',
      '\U{2006}', '\U{2007}', '\U{2008}', '\U{2009}', '\U{200A}',
      '\U{2028}', '\U{2029}', '\U{202F}', '\U{205F}', '\U{3000}' }

  /** `char::is_whitespace`: the Unicode White_Space property, written as the
      ranges the standard library tests. */
  predicate IsWhitespace(c: char)
    ensures IsWhitespace(c) <==> c in WhiteSpaceCodePoints
  {
    || ('\t' <= c <= '\r')
    || c == ' '
    || c == '\U{0085}'
    || c == '\U{00A0}'
    || c == '\U{1680}'
    || ('\U{2000}' <= c <= '\U{200A}')
    || c == '\U{2028}'
    || c == '\U{2029}'
    || c == '\U{202F}'
    || c == '\U{205F}'
    || c == '\U{3000}'
  }

  /** Every character of `s` in `[lo, hi)` is whitespace. */
  predicate WhitespaceBetween(s: string, lo: nat, hi: nat)
    requires lo <= hi <= |s|
  {
    forall i :: lo <= i < hi ==> IsWhitespace(s[i])
  }

  predicate AllWhitespace(s: string)
  {
    WhitespaceBetween(s, 0, |s|)
  }

  /** Where the text after position `i` starts: the first index at or after `i`
      that is not whitespace, or `|s|`. */
  function SkipLeading(s: string, i: nat): (k: nat)
    requires i <= |s|
    ensures i <= k <= |s|
    ensures WhitespaceBetween(s, i, k)
    ensures k < |s| ==> !IsWhitespace(s[k])
    decreases |s| - i
  {
    if i < |s| && IsWhitespace(s[i]) then SkipLeading(s, i + 1) else i
  }

  /** Where the text before position `hi` ends, scanning back no further than
      `lo`: the smallest `e` such that `[e, hi)` is all whitespace. */
  function SkipTrailing(s: string, lo: nat, hi: nat): (e: nat)
    requires lo <= hi <= |s|
    ensures lo <= e <= hi
    ensures WhitespaceBetween(s, e, hi)
    ensures e > lo ==> !IsWhitespace(s[e - 1])
    decreases hi - lo
  {
    if lo < hi && IsWhitespace(s[hi - 1]) then SkipTrailing(s, lo, hi - 1) else hi
  }

  /** `str::trim`: the slice of `s` between its leading and trailing whitespace.
      It starts at `k`, where the leading whitespace ends. */
  function Trim(s: string): (r: string)
    ensures var k := SkipLeading(s, 0);
            && k + |r| <= |s|
            && r == s[k..k + |r|]
            && WhitespaceBetween(s, 0, k)
            && WhitespaceBetween(s, k + |r|, |s|)
    ensures |r| > 0 ==> !IsWhitespace(r[0]) && !IsWhitespace(r[|r| - 1])
  {
    var k := SkipLeading(s, 0);
    var e := SkipTrailing(s, k, |s|);
    s[k..e]
  }

  /** Trimming removes whitespace only: it is empty exactly for all-whitespace text. */
  lemma TrimEmptyIffAllWhitespace(s: string)
    ensures |Trim(s)| == 0 <==> AllWhitespace(s)
  {
  }

  /** Trimming twice is trimming once. */
  lemma TrimIdempotent(s: string)
    ensures Trim(Trim(s)) == Trim(s)
  {
  }

  /** `char::to_ascii_lowercase`. */
  function AsciiLower(c: char): (d: char)
    ensures 'A' <= c <= 'Z' ==> 'a' <= d <= 'z' && d as int - c as int == 32
    ensures !('A' <= c <= 'Z') ==> d == c
    ensures !('A' <= d <= 'Z')
  {
    if 'A' <= c <= 'Z' then (c as int + 32) as char else c
  }

  /** `str::to_ascii_lowercase`: every character folded on its own. */
  function AsciiLowerString(s: string): (r: string)
    ensures |r| == |s|
    ensures forall i :: 0 <= i < |s| ==> r[i] == AsciiLower(s[i])
  {
    seq(|s|, i requires 0 <= i < |s| => AsciiLower(s[i]))
  }

  /** Two characters are equal, or are the same ASCII letter in its two cases. */
  predicate SameIgnoringAsciiCase(c: char, d: char)
  {
    || c == d
    || ('A' <= c <= 'Z' && d as int == c as int + 32)
    || ('A' <= d <= 'Z' && c as int == d as int + 32)
  }

  /** `str::eq_ignore_ascii_case`. */
  predicate EqIgnoreAsciiCase(a: string, b: string)
    ensures EqIgnoreAsciiCase(a, b) <==> AsciiLowerString(a) == AsciiLowerString(b)
    ensures EqIgnoreAsciiCase(a, b) <==>
              |a| == |b| && forall i :: 0 <= i < |a| ==> SameIgnoringAsciiCase(a[i], b[i])
    ensures a == b ==> EqIgnoreAsciiCase(a, b)
  {
    |a| == |b| && forall i :: 0 <= i < |a| ==> AsciiLower(a[i]) == AsciiLower(b[i])
  }

  /** Index of the last occurrence of `c` in `s`, or -1 when there is none. */
  function LastIndexOf(s: string, c: char): (r: int)
    ensures -1 <= r < |s|
    ensures r >= 0 ==> s[r] == c
    ensures forall i :: r < i < |s| ==> s[i] != c
    decreases |s|
  {
    if |s| == 0 then -1
    else if s[|s| - 1] == c then |s| - 1
    else LastIndexOf(s[..|s| - 1], c)
  }

  /** `Path::extension` of a file name: the text after its last dot, unless the
      name is `..`, has no dot, or its only dot is the first character. */
  function Extension(fileName: string): (r: Option<string>)
    ensures r.Some? ==> exists stem :: |stem| > 0 && fileName == stem + "." + r.value
    ensures r.Some? ==> '.' !in r.value
    ensures r.Some? <==> fileName != ".." && exists i :: 0 < i < |fileName| && fileName[i] == '.'
  {
    var i := LastIndexOf(fileName, '.');
    if fileName == ".." || i <= 0 then None
    else
      assert fileName == fileName[..i] + "." + fileName[i + 1..];
      Some(fileName[i + 1..])
  }

  /** `Path::extension` readings: a leading dot alone is no extension, `..` has
      none, and only the text after the last dot counts. */
  lemma ExtensionExamples()
    ensures Extension("..") == None
    ensures Extension(".bashrc") == None
    ensures Extension("ui.exe") == Some("exe")
    ensures Extension("a.tar.gz") == Some("gz")
  {
    assert ".bashrc"[..6] == ".bashr";
    assert ".bashr"[..5] == ".bash";
    assert ".bash"[..4] == ".bas";
    assert ".bas"[..3] == ".ba";
    assert ".ba"[..2] == ".b";
    assert ".b"[..1] == ".";
    assert LastIndexOf(".bashrc", '.') == 0;
    assert "ui.exe"[..5] == "ui.ex";
    assert "ui.ex"[..4] == "ui.e";
    assert "ui.e"[..3] == "ui.";
    assert LastIndexOf("ui.exe", '.') == 2;
    assert "a.tar.gz"[..7] == "a.tar.g";
    assert "a.tar.g"[..6] == "a.tar.";
    assert LastIndexOf("a.tar.gz", '.') == 5;
  }
}
