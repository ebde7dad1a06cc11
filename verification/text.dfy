/**
 The string operations the converter relies on: Python's `str.strip()` (used
 only to ask whether a text is blank), `str.lower()` followed by
 `str.endswith(...)` (the ".pdf" eligibility test), and the length of a
 string once encoded as UTF-8 (the converted size reported to the user).
 */
module Text {

  /** The characters Python's `str.isspace()` accepts, which are exactly the
      characters a bare `str.strip()` removes. */
  predicate IsSpace(c: char) {
    || ('\t' <= c <= '\r')
    || ('\U{1C}' <= c <= '\U{1F}')
    || c == ' '
    || c == '\U{85}'
    || c == '\U{A0}'
    || c == '\U{1680}'
    || ('\U{2000}' <= c <= '\U{200A}')
    || c == '\U{2028}'
    || c == '\U{2029}'
    || c == '\U{202F}'
    || c == '\U{205F}'
    || c == '\U{3000}'
  }

  /** Number of whitespace characters at the start of `s`. */
  function LeadingSpace(s: string): (n: nat)
    ensures n <= |s|
    ensures forall k :: 0 <= k < n ==> IsSpace(s[k])
    ensures n < |s| ==> !IsSpace(s[n])
  {
    if |s| == 0 || !IsSpace(s[0]) then 0 else 1 + LeadingSpace(s[1..])
  }

  /** Number of whitespace characters at the end of `s`. */
  function TrailingSpace(s: string): (n: nat)
    ensures n <= |s|
    ensures forall k :: |s| - n <= k < |s| ==> IsSpace(s[k])
    ensures n < |s| ==> !IsSpace(s[|s| - 1 - n])
  {
    if |s| == 0 || !IsSpace(s[|s| - 1]) then 0 else 1 + TrailingSpace(s[..|s| - 1])
  }

  /** Python's `s.strip()`: `s` without its leading and trailing whitespace. */
  function Strip(s: string): (r: string)
    ensures |r| <= |s|
    ensures r == [] <==> forall k :: 0 <= k < |s| ==> IsSpace(s[k])
    ensures r != [] ==> !IsSpace(r[0]) && !IsSpace(r[|r| - 1])
    ensures LeadingSpace(s) + |r| <= |s|
    ensures r != [] ==> |r| == |s| - LeadingSpace(s) - TrailingSpace(s)
    ensures forall k :: 0 <= k < |r| ==> r[k] == s[LeadingSpace(s) + k]
  {
    var lead := LeadingSpace(s);
    if lead == |s| then []
    else
      s[lead .. |s| - TrailingSpace(s)]
  }

  /** A text counts as empty for the converter when `text.strip()` is falsy. */
  predicate IsBlank(s: string) {
    Strip(s) == []
  }

  /** Stripping twice strips nothing more. */
  lemma StripIdempotent(s: string)
    ensures Strip(Strip(s)) == Strip(s)
  {
    var r := Strip(s);
    if r != [] {
      assert LeadingSpace(r) == 0;
      assert TrailingSpace(r) == 0;
    }
  }

  /** A blank text and a text with some visible character differ in their
      stripped forms: appending visible text to anything makes it non-blank. */
  lemma AppendVisibleNotBlank(prefix: string, s: string)
    requires !IsBlank(s)
    ensures !IsBlank(prefix + s)
  {
    var k :| 0 <= k < |s| && !IsSpace(s[k]);
    assert (prefix + s)[|prefix| + k] == s[k];
  }

  /** Python's `str.lower()` on one character, for the ASCII letters. */
  function LowerChar(c: char): char {
    if 'A' <= c <= 'Z' then (c as int + 32) as char else c
  }

  /** Python's `str.lower()`, character by character. */
  function Lower(s: string): (r: string)
    ensures |r| == |s|
    ensures forall k :: 0 <= k < |s| ==> r[k] == LowerChar(s[k])
  {
    seq(|s|, k requires 0 <= k < |s| => LowerChar(s[k]))
  }

  /** Python's `s.endswith(suffix)`. */
  predicate EndsWith(s: string, suffix: string) {
    |suffix| <= |s| && s[|s| - |suffix|..] == suffix
  }

  /** `name.lower().endswith(".pdf")`. */
  predicate IsPdfName(name: string) {
    EndsWith(Lower(name), ".pdf")
  }

  /** The ".pdf" test looks at the last four characters only, ignoring the
      case of the three letters. */
  lemma PdfNameByLastFour(name: string)
    ensures IsPdfName(name) <==>
      && |name| >= 4
      && name[|name| - 4] == '.'
      && name[|name| - 3] in "pP"
      && name[|name| - 2] in "dD"
      && name[|name| - 1] in "fF"
  {
    var low := Lower(name);
    var n := |name|;
    if n >= 4 {
      if IsPdfName(name) {
        assert low[n - 4..][0] == '.' && low[n - 4..][1] == 'p';
        assert low[n - 4..][2] == 'd' && low[n - 4..][3] == 'f';
      }
      if && name[n - 4] == '.' && name[n - 3] in "pP"
         && name[n - 2] in "dD" && name[n - 1] in "fF"
      {
        assert low[n - 4..] == ".pdf";
      }
    }
  }

  /** Bytes one character takes in UTF-8. */
  function Utf8Width(c: char): nat {
    if c < '\U{80}' then 1
    else if c < '\U{800}' then 2
    else if c < '\U{10000}' then 3
    else 4
  }

  /** `len(s.encode('utf-8'))`. */
  function Utf8Length(s: string): (n: nat)
    ensures |s| <= n <= 4 * |s|
  {
    if s == [] then 0 else Utf8Width(s[0]) + Utf8Length(s[1..])
  }

  lemma {:induction false} Utf8LengthAppend(a: string, b: string)
    ensures Utf8Length(a + b) == Utf8Length(a) + Utf8Length(b)
  {
    if a != [] {
      assert (a + b)[1..] == a[1..] + b;
      Utf8LengthAppend(a[1..], b);
    } else {
      assert a + b == b;
    }
  }

  /** ASCII text encodes to one byte per character. */
  lemma {:induction false} Utf8LengthAscii(s: string)
    requires forall k :: 0 <= k < |s| ==> s[k] < '\U{80}'
    ensures Utf8Length(s) == |s|
  {
    if s != [] {
      Utf8LengthAscii(s[1..]);
    }
  }
}
