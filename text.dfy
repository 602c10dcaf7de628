/**
 * The two pieces of Python string handling the browser relies on:
 * `str.strip()` (the Bookmark Manager's inputs) and the tab label
 * `title[:20] + "..."`. Strings are sequences of code points, as in Python.
 */
module Text {

  /** Python's `str.isspace()` for one code point. */
  predicate IsSpace(c: char) {
    var n := c as int;
    (9 <= n <= 13) || (28 <= n <= 32) || n == 0x85 || n == 0xA0 || n == 0x1680
    || (0x2000 <= n <= 0x200A) || n == 0x2028 || n == 0x2029 || n == 0x202F
    || n == 0x205F || n == 0x3000
  }

  predicate AllSpace(s: string) {
    forall i :: 0 <= i < |s| ==> IsSpace(s[i])
  }

  /** The number of whitespace code points at the start of `s`. */
  function LeadingSpace(s: string): (k: nat)
    ensures k <= |s| && AllSpace(s[..k])
    ensures k < |s| ==> !IsSpace(s[k])
  {
    if s == [] || !IsSpace(s[0]) then 0
    else
      var k' := LeadingSpace(s[1..]);
      k' + 1
  }

  /** The number of whitespace code points at the end of `s`. */
  function TrailingSpace(s: string): (k: nat)
    ensures k <= |s| && AllSpace(s[|s| - k..])
    ensures k < |s| ==> !IsSpace(s[|s| - k - 1])
  {
    if s == [] || !IsSpace(s[|s| - 1]) then 0
    else
      var k' := TrailingSpace(s[..|s| - 1]);
      k' + 1
  }

  /**
   * Python's `s.strip()`: the part of `s` between its leading and its
   * trailing whitespace. Only whitespace is removed, and what is left
   * neither starts nor ends with whitespace.
   */
  function Strip(s: string): (r: string)
    ensures LeadingSpace(s) + |r| <= |s|
    ensures r == s[LeadingSpace(s)..LeadingSpace(s) + |r|]
    ensures AllSpace(s[..LeadingSpace(s)]) && AllSpace(s[LeadingSpace(s) + |r|..])
    ensures r != [] ==> !IsSpace(r[0]) && !IsSpace(r[|r| - 1])
  {
    var rest := s[LeadingSpace(s)..];
    rest[..|rest| - TrailingSpace(rest)]
  }

  /** `strip()` gives the empty string exactly when `s` is all whitespace. */
  lemma StripEmptyIffAllSpace(s: string)
    ensures Strip(s) == [] <==> AllSpace(s)
  {
  }

  /** Stripping twice is the same as stripping once. */
  lemma StripIdempotent(s: string)
    ensures Strip(Strip(s)) == Strip(s)
  {
  }

  /** How many code points of a title the tab label keeps. */
  const LabelWidth: nat := 20

  const Ellipsis: string := "..."

  /** The part of `title` that `title[:20]` keeps. */
  function LabelHead(title: string): string {
    if |title| <= LabelWidth then title else title[..LabelWidth]
  }

  /**
   * The tab label `title[:20] + "..."`: at most twenty code points of the
   * title followed by an ellipsis, which is appended even when the title
   * was short enough to be shown whole.
   */
  function TabLabel(title: string): (shown: string)
    ensures |shown| == (if |title| <= LabelWidth then |title| else LabelWidth) + |Ellipsis|
    ensures shown[|shown| - |Ellipsis|..] == Ellipsis
    ensures shown[..|shown| - |Ellipsis|] <= title
    ensures |title| <= LabelWidth ==> shown == title + Ellipsis
  {
    LabelHead(title) + Ellipsis
  }

  /**
   * Two titles get the same label exactly when their first twenty code
   * points agree (and, when shorter, they are equal).
   */
  lemma SameLabelIffSameHead(a: string, b: string)
    ensures TabLabel(a) == TabLabel(b) <==> LabelHead(a) == LabelHead(b)
  {
  }
}
