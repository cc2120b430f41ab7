/**
 * Character classes and string helpers of the sentiment back end, over ASCII:
 * Python's `\s` / `str.isspace`, `\w`, `str.lower` and `str.strip`.
 */
module Text {

  /** ASCII whitespace as Python sees it: space, the controls 9-13
      (\t \n \v \f \r) and the separators 28-31. */
  predicate IsSpace(c: char)
  {
    c == ' ' || (9 <= c as int <= 13) || (28 <= c as int <= 31)
  }

  /** `\w` over ASCII: letters, digits and the underscore. */
  predicate IsWord(c: char)
  {
    ('a' <= c <= 'z') || ('A' <= c <= 'Z') || ('0' <= c <= '9') || c == '_'
  }

  predicate AllSpace(s: string)
  {
    forall k :: 0 <= k < |s| ==> IsSpace(s[k])
  }

  predicate AllWord(s: string)
  {
    forall k :: 0 <= k < |s| ==> IsWord(s[k])
  }

  /** ASCII lower-casing of one character. */
  function LowerChar(c: char): (l: char)
    ensures 'A' <= c <= 'Z' ==> 'a' <= l <= 'z'
    ensures !('A' <= c <= 'Z') ==> l == c
  {
    if 'A' <= c <= 'Z' then (c as int + 32) as char else c
  }

  /** `s.lower()`. */
  function Lower(s: string): (r: string)
    ensures |r| == |s|
    ensures forall k :: 0 <= k < |s| ==> r[k] == LowerChar(s[k])
  {
    seq(|s|, k requires 0 <= k < |s| => LowerChar(s[k]))
  }

  /** Lower-casing is idempotent, so comparing `word.lower()` with a lower-case
      literal is a case-insensitive comparison. */
  lemma LowerIdempotent(s: string)
    ensures Lower(Lower(s)) == Lower(s)
  {
  }

  // ---------------------------------------------------------------------------
  // str.strip()
  // ---------------------------------------------------------------------------

  /** The index of the first non-space character of `s` (or `|s|`). */
  function StripStart(s: string): (i: nat)
    ensures i <= |s|
    ensures AllSpace(s[..i])
    ensures i < |s| ==> !IsSpace(s[i])
    decreases |s|
  {
    if s == [] || !IsSpace(s[0]) then 0
    else
      var i := 1 + StripStart(s[1..]);
      assert s[..i] == [s[0]] + s[1..][..i - 1];
      i
  }

  /** One past the last non-space character of `s` (or 0). */
  function StripEnd(s: string): (j: nat)
    ensures j <= |s|
    ensures AllSpace(s[j..])
    ensures j > 0 ==> !IsSpace(s[j - 1])
    decreases |s|
  {
    if s == [] || !IsSpace(s[|s| - 1]) then |s|
    else
      var j := StripEnd(s[..|s| - 1]);
      assert s[j..] == s[..|s| - 1][j..] + [s[|s| - 1]];
      j
  }

  /** `s.strip()`: `s` without its leading and trailing whitespace. */
  function Strip(s: string): (r: string)
    ensures exists i, j :: 0 <= i <= j <= |s| && r == s[i..j] && AllSpace(s[..i]) && AllSpace(s[j..])
    ensures r != [] ==> !IsSpace(r[0]) && !IsSpace(r[|r| - 1])
  {
    var i := StripStart(s);
    if i == |s| then
      assert s[i..|s|] == [] && s[|s|..] == [];
      []
    else
      StripEndAfterStart(s, i);
      var j := StripEnd(s);
      s[i..j]
  }

  /** Past the first non-space character, the last one is not before it. */
  lemma StripEndAfterStart(s: string, i: nat)
    requires i < |s| && !IsSpace(s[i])
    ensures i < StripEnd(s)
  {
  }

  /** A string without whitespace at either end is its own strip. */
  lemma StripTrimmed(s: string)
    requires s == [] || (!IsSpace(s[0]) && !IsSpace(s[|s| - 1]))
    ensures Strip(s) == s
  {
    if s != [] {
      assert StripStart(s) == 0;
      assert StripEnd(s) == |s|;
    }
  }

  /** Stripping twice is stripping once. */
  lemma StripIdempotent(s: string)
    ensures Strip(Strip(s)) == Strip(s)
  {
    StripTrimmed(Strip(s));
  }

  /** A string made only of whitespace strips to the empty string. */
  lemma StripAllSpace(s: string)
    requires AllSpace(s)
    ensures Strip(s) == []
  {
  }
}
