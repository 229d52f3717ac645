/**
 * Character classes and the whitespace trimming of the .NET runtime,
 * as the console front end uses them.
 */
module Text {

  /**
   * The characters for which `char.IsWhiteSpace` holds: U+0009..U+000D, U+0085
   * and the Unicode space, line and paragraph separators (Zs, Zl, Zp).
   */
  const WhiteSpace: set<char> := {
    '\t', '\n', '\U{B}', '\U{C}', '\r', ' ', '\U{85}', '\U{A0}', '\U{1680}',
    '\U{2000}', '\U{2001}', '\U{2002}', '\U{2003}', '\U{2004}', '\U{2005}',
    '\U{2006}', '\U{2007}', '\U{2008}', '\U{2009}', '\U{200A}',
    '\U{2028}', '\U{2029}', '\U{202F}', '\U{205F}', '\U{3000}'
  }

  predicate IsWhiteSpace(c: char) {
    c in WhiteSpace
  }

  /** A decimal digit, ASCII only. */
  predicate IsDigit(c: char) {
    '0' <= c <= '9'
  }

  predicate AllDigits(s: string) {
    forall i :: 0 <= i < |s| ==> IsDigit(s[i])
  }

  predicate AllWhiteSpace(s: string) {
    forall i :: 0 <= i < |s| ==> IsWhiteSpace(s[i])
  }

  /** Neither end of `s` is a whitespace character. */
  predicate Trimmed(s: string) {
    s == [] || (!IsWhiteSpace(s[0]) && !IsWhiteSpace(s[|s| - 1]))
  }

  /** The first index at or after `i` whose character is not whitespace (or `|s|`). */
  function SkipForward(s: string, i: nat): (k: nat)
    requires i <= |s|
    ensures i <= k <= |s|
    ensures forall m :: i <= m < k ==> IsWhiteSpace(s[m])
    ensures k < |s| ==> !IsWhiteSpace(s[k])
    decreases |s| - i
  {
    if i < |s| && IsWhiteSpace(s[i]) then SkipForward(s, i + 1) else i
  }

  /** The end of `s[lo..j]` once its trailing whitespace is dropped. */
  function SkipBackward(s: string, lo: nat, j: nat): (k: nat)
    requires lo <= j <= |s|
    ensures lo <= k <= j
    ensures forall m :: k <= m < j ==> IsWhiteSpace(s[m])
    ensures k > lo ==> !IsWhiteSpace(s[k - 1])
    decreases j
  {
    if j > lo && IsWhiteSpace(s[j - 1]) then SkipBackward(s, lo, j - 1) else j
  }

  /**
   * `string.Trim()`: the slice of `s` left once the whitespace at both ends
   * is dropped. Everything outside the slice is whitespace and neither end
   * of the slice is.
   */
  function Trim(s: string): (r: string)
    ensures Trimmed(r)
    ensures var a := SkipForward(s, 0);
      && a + |r| <= |s|
      && r == s[a..a + |r|]
      && (forall m :: 0 <= m < a ==> IsWhiteSpace(s[m]))
      && (forall m :: a + |r| <= m < |s| ==> IsWhiteSpace(s[m]))
  {
    var a := SkipForward(s, 0);
    var b := SkipBackward(s, a, |s|);
    assert a < b ==> !IsWhiteSpace(s[a]);
    s[a..b]
  }

  /**
   * Trim is characterised by its result: whatever whitespace surrounds a
   * string with no whitespace at its ends, trimming gives that string back.
   */
  lemma TrimOfPadded(before: string, t: string, after: string)
    requires AllWhiteSpace(before) && AllWhiteSpace(after)
    requires t != [] && Trimmed(t)
    ensures Trim(before + t + after) == t
  {
    var s := before + t + after;
    var a, b := |before|, |before| + |t|;
    assert s[a] == t[0] && s[b - 1] == t[|t| - 1];
    assert forall m :: 0 <= m < a ==> s[m] == before[m];
    assert forall m :: b <= m < |s| ==> s[m] == after[m - b];
    assert SkipForward(s, 0) == a;
    assert SkipBackward(s, a, |s|) == b;
    assert s[a..b] == t;
  }

  /** A line of whitespace only trims to the empty string. */
  lemma TrimOfWhiteSpace(s: string)
    requires AllWhiteSpace(s)
    ensures Trim(s) == []
  {
    assert SkipForward(s, 0) == |s|;
  }

  /** Trimming twice is trimming once. */
  lemma TrimIdempotent(s: string)
    ensures Trim(Trim(s)) == Trim(s)
  {
    var r := Trim(s);
    if r != [] {
      TrimOfPadded([], r, []);
      assert [] + r + [] == r;
    }
  }
}
