/**
 * Character classes and string scanners shared by the line classifier and the
 * tail reader: Python's whitespace class (used by `\s` in a str pattern and by
 * `str.strip()`), ASCII digits, maximal runs, `strip()` and substring search.
 */
module Text {

  /** Python's `str.isspace()`: the characters `\s` matches in a str pattern. */
  predicate IsSpace(c: char) {
    if c <= ' ' then '\t' <= c <= '\r' || '\U{1c}' <= c
    else if c < '\U{85}' then false
    else c == '\U{85}' || c == '\U{a0}' || c == '\U{1680}' || '\U{2000}' <= c <= '\U{200a}'
         || c == '\U{2028}' || c == '\U{2029}' || c == '\U{202f}' || c == '\U{205f}' || c == '\U{3000}'
  }

  /** `\d`, restricted to the ASCII digits. */
  predicate IsDigit(c: char) {
    '0' <= c <= '9'
  }

  /** No digit is whitespace. */
  lemma DigitIsNotSpace(c: char)
    requires IsDigit(c)
    ensures !IsSpace(c)
  {
  }

  /** No visible ASCII character is whitespace. */
  lemma VisibleIsNotSpace(c: char)
    requires '!' <= c <= '~'
    ensures !IsSpace(c)
  {
  }

  /** The end of the maximal run of digits that starts at `k`. */
  function DigitsEnd(s: string, k: nat): (e: nat)
    requires k <= |s|
    ensures k <= e <= |s|
    ensures forall m :: k <= m < e ==> IsDigit(s[m])
    ensures e == |s| || !IsDigit(s[e])
    decreases |s| - k
  {
    if k < |s| && IsDigit(s[k]) then DigitsEnd(s, k + 1) else k
  }

  /** The end of the maximal run of whitespace that starts at `k`. */
  function SpacesEnd(s: string, k: nat): (e: nat)
    requires k <= |s|
    ensures k <= e <= |s|
    ensures forall m :: k <= m < e ==> IsSpace(s[m])
    ensures e == |s| || !IsSpace(s[e])
    decreases |s| - k
  {
    if k < |s| && IsSpace(s[k]) then SpacesEnd(s, k + 1) else k
  }

  /** Any run of digits from `k` that is followed by a non-digit is the maximal one. */
  lemma DigitsEndUnique(s: string, k: nat, e: nat)
    requires k <= e <= |s|
    requires forall m :: k <= m < e ==> IsDigit(s[m])
    requires e == |s| || !IsDigit(s[e])
    ensures DigitsEnd(s, k) == e
  {
  }

  /** Any run of whitespace from `k` that is followed by a non-space is the maximal one. */
  lemma SpacesEndUnique(s: string, k: nat, e: nat)
    requires k <= e <= |s|
    requires forall m :: k <= m < e ==> IsSpace(s[m])
    requires e == |s| || !IsSpace(s[e])
    ensures SpacesEnd(s, k) == e
  {
  }

  /** The start of the last run of whitespace that ends at `hi` and begins no earlier than `lo`. */
  function TrailingSpacesStart(s: string, lo: nat, hi: nat): (b: nat)
    requires lo <= hi <= |s|
    ensures lo <= b <= hi
    ensures forall m :: b <= m < hi ==> IsSpace(s[m])
    ensures b == lo || !IsSpace(s[b - 1])
    decreases hi
  {
    if lo < hi && IsSpace(s[hi - 1]) then TrailingSpacesStart(s, lo, hi - 1) else hi
  }

  /** `r` is the slice of `s` from `a` and everything outside that slice is whitespace. */
  predicate TrimmedAt(s: string, r: string, a: nat) {
    a + |r| <= |s| && s[a..a + |r|] == r
    && (forall m :: 0 <= m < a ==> IsSpace(s[m]))
    && (forall m :: a + |r| <= m < |s| ==> IsSpace(s[m]))
  }

  /** Python's `str.strip()` without arguments: leading and trailing whitespace removed. */
  function Strip(s: string): (r: string)
    ensures |r| > 0 ==> !IsSpace(r[0]) && !IsSpace(r[|r| - 1])
    ensures exists a: nat :: TrimmedAt(s, r, a)
  {
    var a := SpacesEnd(s, 0);
    var b := TrailingSpacesStart(s, a, |s|);
    assert TrimmedAt(s, s[a..b], a);
    s[a..b]
  }

  /** `pat` occurs in `s` starting at index `k`. */
  predicate OccursAt(s: string, pat: string, k: nat) {
    k + |pat| <= |s| && s[k..k + |pat|] == pat
  }

  /** `pat` occurs somewhere in `s`: what `re.search` of a literal pattern finds. */
  ghost predicate Occurs(s: string, pat: string) {
    exists k: nat :: OccursAt(s, pat, k)
  }

  /** Scans `s` from `k` onwards for an occurrence of `pat`. */
  function OccursFrom(s: string, pat: string, k: nat): (found: bool)
    ensures found <==> exists m: nat :: k <= m && OccursAt(s, pat, m)
    decreases |s| - k
  {
    if k + |pat| > |s| then false
    else if OccursAt(s, pat, k) then true
    else OccursFrom(s, pat, k + 1)
  }

  /** Substring test, as `pat in s` or `re.search(pat, s) is not None` for a literal `pat`. */
  function Contains(s: string, pat: string): (found: bool)
    ensures found <==> Occurs(s, pat)
  {
    OccursFrom(s, pat, 0)
  }
}
