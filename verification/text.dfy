/** Whitespace trimming as done by Python's argument-less `str.strip()`,
    restricted to the ASCII whitespace characters. */
module Text {

  /** The ASCII characters Python's `str.isspace` accepts: tab, line feed,
      vertical tab, form feed, carriage return, the four information
      separators 0x1C..0x1F, and space. */
  predicate IsSpace(c: char) {
    c == ' ' || c == '\t' || c == '\n' || c == '\r' || c == '\U{0B}' || c == '\U{0C}'
    || ('\U{1C}' <= c <= '\U{1F}')
  }

  /** Every character of `s` is whitespace (Python: `not s.strip()`). */
  predicate AllSpace(s: string) {
    forall i | 0 <= i < |s| :: IsSpace(s[i])
  }

  /** `s` neither starts nor ends with whitespace. */
  predicate Trimmed(s: string) {
    s == [] || (!IsSpace(s[0]) && !IsSpace(s[|s| - 1]))
  }

  /** Everything of `s` before index `p` and from index `q` on is whitespace. */
  predicate SpaceOutside(s: string, p: nat, q: nat)
    requires p <= q <= |s|
  {
    (forall i | 0 <= i < p :: IsSpace(s[i])) && (forall i | q <= i < |s| :: IsSpace(s[i]))
  }

  /** The index of the first non-whitespace character of `s` at or after
      `i`, or `|s|` when there is none. */
  function SkipSpace(s: string, i: nat): (k: nat)
    requires i <= |s|
    ensures i <= k <= |s|
    ensures forall j | i <= j < k :: IsSpace(s[j])
    ensures k == |s| || !IsSpace(s[k])
    decreases |s| - i
  {
    if i < |s| && IsSpace(s[i]) then SkipSpace(s, i + 1) else i
  }

  /** The end of `s[lo..j]` once trailing whitespace is dropped. */
  function SkipSpaceBack(s: string, lo: nat, j: nat): (e: nat)
    requires lo <= j <= |s|
    ensures lo <= e <= j
    ensures forall i | e <= i < j :: IsSpace(s[i])
    ensures e == lo || !IsSpace(s[e - 1])
  {
    if lo < j && IsSpace(s[j - 1]) then SkipSpaceBack(s, lo, j - 1) else j
  }

  /** Python's `s.strip()`: the result carries no outer whitespace, what was
      cut off is whitespace, and the result is empty exactly when `s` is blank. */
  function Strip(s: string): (r: string)
    ensures |r| <= |s|
    ensures Trimmed(r)
    ensures r == [] <==> AllSpace(s)
  {
    var p := SkipSpace(s, 0);
    var q := SkipSpaceBack(s, p, |s|);
    s[p..q]
  }

  /** `Strip(s)` is the slice `s[p..q]` whose outside is all whitespace. */
  lemma StripBounds(s: string) returns (p: nat, q: nat)
    ensures p <= q <= |s|
    ensures Strip(s) == s[p..q]
    ensures SpaceOutside(s, p, q)
  {
    p := SkipSpace(s, 0);
    q := SkipSpaceBack(s, p, |s|);
  }

  /** Strip is characterised uniquely: a trimmed slice of `s` whose outside
      is whitespace is the stripped string. */
  lemma StripUnique(s: string, p: nat, q: nat)
    requires p <= q <= |s|
    requires SpaceOutside(s, p, q)
    requires Trimmed(s[p..q])
    ensures Strip(s) == s[p..q]
  {
  }

  /** Stripping twice is the same as stripping once. */
  lemma StripIdempotent(s: string)
    ensures Strip(Strip(s)) == Strip(s)
  {
  }
}
