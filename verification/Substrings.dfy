/** Occurrences of a pattern in a text, and std::string::find. */
module Substrings {

  predicate At(s: string, pat: string, i: int) {
    0 <= i && i + |pat| <= |s| && s[i..i + |pat|] == pat
  }

  ghost predicate Occurs(s: string, pat: string) {
    exists i :: At(s, pat, i)
  }

  /** The first occurrence at or behind `from`; -1 for npos. */
  function Find(s: string, pat: string, from: nat): (r: int)
    ensures r == -1 || (from <= r && At(s, pat, r))
    ensures forall i :: from <= i && (r == -1 || i < r) ==> !At(s, pat, i)
    decreases |s| - from
  {
    if from + |pat| > |s| then -1 else if At(s, pat, from) then from else Find(s, pat, from + 1)
  }

  lemma Mismatch(s: string, pat: string, i: nat, k: nat)
    requires k < |pat| && (i + k < |s| ==> s[i + k] != pat[k])
    ensures !At(s, pat, i)
  {
    assert i + |pat| <= |s| ==> s[i..i + |pat|][k] == s[i + k];
  }

  lemma AtChar(s: string, pat: string, i: int, k: nat)
    requires At(s, pat, i) && k < |pat|
    ensures s[i + k] == pat[k]
  {
    assert s[i..i + |pat|][k] == s[i + k];
  }
}
