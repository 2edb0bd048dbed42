/** What the redactor keeps: the loops that rewrite a growing text in place are plain replacement of every
    occurrence (src/audit/domain/sensitive_data_guard.cpp). */
module RedactionReference {
  import opened Substrings
  import opened Redaction

  /** Every occurrence of `pat` in `searched`, from the left and without overlap, becomes the mark in `s`;
      every other character stays, in order. */
  function ReplacedAll(s: string, searched: string, pat: string): string
    requires |s| == |searched| && pat != []
    decreases |s|
  {
    var i := Find(searched, pat, 0);
    if i == -1 then s else s[..i] + MARK + ReplacedAll(s[i + |pat|..], searched[i + |pat|..], pat)
  }

  /** One pattern after the other, spelled exactly. */
  function Headerless(s: string, pats: seq<string>): string
    requires NonEmpty(pats)
    decreases |pats|
  {
    if pats == [] then s else Headerless(ReplacedAll(s, s, pats[0]), pats[1..])
  }

  /** One pattern after the other, in any case. */
  function Termless(s: string, pats: seq<string>): string
    requires NonEmpty(pats)
    decreases |pats|
  {
    if pats == [] then s else Termless(ReplacedAll(s, Lower(s), pats[0]), pats[1..])
  }

  // ---- Positions in a suffix -------------------------------------------------------------------

  lemma AtSuffix(s: string, pat: string, from: nat, j: int)
    requires from <= |s|
    ensures At(s[from..], pat, j) <==> j >= 0 && At(s, pat, from + j)
  {
    if j >= 0 && from + j + |pat| <= |s| {
      assert s[from..][j..j + |pat|] == s[from + j..from + j + |pat|];
    }
  }

  lemma FindSuffix(s: string, pat: string, from: nat)
    requires from <= |s|
    ensures var i, j := Find(s, pat, from), Find(s[from..], pat, 0);
            if i == -1 then j == -1 else j == i - from
  {
    hide At, Find;
    var i, j := Find(s, pat, from), Find(s[from..], pat, 0);
    if i != -1 {
      AtSuffix(s, pat, from, i - from);
    }
    if j != -1 {
      AtSuffix(s, pat, from, j);
    }
  }

  // ---- The loop is the replacement -------------------------------------------------------------

  lemma Tails(s: string, i: nat, k: nat)
    requires i + k <= |s|
    ensures Replaced(s, i, k, MARK)[..i + 10] == s[..i] + MARK && Replaced(s, i, k, MARK)[i + 10..] == s[i + k..]
  {
    assert |MARK| == 10;
    var head := s[..i] + MARK;
    assert |head| == i + 10 && Replaced(s, i, k, MARK) == head + s[i + k..];
  }

  /** What lies before `pos` stays, what lies behind it is replaced. */
  lemma {:induction false} ScrubIsReplacement(p: Pair, pat: string, pos: nat)
    requires Twins(p) && pat != [] && pos <= |p.text|
    ensures Scrub(p, pat, pos).text == p.text[..pos] + ReplacedAll(p.text[pos..], p.searched[pos..], pat)
    decreases |p.searched| - pos
  {
    hide Find, Scrub, ReplacedAll, Replaced, MARK;
    ScrubStep(p, pat, pos);
    FindSuffix(p.searched, pat, pos);
    ReplacedAllStep(p.text[pos..], p.searched[pos..], pat);
    var i := Next(p, pat, pos);
    if i == -1 {
      assert p.text == p.text[..pos] + p.text[pos..];
    } else {
      var k, q := |pat|, RedactAt(p, i, |pat|);
      ScrubIsReplacement(q, pat, i + 10);
      Tails(p.text, i, k);
      Tails(p.searched, i, k);
      CutTwice(p.text, pos, i - pos, k);
      CutTwice(p.searched, pos, i - pos, k);
      var rest := ReplacedAll(p.text[i + k..], p.searched[i + k..], pat);
      Regroup(p.text[..pos], p.text[pos..][..i - pos], MARK, rest);
    }
  }

  lemma Regroup(a: string, b: string, c: string, d: string)
    ensures a + b + c + d == a + (b + c + d)
  {
  }

  lemma {:induction false} ReplacedAllStep(s: string, searched: string, pat: string)
    requires |s| == |searched| && pat != []
    ensures var i := Find(searched, pat, 0);
            && (i == -1 ==> ReplacedAll(s, searched, pat) == s)
            && (i != -1 ==>
                  && 0 <= i && i + |pat| <= |s|
                  && ReplacedAll(s, searched, pat) ==
                     s[..i] + MARK + ReplacedAll(s[i + |pat|..], searched[i + |pat|..], pat))
  {
    hide MARK, Find, At;
    if Find(searched, pat, 0) != -1 {
      AtFits(searched, pat, Find(searched, pat, 0));
    }
  }

  lemma CutTwice(s: string, pos: nat, d: nat, k: nat)
    requires pos + d + k <= |s|
    ensures s[pos..][d + k..] == s[pos + d + k..] && s[..pos + d] == s[..pos] + s[pos..][..d]
  {
  }

  // ---- Searching the copy is searching the text in lower case -----------------------------------

  /** Only where the pattern occurs matters. */
  lemma {:induction false} OccurrencesDecide(s: string, u: string, v: string, pat: string)
    requires |s| == |u| == |v| && pat != [] && forall j :: At(u, pat, j) <==> At(v, pat, j)
    ensures ReplacedAll(s, u, pat) == ReplacedAll(s, v, pat)
    decreases |s|
  {
    hide At, Find;
    var i := Find(u, pat, 0);
    assert i == Find(v, pat, 0) by { SameFind(u, v, pat); }
    if i != -1 {
      var n := i + |pat|;
      assert n <= |u| by { AtFits(u, pat, i); }
      forall j ensures At(u[n..], pat, j) <==> At(v[n..], pat, j) {
        AtSuffix(u, pat, n, j);
        AtSuffix(v, pat, n, j);
      }
      OccurrencesDecide(s[n..], u[n..], v[n..], pat);
    }
  }

  lemma AtFits(s: string, pat: string, i: int)
    requires At(s, pat, i)
    ensures 0 <= i && i + |pat| <= |s|
  {
  }

  lemma SameFind(u: string, v: string, pat: string)
    requires forall j :: At(u, pat, j) <==> At(v, pat, j)
    ensures Find(u, pat, 0) == Find(v, pat, 0)
  {
    hide At, Find;
    var i, j := Find(u, pat, 0), Find(v, pat, 0);
    assert i != -1 ==> At(v, pat, i);
    assert j != -1 ==> At(u, pat, j);
  }

  lemma TermPass(p: Pair, pat: string)
    requires Twins(p) && pat != [] && Agree(p, pat)
    ensures Scrub(p, pat, 0).text == ReplacedAll(p.text, Lower(p.text), pat)
  {
    hide At, Lower, Scrub, ReplacedAll;
    ScrubIsReplacement(p, pat, 0);
    assert p.text[0..] == p.text && p.searched[0..] == p.searched && p.text[..0] == [];
    OccurrencesDecide(p.text, p.searched, Lower(p.text), pat);
    assert [] + ReplacedAll(p.text, p.searched, pat) == ReplacedAll(p.text, p.searched, pat);
  }

  lemma {:induction false} ScrubAllIsTermless(p: Pair, pats: seq<string>)
    requires Twins(p) && NonEmpty(pats) && AllForeign(pats, MARK) && AllForeign(pats, LOW_MARK)
    requires forall i :: 0 <= i < |pats| ==> Agree(p, pats[i])
    ensures ScrubAll(p, pats).text == Termless(p.text, pats)
    decreases |pats|
  {
    hide Scrub, Agree, Foreign, Lower, ReplacedAll;
    if pats != [] {
      TermPass(p, pats[0]);
      var q, rest := Scrub(p, pats[0], 0), pats[1..];
      forall i | 0 <= i < |rest| ensures Agree(q, rest[i]) {
        assert rest[i] == pats[i + 1];
        ScrubAgrees(p, pats[0], 0, rest[i]);
      }
      ScrubAllIsTermless(q, rest);
    }
  }

  lemma {:induction false} ScrubHeadersIsHeaderless(s: string, pats: seq<string>)
    requires NonEmpty(pats)
    ensures ScrubHeaders(s, pats) == Headerless(s, pats)
    decreases |pats|
  {
    hide Scrub, ReplacedAll;
    if pats != [] {
      ScrubIsReplacement(Pair(s, s), pats[0], 0);
      assert s[0..] == s && s[..0] == [];
      assert [] + ReplacedAll(s, s, pats[0]) == ReplacedAll(s, s, pats[0]);
      ScrubHeadersIsHeaderless(ReplacedAll(s, s, pats[0]), pats[1..]);
    }
  }

  /** For every input the result is the input with every PEM header and then every forbidden term, in any
      case, replaced by the mark, and with every other character in its place. */
  lemma SanitizedReplacesOnly(raw: string)
    ensures NonEmpty(HEADERS) && NonEmpty(TERMS)
    ensures Sanitized(raw) == Termless(Headerless(raw, HEADERS), TERMS)
  {
    hide TERMS, HEADERS, Foreign, ScrubAll, ScrubHeaders, Lower, At;
    ListsAreForeign();
    var s := ScrubHeaders(raw, HEADERS);
    ScrubHeadersIsHeaderless(raw, HEADERS);
    ScrubAllIsTermless(Pair(s, Lower(s)), TERMS);
  }
}
