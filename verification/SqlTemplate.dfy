/** The parameterised query (src/audit/repository/clickhouse_query_builder.cpp). */
module SqlTemplate {
  import opened Ascii
  import opened Splitting
  import opened Substrings
  import opened SqlGuard

  /** The SQL text in pieces: words, what stands between words, and placeholders `{name:kind}`. */
  datatype Piece = Word(word: string) | Gap(gap: string) | Hole(name: string, kind: string)

  function PieceText(p: Piece): string {
    match p
    case Word(w) => w
    case Gap(g) => g
    case Hole(name, kind) => "{" + name + ":" + kind + "}"
  }

  function SqlText(ps: seq<Piece>): string {
    if ps == [] then [] else PieceText(ps[0]) + SqlText(ps[1..])
  }

  // ---- Which words can be keywords --------------------------------------------------------------

  /** The first two letters and the length of the forbidden keywords. */
  predicate Suspicious(a: char, b: char, n: nat) {
    || (a == 'I' && b == 'N' && n == 6) || (a == 'U' && b == 'P' && n == 6) || (a == 'D' && b == 'E' && n == 6)
    || (a == 'A' && b == 'L' && n == 5) || (a == 'T' && b == 'R' && n == 8) || (a == 'D' && b == 'R' && n == 4)
    || (a == 'C' && b == 'R' && n == 6) || (a == 'R' && b == 'E' && n == 6) || (a == 'O' && b == 'P' && n == 8)
    || (a == 'G' && b == 'R' && n == 5) || (a == 'A' && b == 'T' && n == 6)
  }

  predicate SafeWord(w: string) {
    w != [] && AllWord(w) && (|w| >= 2 ==> !Suspicious(UpperChar(w[0]), UpperChar(w[1]), |w|))
  }

  lemma KeywordsAreSuspicious(k: nat)
    requires k < |KEYWORDS|
    ensures |KEYWORDS[k]| >= 2 && Suspicious(KEYWORDS[k][0], KEYWORDS[k][1], |KEYWORDS[k]|)
  {
  }

  lemma SafeIsNoKeyword(w: string, k: nat)
    requires SafeWord(w) && k < |KEYWORDS|
    ensures Upper(w) != KEYWORDS[k]
  {
    KeywordsAreSuspicious(k);
    if |w| >= 2 {
      assert Upper(w)[0] == UpperChar(w[0]) && Upper(w)[1] == UpperChar(w[1]);
    }
  }

  predicate AllGap(s: string) {
    s != [] && forall i :: 0 <= i < |s| ==> !WordChar(s[i]) && s[i] != ';' && s[i] != '{'
  }

  predicate SafePiece(p: Piece) {
    match p
    case Word(w) => SafeWord(w)
    case Gap(g) => AllGap(g)
    case Hole(name, kind) => SafeWord(name) && SafeWord(kind)
  }

  /** Every piece is safe and no two words touch. */
  ghost predicate Safe(ps: seq<Piece>) {
    (forall i :: 0 <= i < |ps| ==> SafePiece(ps[i])) && (forall i :: 0 < i < |ps| && ps[i].Word? ==> !ps[i - 1].Word?)
  }

  lemma SafeAppend(a: seq<Piece>, b: seq<Piece>)
    requires Safe(a) && Safe(b) && (a != [] && b != [] && b[0].Word? ==> !a[|a| - 1].Word?)
    ensures Safe(a + b)
  {
  }

  // ---- The words of a safe text are its words ---------------------------------------------------

  /** A maximal stretch of word characters, or a stretch without any. */
  datatype Run = Run(isWord: bool, body: string)

  function RunsText(rs: seq<Run>): string {
    if rs == [] then [] else rs[0].body + RunsText(rs[1..])
  }

  ghost predicate GoodRun(r: Run, kw: string) {
    r.body != [] && (if r.isWord then AllWord(r.body) && Upper(r.body) != kw else forall i :: 0 <= i < |r.body| ==>
                     !WordChar(r.body[i]))
  }

  ghost predicate GoodRuns(rs: seq<Run>, kw: string) {
    rs == [] || (GoodRun(rs[0], kw) && (rs[0].isWord && |rs| > 1 ==> !rs[1].isWord) && GoodRuns(rs[1..], kw))
  }

  lemma UpperAppend(a: string, b: string)
    ensures Upper(a + b) == Upper(a) + Upper(b)
  {
  }

  lemma UpperKeepsWords(a: string, b: string, i: nat)
    requires i < |a|
    ensures WordChar((Upper(a) + b)[i]) <==> WordChar(a[i])
  {
  }

  /** Behind the first run the words are those of the rest. */
  lemma WordBehind(a: string, b: string, kw: string, i: nat)
    requires kw != [] && i >= |a| && !WholeWord(b, kw, i - |a|)
    ensures !WholeWord(a + b, kw, i)
  {
    var s, n := a + b, |a|;
    if i + |kw| <= |s| {
      assert s[i..i + |kw|] == b[i - n..i - n + |kw|];
    }
  }

  lemma GapStartsNoWord(u: string, kw: string, i: nat)
    requires kw != [] && AllWord(kw) && i < |u| && !WordChar(u[i])
    ensures !WholeWord(u, kw, i)
  {
    Mismatch(u, kw, i, 0);
  }

  /** A word run is matched only as a whole. */
  lemma WordRunNotMatched(w: string, rest: string, kw: string, i: nat)
    requires kw != [] && AllWord(kw) && AllWord(w) && w != kw && i < |w| && (rest != [] ==> !WordChar(rest[0]))
    ensures !WholeWord(w + rest, kw, i)
  {
    var s, n := w + rest, |w|;
    if i > 0 {
      assert s[i - 1] == w[i - 1];
    } else if |kw| < n {
      assert s[|kw|] == w[|kw|];
    } else if |kw| > n {
      if |s| > n {
        assert s[n] == rest[0];
      }
      Mismatch(s, kw, 0, n);
    } else {
      assert s[0..n] == w;
    }
  }

  lemma {:induction false} NoKeywordInRuns(rs: seq<Run>, kw: string, i: nat)
    requires kw != [] && AllWord(kw) && GoodRuns(rs, kw)
    ensures !WholeWord(Upper(RunsText(rs)), kw, i)
  {
    if rs != [] {
      var r, rest := rs[0], RunsText(rs[1..]);
      var w, u := Upper(r.body), Upper(rest);
      UpperAppend(r.body, rest);
      if i >= |w| {
        NoKeywordInRuns(rs[1..], kw, i - |w|);
        WordBehind(w, u, kw, i);
      } else if !r.isWord {
        UpperKeepsWords(r.body, u, i);
        GapStartsNoWord(w + u, kw, i);
      } else {
        UpperIsWord(r.body);
        NextIsGap(rs);
        WordRunNotMatched(w, u, kw, i);
      }
    }
  }

  lemma UpperIsWord(s: string)
    requires AllWord(s)
    ensures AllWord(Upper(s))
  {
  }

  lemma NextIsGap(rs: seq<Run>)
    requires rs != [] && rs[0].isWord && (|rs| > 1 ==> !rs[1].isWord && rs[1].body != [] && !WordChar(rs[1].body[0]))
    ensures var u := Upper(RunsText(rs[1..]));
            u != [] ==> !WordChar(u[0])
  {
    if |rs| > 1 {
      var t := RunsText(rs[1..]);
      assert t[0] == rs[1].body[0];
    }
  }

  function RunsOf(p: Piece): seq<Run> {
    match p
    case Word(w) => [Run(true, w)]
    case Gap(g) => [Run(false, g)]
    case Hole(name, kind) => [Run(false, "{"), Run(true, name), Run(false, ":"), Run(true, kind), Run(false, "}")]
  }

  function AllRuns(ps: seq<Piece>): seq<Run> {
    if ps == [] then [] else RunsOf(ps[0]) + AllRuns(ps[1..])
  }

  lemma {:induction false} RunsTextAppend(a: seq<Run>, b: seq<Run>)
    ensures RunsText(a + b) == RunsText(a) + RunsText(b)
  {
    if a == [] {
      assert a + b == b;
    } else {
      RunsTextAppend(a[1..], b);
      assert (a + b)[1..] == a[1..] + b && (a + b)[0] == a[0];
      Associative(a[0].body, RunsText(a[1..]), RunsText(b));
    }
  }

  lemma PieceRuns(p: Piece)
    ensures RunsText(RunsOf(p)) == PieceText(p)
  {
    match p
    case Word(w) => assert RunsOf(p)[1..] == [];
    case Gap(g) => assert RunsOf(p)[1..] == [];
    case Hole(name, kind) => HoleRuns(name, kind);
  }

  lemma HoleRuns(name: string, kind: string)
    ensures RunsText(RunsOf(Hole(name, kind))) == "{" + name + ":" + kind + "}"
  {
    var a, b, c, d, e := Run(false, "{"), Run(true, name), Run(false, ":"), Run(true, kind), Run(false, "}");
    OneRun(a);
    OneRun(b);
    OneRun(c);
    OneRun(d);
    OneRun(e);
    RunsTextAppend([a], [b]);
    RunsTextAppend([a] + [b], [c]);
    RunsTextAppend([a] + [b] + [c], [d]);
    RunsTextAppend([a] + [b] + [c] + [d], [e]);
    assert [a, b, c, d, e] == [a] + [b] + [c] + [d] + [e];
  }

  lemma OneRun(r: Run)
    ensures RunsText([r]) == r.body
  {
    assert [r][1..] == [] && r.body + [] == r.body;
  }

  lemma {:induction false} SqlTextRuns(ps: seq<Piece>)
    ensures SqlText(ps) == RunsText(AllRuns(ps))
  {
    if ps != [] {
      PieceRuns(ps[0]);
      SqlTextRuns(ps[1..]);
      RunsTextAppend(RunsOf(ps[0]), AllRuns(ps[1..]));
    }
  }

  lemma {:induction false} GoodRunsAppend(a: seq<Run>, b: seq<Run>, kw: string)
    requires GoodRuns(a, kw) && GoodRuns(b, kw) && (a != [] && b != [] && a[|a| - 1].isWord ==> !b[0].isWord)
    ensures GoodRuns(a + b, kw)
  {
    if a == [] {
      assert a + b == b;
    } else {
      GoodRunsAppend(a[1..], b, kw);
      assert (a + b)[1..] == a[1..] + b;
    }
  }

  lemma PieceRunsGood(p: Piece, kw: string)
    requires SafePiece(p) && (p.Word? ==> Upper(p.word) != kw)
    requires (p.Hole? ==> Upper(p.name) != kw && Upper(p.kind) != kw)
    ensures GoodRuns(RunsOf(p), kw)
  {
    match p
    case Word(w) => assert RunsOf(p)[1..] == [];
    case Gap(g) => assert RunsOf(p)[1..] == [];
    case Hole(name, kind) => HoleRunsGood(name, kind, kw);
  }

  lemma HoleRunsGood(name: string, kind: string, kw: string)
    requires SafeWord(name) && SafeWord(kind) && Upper(name) != kw && Upper(kind) != kw
    ensures GoodRuns(RunsOf(Hole(name, kind)), kw)
  {
    var a, b, c, d, e := Run(false, "{"), Run(true, name), Run(false, ":"), Run(true, kind), Run(false, "}");
    assert [e][1..] == [] && GoodRuns([e], kw);
    assert [d, e][1..] == [e] && GoodRuns([d, e], kw);
    assert [c, d, e][1..] == [d, e] && GoodRuns([c, d, e], kw);
    assert [b, c, d, e][1..] == [c, d, e] && GoodRuns([b, c, d, e], kw);
    assert [a, b, c, d, e][1..] == [b, c, d, e];
  }

  lemma {:induction false} SafeRuns(ps: seq<Piece>, k: nat)
    requires Safe(ps) && k < |KEYWORDS|
    ensures GoodRuns(AllRuns(ps), KEYWORDS[k])
    ensures ps != [] ==> AllRuns(ps) != [] && AllRuns(ps)[0].isWord == ps[0].Word?
  {
    if ps != [] {
      SafeRuns(ps[1..], k);
      match ps[0] {
        case Word(w) => SafeIsNoKeyword(w, k);
        case Gap(g) =>
        case Hole(name, kind) => SafeIsNoKeyword(name, k); SafeIsNoKeyword(kind, k);
      }
      PieceRunsGood(ps[0], KEYWORDS[k]);
      GoodRunsAppend(RunsOf(ps[0]), AllRuns(ps[1..]), KEYWORDS[k]);
    }
  }

  /** A safe text names no forbidden keyword. */
  lemma SafeNamesNoKeyword(ps: seq<Piece>, k: nat)
    requires Safe(ps) && k < |KEYWORDS|
    ensures !NamesKeyword(SqlText(ps), KEYWORDS[k])
  {
    hide KEYWORDS, Upper, WholeWord, AllRuns, RunsText, SqlText;
    SafeRuns(ps, k);
    SqlTextRuns(ps);
    KeywordsAreWords(k);
    forall i: nat ensures !WholeWord(Upper(SqlText(ps)), KEYWORDS[k], i) {
      NoKeywordInRuns(AllRuns(ps), KEYWORDS[k], i);
    }
  }

  lemma {:induction false} SafeHasNoSemicolon(ps: seq<Piece>)
    requires Safe(ps)
    ensures ';' !in SqlText(ps)
  {
    if ps != [] {
      SafeHasNoSemicolon(ps[1..]);
      assert ';' !in PieceText(ps[0]);
    }
  }

  /** A safe text that begins with SELECT and a blank passes the guard. */
  lemma SafeSelectIsReadOnly(rest: seq<Piece>)
    requires Safe([Word("SELECT"), Gap(" ")] + rest)
    ensures ReadOnly(SqlText([Word("SELECT"), Gap(" ")] + rest))
  {
    var ps := [Word("SELECT"), Gap(" ")] + rest;
    var sql := SqlText(ps);
    SelectFirst(rest);
    SafeHasNoSemicolon(ps);
    forall k | 0 <= k < |KEYWORDS| ensures !NamesKeyword(sql, KEYWORDS[k]) {
      SafeNamesNoKeyword(ps, k);
    }
  }

  lemma SelectFirst(rest: seq<Piece>)
    ensures BeginsWithSelect(SqlText([Word("SELECT"), Gap(" ")] + rest))
  {
    var ps := [Word("SELECT"), Gap(" ")] + rest;
    var more := [Gap(" ")] + rest;
    assert ps[0] == Word("SELECT") && ps[1..] == more;
    assert more[0] == Gap(" ") && more[1..] == rest;
    var sql := SqlText(ps);
    assert SqlText(more) == " " + SqlText(rest);
    assert sql == "SELECT" + (" " + SqlText(rest));
    assert sql[..6] == "SELECT" && sql[6] == ' ' && sql[0] == 'S';
    assert TrimLeft(sql) == sql;
    assert Upper("SELECT") == "SELECT";
  }
}
