/** The pieces of a safe text are what a reader of the text finds in it. */
module SqlLexing {
  import opened Types
  import opened Ascii
  import opened Splitting
  import opened SqlGuard
  import opened SqlTemplate
  import opened SqlSyntax

  /** Punctuation, blanks left out. */
  function GapLex(g: string): seq<Lexeme> {
    if g == [] then [] else if Space(g[0]) then GapLex(g[1..]) else [Sym(g[0])] + GapLex(g[1..])
  }

  function PieceLex(p: Piece): seq<Lexeme> {
    match p
    case Word(w) => [Id(w)]
    case Gap(g) => GapLex(g)
    case Hole(name, kind) => [Param(name, kind)]
  }

  function PiecesLex(ps: seq<Piece>): seq<Lexeme> {
    if ps == [] then [] else PieceLex(ps[0]) + PiecesLex(ps[1..])
  }

  lemma {:induction false} PiecesLexAppend(a: seq<Piece>, b: seq<Piece>)
    ensures PiecesLex(a + b) == PiecesLex(a) + PiecesLex(b)
  {
    hide PieceLex;
    if a == [] {
      assert a + b == b;
    } else {
      PiecesLexAppend(a[1..], b);
      assert (a + b)[1..] == a[1..] + b && (a + b)[0] == a[0];
      Associative(PieceLex(a[0]), PiecesLex(a[1..]), PiecesLex(b));
    }
  }

  /** The run of word characters ends where the word does. */
  lemma {:induction false} WordRunIs(w: string, rest: string)
    requires AllWord(w) && (rest != [] ==> !WordChar(rest[0]))
    ensures WordRun(w + rest) == |w|
  {
    if w == [] {
      assert w + rest == rest;
    } else {
      WordRunIs(w[1..], rest);
      assert (w + rest)[1..] == w[1..] + rest;
    }
  }

  lemma WordCut(w: string, rest: string)
    requires AllWord(w) && (rest != [] ==> !WordChar(rest[0]))
    ensures FirstWord(w + rest) == w && BehindWord(w + rest) == rest
  {
    WordRunIs(w, rest);
    assert (w + rest)[..|w|] == w && (w + rest)[|w|..] == rest;
  }

  lemma WordLexes(w: string, rest: string)
    requires w != [] && AllWord(w) && (rest != [] ==> !WordChar(rest[0]))
    ensures Lex(w + rest) == [Id(w)] + Lex(rest)
  {
    hide FirstWord, BehindWord;
    WordCut(w, rest);
    assert (w + rest)[0] == w[0] && WordChar(w[0]);
  }

  lemma {:induction false} GapLexes(g: string, rest: string)
    requires forall i :: 0 <= i < |g| ==> !WordChar(g[i]) && g[i] != '{'
    ensures Lex(g + rest) == GapLex(g) + Lex(rest)
  {
    if g == [] {
      assert g + rest == rest;
    } else {
      GapLexes(g[1..], rest);
      assert (g + rest)[0] == g[0] && (g + rest)[1..] == g[1..] + rest;
      if !Space(g[0]) {
        Associative([Sym(g[0])], GapLex(g[1..]), Lex(rest));
      }
    }
  }

  lemma CutFirst(c: char, rest: string)
    ensures ([c] + rest)[0] == c && ([c] + rest)[1..] == rest
  {
  }

  lemma ParamScans(name: string, kind: string, rest: string)
    requires name != [] && AllWord(name) && kind != [] && AllWord(kind)
    ensures ScanParam(['{'] + (name + ([':'] + (kind + (['}'] + rest))))) == Some((name, kind, rest))
  {
    hide FirstWord, BehindWord;
    var tail := ['}'] + rest;
    var middle := [':'] + (kind + tail);
    CutFirst('}', rest);
    CutFirst(':', kind + tail);
    CutFirst('{', name + middle);
    WordCut(name, middle);
    WordCut(kind, tail);
  }

  lemma HoleText(name: string, kind: string, rest: string)
    ensures "{" + name + ":" + kind + "}" + rest == ['{'] + (name + ([':'] + (kind + (['}'] + rest))))
  {
    Associative("{" + name + ":" + kind, "}", rest);
    Associative("{" + name + ":", kind, "}" + rest);
    Associative("{" + name, ":", kind + ("}" + rest));
    Associative("{", name, ":" + (kind + ("}" + rest)));
  }

  lemma HoleLexes(name: string, kind: string, rest: string)
    requires name != [] && AllWord(name) && kind != [] && AllWord(kind)
    ensures Lex("{" + name + ":" + kind + "}" + rest) == [Param(name, kind)] + Lex(rest)
  {
    hide ScanParam, WordRun;
    HoleText(name, kind, rest);
    ParamScans(name, kind, rest);
    CutFirst('{', name + ([':'] + (kind + (['}'] + rest))));
  }

  lemma NextStartsGap(ps: seq<Piece>)
    requires Safe(ps) && (ps != [] ==> !ps[0].Word?)
    ensures SqlText(ps) != [] ==> !WordChar(SqlText(ps)[0])
  {
    if ps != [] {
      assert SafePiece(ps[0]);
      assert PieceText(ps[0]) != [] && SqlText(ps)[0] == PieceText(ps[0])[0];
    }
  }

  lemma PieceLexes(p: Piece, rest: string)
    requires SafePiece(p) && (p.Word? && rest != [] ==> !WordChar(rest[0]))
    ensures Lex(PieceText(p) + rest) == PieceLex(p) + Lex(rest)
  {
    hide Lex, GapLex, Suspicious;
    match p
    case Word(w) => WordLexes(w, rest);
    case Gap(g) => GapLexes(g, rest);
    case Hole(name, kind) => HoleLexes(name, kind, rest);
  }

  lemma SafeTail(ps: seq<Piece>)
    requires Safe(ps) && ps != []
    ensures SafePiece(ps[0]) && Safe(ps[1..]) && (ps[0].Word? && |ps| > 1 ==> !ps[1].Word?)
  {
    hide SafePiece;
    assert forall i :: 0 < i < |ps| ==> ps[1..][i - 1] == ps[i];
  }

  /** Reading the text of a safe template finds exactly its words, punctuation and placeholders. */
  lemma {:induction false} TextLexes(ps: seq<Piece>)
    requires Safe(ps)
    ensures Lex(SqlText(ps)) == PiecesLex(ps)
  {
    hide PieceLex, PieceText, SafePiece;
    if ps != [] {
      hide Lex;
      SafeTail(ps);
      TextLexes(ps[1..]);
      if ps[0].Word? {
        NextStartsGap(ps[1..]);
      }
      PieceLexes(ps[0], SqlText(ps[1..]));
    }
  }

  // ---- Placeholders ----------------------------------------------------------------------------

  ghost function ParamNames(ls: seq<Lexeme>): set<string> {
    set l | l in ls && l.Param? :: l.name
  }

  /** The names in braces, found by scanning the text. */
  ghost function Placeholders(sql: string): set<string> {
    ParamNames(Lex(sql))
  }

  function HoleNames(ps: seq<Piece>): set<string> {
    set p | p in ps && p.Hole? :: p.name
  }

  lemma ParamNamesAppend(a: seq<Lexeme>, b: seq<Lexeme>)
    ensures ParamNames(a + b) == ParamNames(a) + ParamNames(b)
  {
    assert forall l :: l in a + b <==> l in a || l in b;
  }

  lemma HoleNamesAppend(a: seq<Piece>, b: seq<Piece>)
    ensures HoleNames(a + b) == HoleNames(a) + HoleNames(b)
  {
    assert forall p :: p in a + b <==> p in a || p in b;
  }

  lemma {:induction false} GapHasNoParams(g: string)
    ensures ParamNames(GapLex(g)) == {}
  {
    if g != [] {
      GapHasNoParams(g[1..]);
      ParamNamesAppend([Sym(g[0])], GapLex(g[1..]));
    }
  }

  lemma PieceParams(p: Piece)
    ensures ParamNames(PieceLex(p)) == HoleNames([p])
  {
    match p
    case Word(w) =>
    case Gap(g) => GapHasNoParams(g);
    case Hole(name, kind) =>
      assert Param(name, kind) in [Param(name, kind)] && p in [p];
  }

  lemma {:induction false} PiecesParams(ps: seq<Piece>)
    ensures ParamNames(PiecesLex(ps)) == HoleNames(ps)
  {
    hide PieceLex;
    if ps != [] {
      PieceParams(ps[0]);
      PiecesParams(ps[1..]);
      ParamNamesAppend(PieceLex(ps[0]), PiecesLex(ps[1..]));
      HoleNamesAppend([ps[0]], ps[1..]);
      assert ps == [ps[0]] + ps[1..];
    }
  }

  /** Scanning the text for placeholders finds the holes of the template. */
  lemma PlaceholdersAreHoles(ps: seq<Piece>)
    requires Safe(ps)
    ensures Placeholders(SqlText(ps)) == HoleNames(ps)
  {
    TextLexes(ps);
    PiecesParams(ps);
  }
}
