/** What the query builder's text says: the query a reader of the text makes of it. */
module SqlReading {
  import opened Types
  import opened Splitting
  import opened QueryFilter
  import opened SqlTemplate
  import opened SqlSyntax
  import opened SqlLexing
  import opened SqlBuilder

  // ---- The query of a shape --------------------------------------------------------------------

  function Cols(cs: seq<Column>): seq<Operand> {
    if cs == [] then [] else [Col(cs[0])] + Cols(cs[1..])
  }

  const IDENTITY: seq<Column> :=
    [EventIdColumn, OccurredAt, ReceivedAt, EventType, SeverityColumn, ProducerService, ProducerInstance]
  const REST: seq<Column> :=
    [ActorTypeColumn, ActorIdColumn, TargetTypeColumn, TargetIdColumn, CorrelationIdColumn, CausationIdColumn,
     EventData]

  function Begins(): Condition {
    Compare(Col(OccurredAt), AtLeast, Instant("start_ms"))
  }

  function Ends(): Condition {
    Compare(Col(OccurredAt), Less, Instant("end_ms"))
  }

  function ListValues(key: string, n: nat): (vs: seq<Operand>)
    ensures |vs| == n
  {
    if n == 0 then [] else ListValues(key, n - 1) + [Val(key + Decimal(n - 1), "String")]
  }

  function Is(c: Column, name: string): Condition {
    Compare(Col(c), Equal, Val(name, "String"))
  }

  function ListConditions(c: Column, key: string, n: nat, equation: bool): seq<Condition> {
    if n == 0 then [] else if n == 1 && equation then [Is(c, key + Decimal(0))] else [In(Col(c), ListValues(key, n))]
  }

  const KEY_COLUMNS: seq<Column> := [OccurredAt, ProducerService, EventType, EventIdColumn]

  function CursorValues(): seq<Operand> {
    [Instant("cursor_ts"), Val("cursor_prod", "String"), Val("cursor_type", "String"), Val("cursor_id", "UUID")]
  }

  function PastCursor(order: SortOrder): Condition {
    CompareTuples(Cols(KEY_COLUMNS), if order.Descending? then Less else Greater, CursorValues())
  }

  function SortKeys(d: bool): seq<SortKey> {
    [SortKey(OccurredAt, d), SortKey(ProducerService, d), SortKey(EventType, d), SortKey(EventIdColumn, d)]
  }

  function When(present: bool, cs: seq<Condition>): seq<Condition> {
    if present then cs else []
  }

  function FilterConditions(s: Shape): seq<Condition> {
    [Begins(), Ends()] + ListConditions(ProducerService, "producer_", s.producers, true)
    + ListConditions(EventType, "event_type_", s.types, true)
    + ListConditions(SeverityColumn, "severity_", s.severities, false)
  }

  function ActorConditions(): seq<Condition> {
    [Is(ActorTypeColumn, "actor_type"), Is(ActorIdColumn, "actor_id")]
  }

  function TargetConditions(): seq<Condition> {
    [Is(TargetTypeColumn, "target_type"), Is(TargetIdColumn, "target_id")]
  }

  function Conditions(s: Shape): seq<Condition> {
    FilterConditions(s) + When(s.actor, ActorConditions()) + When(s.target, TargetConditions())
    + When(s.correlation, [Is(CorrelationIdColumn, "correlation_id")]) + When(s.cursor, [PastCursor(s.order)])
  }

  function QueryOf(s: Shape): Query {
    Query(Cols(IDENTITY + REST), Conditions(s), SortKeys(s.order.Descending?), EventIdColumn, "limit_plus_one")
  }

  // ---- Phrases ---------------------------------------------------------------------------------

  lemma Gaps()
    ensures GapLex(" ") == [] && GapLex(", ") == [Sym(',')] && GapLex(" = ") == [Sym('=')] && GapLex("(") == [Sym('(')]
    ensures GapLex(")") == [Sym(')')] && GapLex(" (") == [Sym('(')] && GapLex(") ") == [Sym(')')]
    ensures GapLex(".") == [Sym('.')]
  {
  }

  lemma MoreGaps()
    ensures GapLex(" >= ") == [Sym('>'), Sym('=')] && GapLex(" < ") == [Sym('<')]
    ensures GapLex("), ") == [Sym(')'), Sym(',')]
    ensures GapLex(") < (") == [Sym(')'), Sym('<'), Sym('(')] && GapLex(") > (") == [Sym(')'), Sym('>'), Sym('(')]
  {
  }

  /** Words and the punctuation behind each. */
  function Woven(ws: seq<string>, gs: seq<string>): seq<Lexeme>
    requires |ws| == |gs|
  {
    if ws == [] then [] else [Id(ws[0])] + (GapLex(gs[0]) + Woven(ws[1..], gs[1..]))
  }

  lemma OnePiece(p: Piece)
    ensures PiecesLex([p]) == PieceLex(p)
  {
    hide PieceLex;
    assert [p][1..] == [] && PieceLex(p) + [] == PieceLex(p);
  }

  lemma PairLexes(w: string, g: string)
    ensures PiecesLex([Word(w), Gap(g)]) == [Id(w)] + GapLex(g)
  {
    OnePiece(Word(w));
    OnePiece(Gap(g));
    PiecesLexAppend([Word(w)], [Gap(g)]);
    assert [Word(w), Gap(g)] == [Word(w)] + [Gap(g)];
  }

  lemma {:induction false} PhraseLexes(ws: seq<string>, gs: seq<string>)
    requires |ws| == |gs|
    ensures PiecesLex(Phrase(ws, gs)) == Woven(ws, gs)
  {
    hide GapLex;
    if ws != [] {
      PhraseLexes(ws[1..], gs[1..]);
      PairLexes(ws[0], gs[0]);
      PiecesLexAppend([Word(ws[0]), Gap(gs[0])], Phrase(ws[1..], gs[1..]));
      Associative([Id(ws[0])], GapLex(gs[0]), Woven(ws[1..], gs[1..]));
    }
  }

  lemma TailOfSum(a: seq<string>, b: seq<string>)
    requires a != []
    ensures (a + b)[0] == a[0] && (a + b)[1..] == a[1..] + b
  {
  }

  lemma Regroup(a: seq<Lexeme>, b: seq<Lexeme>, c: seq<Lexeme>, d: seq<Lexeme>)
    ensures a + (b + (c + d)) == a + (b + c) + d
  {
  }

  lemma WovenStep(ws: seq<string>, gs: seq<string>)
    requires |ws| == |gs|
    ensures Woven(ws, gs) == if ws == [] then [] else [Id(ws[0])] + (GapLex(gs[0]) + Woven(ws[1..], gs[1..]))
  {
    hide GapLex;
  }

  lemma {:induction false} WovenAppend(a: seq<string>, g: seq<string>, b: seq<string>, h: seq<string>)
    requires |a| == |g| && |b| == |h|
    ensures Woven(a + b, g + h) == Woven(a, g) + Woven(b, h)
  {
    hide GapLex, Woven;
    WovenStep(a, g);
    if a == [] {
      assert a + b == b && g + h == h;
    } else {
      WovenAppend(a[1..], g[1..], b, h);
      WovenStep(a + b, g + h);
      TailOfSum(a, b);
      TailOfSum(g, h);
      Regroup([Id(a[0])], GapLex(g[0]), Woven(a[1..], g[1..]), Woven(b, h));
    }
  }

  lemma WovenOne(w: string, g: string)
    ensures Woven([w], [g]) == [Id(w)] + GapLex(g)
  {
    hide GapLex;
    assert [w][1..] == [] && [g][1..] == [];
    assert GapLex(g) + [] == GapLex(g);
  }

  lemma WovenTwo(w: string, g: string, x: string, h: string)
    ensures Woven([w, x], [g, h]) == [Id(w)] + GapLex(g) + ([Id(x)] + GapLex(h))
  {
    hide GapLex, Woven;
    WovenOne(w, g);
    WovenOne(x, h);
    WovenAppend([w], [g], [x], [h]);
    assert [w, x] == [w] + [x] && [g, h] == [g] + [h];
  }

  lemma WovenFour(ws: seq<string>, gs: seq<string>)
    requires |ws| == |gs| == 4
    ensures Woven(ws, gs) == [Id(ws[0])] + GapLex(gs[0]) + ([Id(ws[1])] + GapLex(gs[1])) +
                             ([Id(ws[2])] + GapLex(gs[2]) + ([Id(ws[3])] + GapLex(gs[3])))
  {
    hide GapLex, Woven;
    WovenTwo(ws[0], gs[0], ws[1], gs[1]);
    WovenTwo(ws[2], gs[2], ws[3], gs[3]);
    WovenAppend([ws[0], ws[1]], [gs[0], gs[1]], [ws[2], ws[3]], [gs[2], gs[3]]);
    assert ws == [ws[0], ws[1]] + [ws[2], ws[3]] && gs == [gs[0], gs[1]] + [gs[2], gs[3]];
  }

  // ---- Equations and lists ---------------------------------------------------------------------

  lemma OneAnd(c: Condition)
    ensures AndLex([c]) == [Id("AND")] + ConditionLex(c)
  {
    hide ConditionLex;
    assert [c][1..] == [] && [Id("AND")] + ConditionLex(c) + [] == [Id("AND")] + ConditionLex(c);
  }

  lemma IsLex(c: Column, name: string)
    ensures AndLex([Is(c, name)]) == [Id("AND"), Id(ColumnName(c)), Sym('='), Param(name, "String")]
  {
    hide ColumnName;
    OneAnd(Is(c, name));
  }

  lemma EqualsLexes(c: Column, name: string)
    ensures PiecesLex(Equals(ColumnName(c), name)) == AndLex([Is(c, name)])
  {
    hide ColumnName, AndLex, GapLex, Woven, Phrase, PiecesLex;
    var ws, gs, hole := ["AND", ColumnName(c)], [" ", " = "], [Hole(name, "String")];
    IsLex(c, name);
    Gaps();
    OnePiece(Gap(" "));
    OnePiece(hole[0]);
    WovenTwo("AND", " ", ColumnName(c), " = ");
    PhraseLexes(ws, gs);
    PiecesLexAppend(Phrase(ws, gs), hole);
    PiecesLexAppend([Gap(" ")], Phrase(ws, gs) + hole);
  }

  lemma {:induction false} OperandsLexAppend(a: seq<Operand>, b: seq<Operand>)
    requires a != [] && b != []
    ensures OperandsLex(a + b) == OperandsLex(a) + [Sym(',')] + OperandsLex(b)
  {
    hide OperandLex;
    assert (a + b)[1..] == a[1..] + b && (a + b)[0] == a[0];
    if |a| == 1 {
      assert a[1..] + b == b;
    } else {
      OperandsLexAppend(a[1..], b);
      var head := OperandLex(a[0]) + [Sym(',')];
      Associative(head, OperandsLex(a[1..]) + [Sym(',')], OperandsLex(b));
      Associative(head, OperandsLex(a[1..]), [Sym(',')]);
    }
  }

  lemma OneOperand(o: Operand)
    ensures OperandsLex([o]) == OperandLex(o)
  {
  }

  lemma {:induction false} HolesLex(key: string, n: nat)
    requires n > 0
    ensures PiecesLex(Holes(key, n)) == OperandsLex(ListValues(key, n))
  {
    hide GapLex, OperandsLex, PiecesLex;
    var hole, value := Hole(key + Decimal(n - 1), "String"), Val(key + Decimal(n - 1), "String");
    OnePiece(hole);
    OneOperand(value);
    if n == 1 {
      assert ListValues(key, 1) == [value];
    } else {
      HolesLex(key, n - 1);
      Gaps();
      OnePiece(Gap(", "));
      PiecesLexAppend([Gap(", ")], [hole]);
      PiecesLexAppend(Holes(key, n - 1), [Gap(", ")] + [hole]);
      assert [Gap(", "), hole] == [Gap(", ")] + [hole];
      OperandsLexAppend(ListValues(key, n - 1), [value]);
      Associative(OperandsLex(ListValues(key, n - 1)), [Sym(',')], OperandsLex([value]));
    }
  }

  lemma InLex(c: Column, vs: seq<Operand>)
    ensures AndLex([In(Col(c), vs)]) ==
            [Id("AND"), Id(ColumnName(c)), Id("IN"), Sym('(')] + (OperandsLex(vs) + [Sym(')')])
  {
    hide ColumnName, OperandsLex, AndLex;
    OneAnd(In(Col(c), vs));
  }

  lemma InClauseLexes(c: Column, key: string, n: nat)
    requires n > 0
    ensures PiecesLex(InClause(ColumnName(c), key, n)) == AndLex([In(Col(c), ListValues(key, n))])
  {
    hide ColumnName, AndLex, GapLex, Woven, Phrase, PiecesLex, Holes, OperandsLex, ListValues;
    var ws, gs := ["AND", ColumnName(c), "IN"], [" ", " ", " ("];
    InLex(c, ListValues(key, n));
    HolesLex(key, n);
    Gaps();
    OnePiece(Gap(" "));
    OnePiece(Gap(")"));
    WovenTwo("AND", " ", ColumnName(c), " ");
    WovenOne("IN", " (");
    WovenAppend(["AND", ColumnName(c)], [" ", " "], ["IN"], [" ("]);
    assert ws == ["AND", ColumnName(c)] + ["IN"] && gs == [" ", " "] + [" ("];
    PhraseLexes(ws, gs);
    PiecesLexAppend(Holes(key, n), [Gap(")")]);
    PiecesLexAppend(Phrase(ws, gs), Holes(key, n) + [Gap(")")]);
    PiecesLexAppend([Gap(" ")], Phrase(ws, gs) + (Holes(key, n) + [Gap(")")]));
  }

  lemma ListClauseLexes(c: Column, key: string, n: nat, equation: bool)
    ensures PiecesLex(ListClause(ColumnName(c), key, n, equation)) == AndLex(ListConditions(c, key, n, equation))
  {
    hide ColumnName, Equals, InClause, ListValues;
    EqualsLexes(c, key + Decimal(0));
    if n > 0 {
      InClauseLexes(c, key, n);
    }
  }

  // ---- The other clauses -----------------------------------------------------------------------

  function Names(cs: seq<Column>): (ws: seq<string>)
    ensures |ws| == |cs|
  {
    if cs == [] then [] else [ColumnName(cs[0])] + Names(cs[1..])
  }

  /** Column names with commas between them. */
  lemma {:induction false} ColumnsLex(cs: seq<Column>, gs: seq<string>)
    requires |cs| == |gs| > 0 && forall i :: 0 <= i < |gs| - 1 ==> gs[i] == ", "
    ensures Woven(Names(cs), gs) == OperandsLex(Cols(cs)) + GapLex(gs[|gs| - 1])
  {
    hide ColumnName, GapLex, OperandsLex;
    OneOperand(Col(cs[0]));
    if |cs| == 1 {
      assert cs[1..] == [] && gs[1..] == [] && Cols(cs) == [Col(cs[0])];
      assert GapLex(gs[0]) + [] == GapLex(gs[0]);
    } else {
      ColumnsLex(cs[1..], gs[1..]);
      Gaps();
      assert Cols(cs[1..])[0] == Col(cs[1]);
      OperandsLexAppend([Col(cs[0])], Cols(cs[1..]));
      assert Names(cs)[1..] == Names(cs[1..]);
    }
  }

  function SelectLex(): seq<Lexeme> {
    [Id("SELECT")] + (OperandsLex(Cols(IDENTITY + REST)) + FromLex())
  }

  lemma IdentityLex()
    ensures Woven(IDS, COMMAS) == OperandsLex(Cols(IDENTITY)) + [Sym(',')]
  {
    hide GapLex, Woven, OperandsLex;
    assert IDS == Names(IDENTITY);
    Gaps();
    hide Names;
    ColumnsLex(IDENTITY, COMMAS);
  }

  lemma RestLex()
    ensures Woven(PARTIES, LAST_COMMAS) == OperandsLex(Cols(REST))
  {
    hide GapLex, Woven, OperandsLex;
    assert PARTIES == Names(REST);
    Gaps();
    hide Names;
    ColumnsLex(REST, LAST_COMMAS);
  }

  lemma ColsStep(cs: seq<Column>)
    ensures Cols(cs) == if cs == [] then [] else [Col(cs[0])] + Cols(cs[1..])
  {
  }

  lemma {:induction false} ColsAppend(a: seq<Column>, b: seq<Column>)
    ensures Cols(a + b) == Cols(a) + Cols(b)
  {
    hide Cols;
    ColsStep(a);
    if a == [] {
      assert a + b == b;
    } else {
      ColsAppend(a[1..], b);
      ColsStep(a + b);
      assert (a + b)[0] == a[0] && (a + b)[1..] == a[1..] + b;
    }
  }

  lemma FromLexes()
    ensures Woven(["FROM", "securecloud_audit", "audit_events", "WHERE"], [" ", ".", " ", " "]) == FromLex()
  {
    hide GapLex;
    Gaps();
    WovenFour(["FROM", "securecloud_audit", "audit_events", "WHERE"], [" ", ".", " ", " "]);
  }

  /** The text of a clause reads as `ls`. */
  ghost predicate Reads(ps: seq<Piece>, ls: seq<Lexeme>) {
    PiecesLex(ps) == ls
  }

  lemma Then(a: seq<Piece>, x: seq<Lexeme>, b: seq<Piece>, y: seq<Lexeme>)
    requires Reads(a, x) && Reads(b, y)
    ensures Reads(a + b, x + y)
  {
    PiecesLexAppend(a, b);
  }

  lemma ThenTwo(a: seq<Piece>, x: seq<Lexeme>, b: seq<Piece>, y: seq<Lexeme>, c: seq<Piece>, z: seq<Lexeme>)
    requires Reads(a, x) && Reads(b, y) && Reads(c, z)
    ensures Reads(a + (b + c), x + (y + z))
  {
    Then(b, y, c, z);
    Then(a, x, b + c, y + z);
  }

  lemma PhraseReads(ws: seq<string>, gs: seq<string>)
    requires |ws| == |gs|
    ensures Reads(Phrase(ws, gs), Woven(ws, gs))
  {
    PhraseLexes(ws, gs);
  }

  lemma HoleReads(name: string, kind: string, gap: string)
    ensures Reads([Hole(name, kind), Gap(gap)], [Param(name, kind)] + GapLex(gap))
  {
    OnePiece(Hole(name, kind));
    OnePiece(Gap(gap));
    PiecesLexAppend([Hole(name, kind)], [Gap(gap)]);
    assert [Hole(name, kind), Gap(gap)] == [Hole(name, kind)] + [Gap(gap)];
  }

  lemma BlankReads()
    ensures Reads([Gap(" ")], [])
  {
    Gaps();
    OnePiece(Gap(" "));
  }

  lemma AllColumns()
    ensures OperandsLex(Cols(IDENTITY + REST)) == OperandsLex(Cols(IDENTITY)) + [Sym(',')] + OperandsLex(Cols(REST))
  {
    assert Cols(IDENTITY) != [] && Cols(REST) != [];
    ColsAppend(IDENTITY, REST);
    hide Cols, IDENTITY, REST;
    OperandsLexAppend(Cols(IDENTITY), Cols(REST));
  }

  lemma SelectLexes()
    ensures Reads(SelectClause(), SelectLex())
  {
    hide Woven, GapLex, OperandsLex, Phrase, PiecesLex, Cols, IDENTITY, REST, FromLex;
    var from, dots := ["FROM", "securecloud_audit", "audit_events", "WHERE"], [" ", ".", " ", " "];
    var ids, rest := Phrase(IDS, COMMAS), Phrase(PARTIES, LAST_COMMAS);
    PhraseReads(IDS, COMMAS);
    PhraseReads(PARTIES, LAST_COMMAS);
    PhraseReads(from, dots);
    IdentityLex();
    RestLex();
    FromLexes();
    AllColumns();
    PairLexes("SELECT", " ");
    Gaps();
    assert Reads([Word("SELECT"), Gap(" ")], [Id("SELECT")]);
    hide Reads, IDS, PARTIES, COMMAS, LAST_COMMAS;
    var x, y, z := OperandsLex(Cols(IDENTITY)) + [Sym(',')], OperandsLex(Cols(REST)), FromLex();
    Then(rest, y, Phrase(from, dots), z);
    Then(ids, x, rest + Phrase(from, dots), y + z);
    Then([Word("SELECT"), Gap(" ")], [Id("SELECT")], ids + (rest + Phrase(from, dots)), x + (y + z));
    Associative(x, y, z);
  }

  function SinceLex(op: seq<Lexeme>): seq<Lexeme> {
    [Id("occurred_at")] + op + ([Id(FROM_MILLIS)] + [Sym('(')])
  }

  lemma InstantLex(op: Comparison, name: string)
    ensures ConditionLex(Compare(Col(OccurredAt), op, Instant(name))) ==
            SinceLex(OpLex(op)) + ([Param(name, "Int64")] + [Sym(')')])
  {
    hide OpLex, FROM_MILLIS;
    assert OperandLex(Instant(name)) == [Id(FROM_MILLIS)] + [Sym('(')] + ([Param(name, "Int64")] + [Sym(')')]);
    Associative([Id("occurred_at")] + OpLex(op), [Id(FROM_MILLIS)] + [Sym('(')], [Param(name, "Int64")] + [Sym(')')]);
    Associative([Id("occurred_at")], OpLex(op), OperandLex(Instant(name)));
  }

  lemma WindowWords()
    ensures Woven(["occurred_at", FROM_MILLIS], [" >= ", "("]) == SinceLex(OpLex(AtLeast))
    ensures Woven(["AND", "occurred_at", FROM_MILLIS], [" ", " < ", "("]) == [Id("AND")] + SinceLex(OpLex(Less))
  {
    hide GapLex, FROM_MILLIS, Woven;
    Gaps();
    MoreGaps();
    WovenTwo("occurred_at", " >= ", FROM_MILLIS, "(");
    WovenOne("AND", " ");
    WovenTwo("occurred_at", " < ", FROM_MILLIS, "(");
    WovenAppend(["AND"], [" "], ["occurred_at", FROM_MILLIS], [" < ", "("]);
    assert ["AND", "occurred_at", FROM_MILLIS] == ["AND"] + ["occurred_at", FROM_MILLIS] &&
           [" ", " < ", "("] == [" "] + [" < ", "("];
  }

  lemma WindowLexes()
    ensures Reads(WindowClause(), ConditionLex(Begins()) + AndLex([Ends()]))
  {
    hide Reads, Woven, Phrase, GapLex, SinceLex, OpLex, AndLex, ConditionLex;
    var ws, gs := ["occurred_at", FROM_MILLIS], [" >= ", "("];
    var vs, hs := ["AND", "occurred_at", FROM_MILLIS], [" ", " < ", "("];
    var first, second := [Hole("start_ms", "Int64"), Gap(") ")], [Hole("end_ms", "Int64"), Gap(")")];
    var p, q := [Param("start_ms", "Int64")] + [Sym(')')], [Param("end_ms", "Int64")] + [Sym(')')];
    var x, y := SinceLex(OpLex(AtLeast)), SinceLex(OpLex(Less));
    assert WindowClause() == Phrase(ws, gs) + (first + (Phrase(vs, hs) + second)) by { hide Phrase; }
    PhraseReads(ws, gs);
    PhraseReads(vs, hs);
    WindowWords();
    Gaps();
    HoleReads("start_ms", "Int64", ") ");
    HoleReads("end_ms", "Int64", ")");
    OneAnd(Ends());
    InstantLex(AtLeast, "start_ms");
    InstantLex(Less, "end_ms");
    hide WindowClause, FROM_MILLIS;
    Then(Phrase(vs, hs), [Id("AND")] + y, second, q);
    Then(first, p, Phrase(vs, hs) + second, [Id("AND")] + y + q);
    Then(Phrase(ws, gs), x, first + (Phrase(vs, hs) + second), p + ([Id("AND")] + y + q));
    Associative([Id("AND")], y, q);
    Associative(x, p, [Id("AND")] + (y + q));
  }

  // ---- The cursor ------------------------------------------------------------------------------

  lemma FourOperands(a: Operand, b: Operand, c: Operand, d: Operand)
    ensures OperandsLex([a, b, c, d]) ==
            OperandLex(a) + [Sym(',')] + (OperandLex(b) + [Sym(',')] + (OperandLex(c) + [Sym(',')] + OperandLex(d)))
  {
    hide OperandLex, OperandsLex;
    OneOperand(a);
    OneOperand(b);
    OneOperand(c);
    OneOperand(d);
    OperandsLexAppend([c], [d]);
    OperandsLexAppend([b], [c] + [d]);
    OperandsLexAppend([a], [b] + ([c] + [d]));
    assert [a, b, c, d] == [a] + ([b] + ([c] + [d]));
  }

  function ThreeKeysLex(): seq<Lexeme> {
    [Id("occurred_at"), Sym(','), Id("producer_service"), Sym(','), Id("event_type"), Sym(',')]
  }

  lemma KeyColumnsLex()
    ensures OperandsLex(Cols(KEY_COLUMNS)) == ThreeKeysLex() + [Id("event_id")]
  {
    hide OperandsLex;
    var a, b, c, d := Col(OccurredAt), Col(ProducerService), Col(EventType), Col(EventIdColumn);
    assert Cols(KEY_COLUMNS) == [a, b, c, d];
    hide Cols, KEY_COLUMNS;
    FourOperands(a, b, c, d);
  }

  function CursorHolesLex(): seq<Lexeme> {
    [Param("cursor_ts", "Int64"), Sym(')'), Sym(','), Param("cursor_prod", "String"), Sym(','),
     Param("cursor_type", "String"), Sym(','), Param("cursor_id", "UUID")]
  }

  lemma CursorValuesLex()
    ensures OperandsLex(CursorValues()) == [Id(FROM_MILLIS), Sym('(')] + CursorHolesLex()
  {
    hide OperandsLex, FROM_MILLIS;
    FourOperands(Instant("cursor_ts"), Val("cursor_prod", "String"), Val("cursor_type", "String"),
                 Val("cursor_id", "UUID"));
  }

  lemma CursorHolesRead()
    ensures Reads(CursorHoles(), CursorHolesLex() + [Sym(')')])
  {
    hide Reads, GapLex;
    var a, b := [Hole("cursor_ts", "Int64"), Gap("), ")], [Hole("cursor_prod", "String"), Gap(", ")];
    var c, d := [Hole("cursor_type", "String"), Gap(", ")], [Hole("cursor_id", "UUID"), Gap(")")];
    assert CursorHoles() == a + (b + (c + d));
    Gaps();
    MoreGaps();
    HoleReads("cursor_ts", "Int64", "), ");
    HoleReads("cursor_prod", "String", ", ");
    HoleReads("cursor_type", "String", ", ");
    HoleReads("cursor_id", "UUID", ")");
    hide CursorHoles;
    var w, x, y, z := [Param("cursor_ts", "Int64"), Sym(')'), Sym(',')], [Param("cursor_prod", "String"), Sym(',')],
                      [Param("cursor_type", "String"), Sym(',')], [Param("cursor_id", "UUID"), Sym(')')];
    assert w + (x + (y + z)) == CursorHolesLex() + [Sym(')')];
    hide CursorHolesLex;
    ThenTwo(b, x, c, y, d, z);
    Then(a, w, b + (c + d), x + (y + z));
  }

  function Toward(order: SortOrder): Comparison {
    if order.Descending? then Less else Greater
  }

  lemma CursorWords(order: SortOrder)
    ensures Woven(["AND", "occurred_at", "producer_service", "event_type"], [" (", ", ", ", ", ", "]) ==
            [Id("AND"), Sym('(')] + ThreeKeysLex()
    ensures Woven(["event_id", FROM_MILLIS], [if order.Descending? then ") < (" else ") > (", "("]) ==
            [Id("event_id"), Sym(')')] + (OpLex(Toward(order)) + [Sym('('), Id(FROM_MILLIS), Sym('(')])
  {
    hide GapLex, FROM_MILLIS;
    Gaps();
    MoreGaps();
    WovenFour(["AND", "occurred_at", "producer_service", "event_type"], [" (", ", ", ", ", ", "]);
    WovenTwo("event_id", if order.Descending? then ") < (" else ") > (", FROM_MILLIS, "(");
  }

  lemma PastCursorLex(order: SortOrder)
    ensures AndLex([PastCursor(order)]) ==
            [Id("AND"), Sym('(')] + ThreeKeysLex() +
            ([Id("event_id"), Sym(')')] + (OpLex(Toward(order)) + [Sym('('), Id(FROM_MILLIS), Sym('(')]) +
             (CursorHolesLex() + [Sym(')')]))
  {
    hide AndLex, OpLex, OperandsLex, Cols, CursorValues, FROM_MILLIS, ThreeKeysLex, CursorHolesLex;
    OneAnd(PastCursor(order));
    KeyColumnsLex();
    CursorValuesLex();
    var op, keys, holes := OpLex(Toward(order)), ThreeKeysLex(), CursorHolesLex();
    var lex := [Sym('(')] + (keys + [Id("event_id")] +
                             ([Sym(')')] + (op + ([Sym('(')] + ([Id(FROM_MILLIS), Sym('(')] + holes + [Sym(')')])))));
    assert ConditionLex(PastCursor(order)) == lex;
    CursorGlue(op, keys, holes);
  }

  lemma CursorGlue(op: seq<Lexeme>, keys: seq<Lexeme>, holes: seq<Lexeme>)
    ensures var values := [Id(FROM_MILLIS), Sym('(')] + holes + [Sym(')')];
            [Id("AND")] + ([Sym('(')] + (keys + [Id("event_id")] + ([Sym(')')] + (op + ([Sym('(')] + values))))) ==
            [Id("AND"), Sym('(')] + keys +
              ([Id("event_id"), Sym(')')] + (op + [Sym('('), Id(FROM_MILLIS), Sym('(')]) + (holes + [Sym(')')]))
  {
    hide FROM_MILLIS;
    var from := [Sym('('), Id(FROM_MILLIS), Sym('(')];
    var end := holes + [Sym(')')];
    assert [Sym('(')] + ([Id(FROM_MILLIS), Sym('(')] + holes + [Sym(')')]) == from + end;
    Associative(op, from, end);
    var tail := op + from + end;
    assert keys + [Id("event_id")] + ([Sym(')')] + tail) == keys + ([Id("event_id"), Sym(')')] + tail);
    Associative([Id("event_id"), Sym(')')], op + from, end);
    var rest := [Id("event_id"), Sym(')')] + (op + from) + end;
    assert [Id("AND")] + ([Sym('(')] + (keys + rest)) == [Id("AND"), Sym('(')] + keys + rest;
  }

  lemma CursorLexes(order: SortOrder)
    ensures Reads(CursorClause(order), AndLex([PastCursor(order)]))
  {
    hide Reads, Woven, Phrase, CursorHoles, CursorHolesLex, ThreeKeysLex, AndLex, OpLex, PastCursor;
    var ws, gs := ["AND", "occurred_at", "producer_service", "event_type"], [" (", ", ", ", ", ", "];
    var vs, hs := ["event_id", FROM_MILLIS], [if order.Descending? then ") < (" else ") > (", "("];
    PhraseReads(ws, gs);
    PhraseReads(vs, hs);
    CursorWords(order);
    CursorHolesRead();
    BlankReads();
    PastCursorLex(order);
    var x, y, z := Woven(ws, gs), Woven(vs, hs), CursorHolesLex() + [Sym(')')];
    Then(Phrase(vs, hs), y, CursorHoles(), z);
    Then(Phrase(ws, gs), x, Phrase(vs, hs) + CursorHoles(), y + z);
    Then([Gap(" ")], [], Phrase(ws, gs) + (Phrase(vs, hs) + CursorHoles()), x + (y + z));
    assert [] + (x + (y + z)) == x + (y + z);
  }

  // ---- Order and limit -------------------------------------------------------------------------

  lemma {:induction false} KeysLexAppend(a: seq<SortKey>, b: seq<SortKey>)
    requires a != [] && b != []
    ensures KeysLex(a + b) == KeysLex(a) + [Sym(',')] + KeysLex(b)
  {
    hide KeyLex;
    assert (a + b)[1..] == a[1..] + b && (a + b)[0] == a[0];
    if |a| == 1 {
      assert a[1..] + b == b;
    } else {
      KeysLexAppend(a[1..], b);
      var head := KeyLex(a[0]) + [Sym(',')];
      Associative(head, KeysLex(a[1..]) + [Sym(',')], KeysLex(b));
      Associative(head, KeysLex(a[1..]), [Sym(',')]);
    }
  }

  lemma OneKey(k: SortKey)
    ensures KeysLex([k]) == KeyLex(k)
  {
  }

  lemma FourKeys(a: SortKey, b: SortKey, c: SortKey, d: SortKey)
    ensures KeysLex([a, b, c, d]) ==
            KeyLex(a) + [Sym(',')] + (KeyLex(b) + [Sym(',')]) + (KeyLex(c) + [Sym(',')] + KeyLex(d))
  {
    hide KeyLex, KeysLex;
    OneKey(a);
    OneKey(b);
    OneKey(c);
    OneKey(d);
    KeysLexAppend([a], [b]);
    KeysLexAppend([c], [d]);
    KeysLexAppend([a] + [b], [c] + [d]);
    assert [a, b, c, d] == [a] + [b] + ([c] + [d]);
    Associative(KeyLex(a) + [Sym(',')], KeyLex(b), [Sym(',')]);
  }

  lemma SortKeysLex(d: bool, dir: string)
    requires DirectionLex(d) == Id(dir)
    ensures KeysLex(SortKeys(d)) ==
            [Id("occurred_at"), Id(dir), Sym(','), Id("producer_service"), Id(dir), Sym(','), Id("event_type"), Id(dir),
             Sym(','), Id("event_id"), Id(dir)]
  {
    hide KeysLex;
    FourKeys(SortKey(OccurredAt, d), SortKey(ProducerService, d), SortKey(EventType, d), SortKey(EventIdColumn, d));
  }

  lemma OrderWords(dir: string)
    ensures Woven(["occurred_at", dir, "producer_service", dir, "event_type", dir, "event_id", dir],
                  [" ", ", ", " ", ", ", " ", ", ", " ", " "]) ==
            [Id("occurred_at"), Id(dir), Sym(','), Id("producer_service"), Id(dir), Sym(','), Id("event_type"), Id(dir),
             Sym(','), Id("event_id"), Id(dir)]
  {
    hide GapLex, Woven;
    var a, g := ["occurred_at", dir, "producer_service", dir], [" ", ", ", " ", ", "];
    var b, h := ["event_type", dir, "event_id", dir], [" ", ", ", " ", " "];
    Gaps();
    WovenFour(a, g);
    WovenFour(b, h);
    WovenAppend(a, g, b, h);
    assert a + b == ["occurred_at", dir, "producer_service", dir, "event_type", dir, "event_id", dir];
    assert g + h == [" ", ", ", " ", ", ", " ", ", ", " ", " "];
  }

  lemma OrderLexes(order: SortOrder)
    ensures Reads(OrderClause(order), [Id("ORDER"), Id("BY")] + KeysLex(SortKeys(order.Descending?)))
  {
    hide GapLex, Woven, Reads, Phrase, KeysLex, SortKeys;
    var dir := if order.Descending? then "DESC" else "ASC";
    var ws, gs := ["ORDER", "BY"], [" ", " "];
    var vs := ["occurred_at", dir, "producer_service", dir, "event_type", dir, "event_id", dir];
    var hs := [" ", ", ", " ", ", ", " ", ", ", " ", " "];
    Gaps();
    WovenTwo("ORDER", " ", "BY", " ");
    assert Woven(ws, gs) == [Id("ORDER"), Id("BY")];
    SortKeysLex(order.Descending?, dir);
    OrderWords(dir);
    PhraseReads(ws, gs);
    PhraseReads(vs, hs);
    BlankReads();
    var x, y := Woven(ws, gs), Woven(vs, hs);
    Then(Phrase(ws, gs), x, Phrase(vs, hs), y);
    Then([Gap(" ")], [], Phrase(ws, gs) + Phrase(vs, hs), x + y);
    assert [] + (x + y) == x + y;
  }

  function LimitLex(): seq<Lexeme> {
    [Id("LIMIT"), Id("1"), Id("BY"), Id("event_id"), Id("LIMIT"), Param("limit_plus_one", "UInt32"), Id("FORMAT"),
     Id("TabSeparated")]
  }

  lemma LimitWords()
    ensures Woven(["LIMIT", "1", "BY", "event_id", "LIMIT"], [" ", " ", " ", " ", " "]) ==
            [Id("LIMIT"), Id("1"), Id("BY"), Id("event_id"), Id("LIMIT")]
  {
    hide GapLex, Woven;
    var a, g := ["LIMIT", "1", "BY", "event_id"], [" ", " ", " ", " "];
    Gaps();
    WovenFour(a, g);
    WovenOne("LIMIT", " ");
    WovenAppend(a, g, ["LIMIT"], [" "]);
    assert a + ["LIMIT"] == ["LIMIT", "1", "BY", "event_id", "LIMIT"] && g + [" "] == [" ", " ", " ", " ", " "];
  }

  lemma FormatReads()
    ensures Reads([Word("FORMAT"), Gap(" "), Word("TabSeparated")], [Id("FORMAT"), Id("TabSeparated")])
  {
    var ps := [Word("FORMAT"), Gap(" "), Word("TabSeparated")];
    Gaps();
    PairLexes("FORMAT", " ");
    OnePiece(Word("TabSeparated"));
    PiecesLexAppend([Word("FORMAT"), Gap(" ")], [Word("TabSeparated")]);
    assert ps == [Word("FORMAT"), Gap(" ")] + [Word("TabSeparated")];
  }

  lemma LimitLexes()
    ensures Reads(LimitClause(), LimitLex())
  {
    hide Reads, Woven, GapLex, Phrase;
    var ws, gs := ["LIMIT", "1", "BY", "event_id", "LIMIT"], [" ", " ", " ", " ", " "];
    var hole, format := [Hole("limit_plus_one", "UInt32"), Gap(" ")], [Word("FORMAT"), Gap(" "), Word("TabSeparated")];
    Gaps();
    LimitWords();
    PhraseReads(ws, gs);
    HoleReads("limit_plus_one", "UInt32", " ");
    FormatReads();
    assert LimitClause() == Phrase(ws, gs) + (hole + format) by { hide Phrase; }
    var x, y, z := Woven(ws, gs), [Param("limit_plus_one", "UInt32")] + GapLex(" "), [Id("FORMAT"), Id("TabSeparated")];
    assert x + (y + z) == LimitLex() by { hide Woven, GapLex; }
    hide LimitClause, LimitLex;
    ThenTwo(Phrase(ws, gs), x, hole, y, format, z);
  }

  // ---- The whole text --------------------------------------------------------------------------

  lemma {:induction false} AndLexAppend(a: seq<Condition>, b: seq<Condition>)
    ensures AndLex(a + b) == AndLex(a) + AndLex(b)
  {
    hide ConditionLex;
    if a == [] {
      assert a + b == b;
    } else {
      AndLexAppend(a[1..], b);
      assert (a + b)[1..] == a[1..] + b && (a + b)[0] == a[0];
      Associative([Id("AND")] + ConditionLex(a[0]), AndLex(a[1..]), AndLex(b));
    }
  }

  /** The text so far is SELECT .. WHERE with these conditions. */
  ghost predicate Where(sql: seq<Piece>, cs: seq<Condition>) {
    cs != [] && PiecesLex(sql) == SelectLex() + (ConditionLex(cs[0]) + AndLex(cs[1..]))
  }

  lemma Adds(sql: seq<Piece>, cs: seq<Condition>, clause: seq<Piece>, ds: seq<Condition>)
    requires Where(sql, cs) && Reads(clause, AndLex(ds))
    ensures Where(sql + clause, cs + ds)
  {
    hide SelectLex, ConditionLex, AndLex;
    PiecesLexAppend(sql, clause);
    assert (cs + ds)[1..] == cs[1..] + ds && (cs + ds)[0] == cs[0];
    AndLexAppend(cs[1..], ds);
    Associative(SelectLex(), ConditionLex(cs[0]) + AndLex(cs[1..]), AndLex(ds));
    Associative(ConditionLex(cs[0]), AndLex(cs[1..]), AndLex(ds));
  }

  lemma WindowWhere()
    ensures Where(SelectClause() + WindowClause(), [Begins(), Ends()])
  {
    hide SelectClause, WindowClause, SelectLex, ConditionLex, AndLex, Begins, Ends;
    SelectLexes();
    WindowLexes();
    Then(SelectClause(), SelectLex(), WindowClause(), ConditionLex(Begins()) + AndLex([Ends()]));
    assert [Begins(), Ends()][1..] == [Ends()];
  }

  lemma AddsList(sql: seq<Piece>, cs: seq<Condition>, c: Column, key: string, n: nat, equation: bool)
    requires Where(sql, cs)
    ensures Where(sql + ListClause(ColumnName(c), key, n, equation), cs + ListConditions(c, key, n, equation))
  {
    hide Where, ListClause, ListConditions, ColumnName, AndLex;
    ListClauseLexes(c, key, n, equation);
    Adds(sql, cs, ListClause(ColumnName(c), key, n, equation), ListConditions(c, key, n, equation));
  }

  lemma FiltersWhere(s: Shape)
    ensures Where(FilterClauses(s), FilterConditions(s))
  {
    hide Where, SelectClause, WindowClause, ListClause, ListConditions, Begins, Ends;
    WindowWhere();
    var sql, cs := SelectClause() + WindowClause(), [Begins(), Ends()];
    AddsList(sql, cs, ProducerService, "producer_", s.producers, true);
    sql := sql + ListClause("producer_service", "producer_", s.producers, true);
    cs := cs + ListConditions(ProducerService, "producer_", s.producers, true);
    AddsList(sql, cs, EventType, "event_type_", s.types, true);
    sql := sql + ListClause("event_type", "event_type_", s.types, true);
    cs := cs + ListConditions(EventType, "event_type_", s.types, true);
    AddsList(sql, cs, SeverityColumn, "severity_", s.severities, false);
  }

  lemma PartyLexes(c: Column, d: Column, a: string, b: string)
    ensures Reads(Equals(ColumnName(c), a) + Equals(ColumnName(d), b), AndLex([Is(c, a), Is(d, b)]))
  {
    hide Equals, ColumnName, AndLex, Is;
    EqualsLexes(c, a);
    EqualsLexes(d, b);
    Then(Equals(ColumnName(c), a), AndLex([Is(c, a)]), Equals(ColumnName(d), b), AndLex([Is(d, b)]));
    AndLexAppend([Is(c, a)], [Is(d, b)]);
    assert [Is(c, a), Is(d, b)] == [Is(c, a)] + [Is(d, b)];
  }

  lemma AddsOptional(sql: seq<Piece>, cs: seq<Condition>, present: bool, clause: seq<Piece>, ds: seq<Condition>)
    requires Where(sql, cs) && Reads(clause, AndLex(ds))
    ensures Where(sql + Optional(present, clause), cs + When(present, ds))
  {
    hide Where;
    assert AndLex([]) == [] && Reads([], []);
    Adds(sql, cs, Optional(present, clause), When(present, ds));
  }

  lemma PartiesLex()
    ensures Reads(Actor(), AndLex(ActorConditions())) && Reads(Target(), AndLex(TargetConditions()))
    ensures Reads(Correlation(), AndLex([Is(CorrelationIdColumn, "correlation_id")]))
  {
    hide Reads, Equals, AndLex, Is;
    PartyLexes(ActorTypeColumn, ActorIdColumn, "actor_type", "actor_id");
    PartyLexes(TargetTypeColumn, TargetIdColumn, "target_type", "target_id");
    CorrelationLexes();
  }

  lemma CorrelationLexes()
    ensures Reads(Correlation(), AndLex([Is(CorrelationIdColumn, "correlation_id")]))
  {
    hide PiecesLex, AndLex, Is;
    EqualsLexes(CorrelationIdColumn, "correlation_id");
  }

  function WhereClause(s: Shape): seq<Piece> {
    FilterClauses(s) + Optional(s.actor, Actor()) + Optional(s.target, Target()) +
      Optional(s.correlation, Correlation())
    + Optional(s.cursor, CursorClause(s.order))
  }

  lemma ConditionsWhere(s: Shape)
    ensures Where(WhereClause(s), Conditions(s))
  {
    hide Where, Reads, FilterClauses, FilterConditions, Optional, Actor, Target, Correlation, CursorClause, When, Is,
         AndLex, PastCursor, Begins, Ends, ListConditions, ActorConditions, TargetConditions;
    FiltersWhere(s);
    PartiesLex();
    CursorLexes(s.order);
    var sql, cs := FilterClauses(s), FilterConditions(s);
    AddsOptional(sql, cs, s.actor, Actor(), ActorConditions());
    sql, cs := sql + Optional(s.actor, Actor()), cs + When(s.actor, ActorConditions());
    AddsOptional(sql, cs, s.target, Target(), TargetConditions());
    sql, cs := sql + Optional(s.target, Target()), cs + When(s.target, TargetConditions());
    AddsOptional(sql, cs, s.correlation, Correlation(), [Is(CorrelationIdColumn, "correlation_id")]);
    sql, cs := sql + Optional(s.correlation, Correlation()),
      cs + When(s.correlation, [Is(CorrelationIdColumn, "correlation_id")]);
    AddsOptional(sql, cs, s.cursor, CursorClause(s.order), [PastCursor(s.order)]);
  }

  lemma TailIs(s: Shape)
    ensures TailLex(QueryOf(s)) == [Id("ORDER"), Id("BY")] + KeysLex(SortKeys(s.order.Descending?)) + LimitLex()
  {
    hide KeysLex, SortKeys, Conditions, Cols;
    Associative([Id("ORDER"), Id("BY")], KeysLex(SortKeys(s.order.Descending?)), LimitLex());
  }

  lemma TemplateSpellsQuery(s: Shape)
    requires Conditions(s) != []
    ensures PiecesLex(Template(s)) == QueryLex(QueryOf(s))
  {
    hide FilterClauses, Optional, CursorClause, OrderClause, LimitClause, Actor, Target, Correlation, Conditions,
         SortKeys, KeysLex, LimitLex, AndLex, ConditionLex, OperandsLex, Cols, FromLex, TailLex;
    var sql, cs := WhereClause(s), Conditions(s);
    assert Template(s) == sql + OrderClause(s.order) + LimitClause() by {
    }
    ConditionsWhere(s);
    TailIs(s);
    OrderLexes(s.order);
    LimitLexes();
    hide Template, WhereClause;
    var order := [Id("ORDER"), Id("BY")] + KeysLex(SortKeys(s.order.Descending?));
    PiecesLexAppend(sql, OrderClause(s.order));
    PiecesLexAppend(sql + OrderClause(s.order), LimitClause());
    QueryGlue(OperandsLex(Cols(IDENTITY + REST)), FromLex(), ConditionLex(cs[0]), AndLex(cs[1..]), order, LimitLex());
  }

  lemma QueryGlue(columns: seq<Lexeme>, from: seq<Lexeme>, first: seq<Lexeme>, more: seq<Lexeme>, order: seq<Lexeme>,
                  limit: seq<Lexeme>)
    ensures [Id("SELECT")] + (columns + from) + (first + more) + order + limit ==
            [Id("SELECT")] + (columns + (from + (first + (more + (order + limit)))))
  {
    var head := [Id("SELECT")] + (columns + from);
    Associative(head + (first + more), order, limit);
    Associative(head, first + more, order + limit);
    Associative(first, more, order + limit);
    var rest := first + (more + (order + limit));
    Associative([Id("SELECT")], columns + from, rest);
    Associative(columns, from, rest);
  }

  ghost predicate AllSpelled(cs: seq<Condition>) {
    forall i :: 0 <= i < |cs| ==> Spelled(cs[i])
  }

  lemma SpelledAppend(a: seq<Condition>, b: seq<Condition>)
    requires AllSpelled(a) && AllSpelled(b)
    ensures AllSpelled(a + b)
  {
  }

  lemma ConditionsSpelled(s: Shape)
    ensures Conditions(s) != [] && AllSpelled(Conditions(s))
  {
    assert Cols(KEY_COLUMNS) != [];
    var a, b := [Begins(), Ends()], ListConditions(ProducerService, "producer_", s.producers, true);
    var c, d := ListConditions(EventType, "event_type_", s.types, true),
        ListConditions(SeverityColumn, "severity_", s.severities, false);
    var e, f := When(s.actor, ActorConditions()), When(s.target, TargetConditions());
    var g, h := When(s.correlation, [Is(CorrelationIdColumn, "correlation_id")]), When(s.cursor, [PastCursor(s.order)]);
    assert AllSpelled(a) && AllSpelled(b) && AllSpelled(c) && AllSpelled(d);
    assert AllSpelled(e) && AllSpelled(f) && AllSpelled(g) && AllSpelled(h);
    assert Conditions(s) == a + b + c + d + e + f + g + h;
    hide Conditions, AllSpelled, ListConditions, When;
    SpelledAppend(a, b);
    SpelledAppend(a + b, c);
    SpelledAppend(a + b + c, d);
    SpelledAppend(a + b + c + d, e);
    SpelledAppend(a + b + c + d + e, f);
    SpelledAppend(a + b + c + d + e + f, g);
    SpelledAppend(a + b + c + d + e + f + g, h);
  }

  /** Read as SQL, the builder's text is the query of its shape: its columns, conditions, order and
      limit are the ones listed in `QueryOf`. */
  lemma TemplateReads(s: Shape)
    ensures Reading(SqlText(Template(s))) == Some(QueryOf(s))
  {
    ConditionsSpelled(s);
    TemplateIsSafe(s);
    TextLexes(Template(s));
    TemplateSpellsQuery(s);
    assert Cols(IDENTITY + REST) != [];
    QueryReads(QueryOf(s));
  }
}
