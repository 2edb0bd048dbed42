/** The query builder (src/audit/repository/clickhouse_query_builder.cpp). */
module SqlBuilder {
  import opened Types
  import opened Wire
  import opened Splitting
  import opened AuditEvents
  import opened Ascii
  import opened QueryFilter
  import opened PageCursor
  import opened SqlGuard
  import opened TabSeparated
  import opened SqlTemplate
  import opened SqlLexing

  // ---- The template ----------------------------------------------------------------------------

  /** All that the SQL text depends on. */
  datatype Shape = Shape(
    producers: nat, types: nat, severities: nat,
    actor: bool, target: bool, correlation: bool, cursor: bool, order: SortOrder)

  function ShapeOf(f: Filter, cursor: Option<Cursor>): Shape {
    Shape(|f.producers|, |f.eventTypes|, |f.severities|, f.actorType.Some? && f.actorId.Some?,
          f.targetType.Some? && f.targetId.Some?, f.correlationId.Some?, cursor.Some?, f.order)
  }

  /** Words, each followed by a gap. */
  function Phrase(ws: seq<string>, gs: seq<string>): (ps: seq<Piece>)
    requires |ws| == |gs|
    ensures |ps| == 2 * |ws|
  {
    if ws == [] then [] else [Word(ws[0]), Gap(gs[0])] + Phrase(ws[1..], gs[1..])
  }

  const IDS: seq<string> := ["event_id", "occurred_at", "received_at", "event_type", "severity", "producer_service",
                             "producer_instance"]
  const PARTIES: seq<string> := ["actor_type", "actor_id", "target_type", "target_id", "correlation_id", "causation_id",
                                 "event_data"]
  const COMMAS: seq<string> := [", ", ", ", ", ", ", ", ", ", ", ", ", "]
  const LAST_COMMAS: seq<string> := [", ", ", ", ", ", ", ", ", ", ", ", " "]

  function SelectClause(): seq<Piece> {
    [Word("SELECT"), Gap(" ")] + (Phrase(IDS, COMMAS) + (Phrase(PARTIES, LAST_COMMAS) +
    Phrase(["FROM", "securecloud_audit", "audit_events", "WHERE"], [" ", ".", " ", " "])))
  }

  function WindowClause(): seq<Piece> {
    Phrase(["occurred_at", "fromUnixTimestamp64Milli"], [" >= ", "("]) + ([Hole("start_ms", "Int64"), Gap(") ")] +
    (Phrase(["AND", "occurred_at", "fromUnixTimestamp64Milli"], [" ", " < ", "("]) +
     [Hole("end_ms", "Int64"), Gap(")")]))
  }

  function Holes(key: string, n: nat): seq<Piece>
    requires n > 0
  {
    if n == 1 then [Hole(key + Decimal(0), "String")]
    else Holes(key, n - 1) + [Gap(", "), Hole(key + Decimal(n - 1), "String")]
  }

  function Equals(column: string, name: string): seq<Piece> {
    [Gap(" ")] + (Phrase(["AND", column], [" ", " = "]) + [Hole(name, "String")])
  }

  function InClause(column: string, key: string, n: nat): seq<Piece>
    requires n > 0
  {
    [Gap(" ")] + (Phrase(["AND", column, "IN"], [" ", " ", " ("]) + (Holes(key, n) + [Gap(")")]))
  }

  /** Nothing, an equation for one value, or IN for more; severities always use IN. */
  function ListClause(column: string, key: string, n: nat, equation: bool): seq<Piece> {
    if n == 0 then [] else if n == 1 && equation then Equals(column, key + Decimal(0)) else InClause(column, key, n)
  }

  function CursorClause(order: SortOrder): seq<Piece> {
    [Gap(" ")] + (Phrase(["AND", "occurred_at", "producer_service", "event_type"], [" (", ", ", ", ", ", "]) +
    (Phrase(["event_id", "fromUnixTimestamp64Milli"], [if order.Descending? then ") < (" else ") > (", "("]) +
    CursorHoles()))
  }

  function OrderClause(order: SortOrder): seq<Piece> {
    var dir := if order.Descending? then "DESC" else "ASC";
    [Gap(" ")] + (Phrase(["ORDER", "BY"], [" ", " "]) +
    (Phrase(["occurred_at", dir, "producer_service", dir, "event_type", dir, "event_id", dir],
            [" ", ", ", " ", ", ", " ", ", ", " ", " "])))
  }

  function LimitClause(): seq<Piece> {
    Phrase(["LIMIT", "1", "BY", "event_id", "LIMIT"], [" ", " ", " ", " ", " "]) +
    ([Hole("limit_plus_one", "UInt32"), Gap(" ")] + ([Word("FORMAT"), Gap(" "), Word("TabSeparated")]))
  }

  function Optional(present: bool, clause: seq<Piece>): seq<Piece> {
    if present then clause else []
  }

  /** The WHERE clause up to the lists. */
  function FilterClauses(s: Shape): seq<Piece> {
    SelectClause() + WindowClause() + ListClause("producer_service", "producer_", s.producers, true)
    + ListClause("event_type", "event_type_", s.types, true) + ListClause("severity", "severity_", s.severities, false)
  }

  function Actor(): seq<Piece> {
    Equals("actor_type", "actor_type") + Equals("actor_id", "actor_id")
  }

  function Target(): seq<Piece> {
    Equals("target_type", "target_type") + Equals("target_id", "target_id")
  }

  function Correlation(): seq<Piece> {
    Equals("correlation_id", "correlation_id")
  }

  function Template(s: Shape): seq<Piece> {
    FilterClauses(s) + Optional(s.actor, Actor()) + Optional(s.target, Target()) +
      Optional(s.correlation, Correlation())
    + Optional(s.cursor, CursorClause(s.order)) + OrderClause(s.order) + LimitClause()
  }

  // ---- It is safe ------------------------------------------------------------------------------

  ghost predicate SafeWords(ws: seq<string>) {
    forall i :: 0 <= i < |ws| ==> SafeWord(ws[i])
  }

  ghost predicate SafeGaps(gs: seq<string>) {
    forall i :: 0 <= i < |gs| ==> AllGap(gs[i])
  }

  lemma {:induction false} PhraseSafe(ws: seq<string>, gs: seq<string>)
    requires |ws| == |gs| && SafeWords(ws) && SafeGaps(gs)
    ensures Safe(Phrase(ws, gs)) && (ws != [] ==> Phrase(ws, gs)[|Phrase(ws, gs)| - 1].Gap?)
  {
    hide SafeWord, AllGap;
    if ws != [] {
      PhraseSafe(ws[1..], gs[1..]);
      var pair, rest := [Word(ws[0]), Gap(gs[0])], Phrase(ws[1..], gs[1..]);
      assert SafePiece(pair[0]) && SafePiece(pair[1]);
      SafeAppend(pair, rest);
    }
  }

  lemma IdsSafe()
    ensures SafeWords(IDS) && SafeGaps(COMMAS)
  {
    hide SafeWord, AllGap;
    ColumnWords();
    MoreColumnWords();
    SqlGaps();
  }

  lemma PartiesSafe()
    ensures SafeWords(PARTIES) && SafeGaps(LAST_COMMAS)
  {
    hide SafeWord, AllGap;
    PartyWords();
    MoreColumnWords();
    SqlGaps();
  }

  // The vocabulary: none of these words is a forbidden keyword.

  lemma ColumnWords()
    ensures SafeWord("event_id") && SafeWord("occurred_at") && SafeWord("event_type") && SafeWord("severity")
    ensures SafeWord("producer_service")
  {
  }

  lemma MoreColumnWords()
    ensures SafeWord("received_at") && SafeWord("producer_instance") && SafeWord("causation_id")
    ensures SafeWord("event_data")
  {
  }

  lemma PartyWords()
    ensures SafeWord("actor_type") && SafeWord("actor_id") && SafeWord("target_type") && SafeWord("target_id")
    ensures SafeWord("correlation_id")
  {
  }

  lemma SqlWords()
    ensures SafeWord("SELECT") && SafeWord("AND") && SafeWord("IN") && SafeWord("ORDER") && SafeWord("BY")
    ensures SafeWord("ASC") && SafeWord("DESC") && SafeWord("LIMIT") && SafeWord("1")
  {
  }

  lemma LongWords()
    ensures SafeWord("FORMAT") && SafeWord("TabSeparated") && SafeWord("fromUnixTimestamp64Milli")
  {
  }

  lemma HoleWords()
    ensures SafeWord("start_ms") && SafeWord("end_ms") && SafeWord("limit_plus_one")
    ensures SafeWord("cursor_ts") && SafeWord("cursor_prod") && SafeWord("cursor_type") && SafeWord("cursor_id")
  {
  }

  lemma KindWords()
    ensures SafeWord("Int64") && SafeWord("String") && SafeWord("UUID") && SafeWord("UInt32")
  {
  }

  lemma SqlGaps()
    ensures AllGap(" ") && AllGap(", ") && AllGap(" = ") && AllGap(" >= ") && AllGap(" < ")
    ensures AllGap("(") && AllGap(")")
    ensures AllGap(" (") && AllGap(") ") && AllGap("), ") && AllGap(") < (") && AllGap(") > (") && AllGap(".")
  {
  }

  /** A safe clause that ends in something other than a word. */
  ghost predicate Clause(ps: seq<Piece>) {
    Safe(ps) && (ps != [] ==> !ps[|ps| - 1].Word?)
  }

  lemma Follow(a: seq<Piece>, b: seq<Piece>)
    requires Clause(a) && Clause(b)
    ensures Clause(a + b)
  {
    SafeAppend(a, b);
  }

  lemma PhraseClause(ws: seq<string>, gs: seq<string>)
    requires |ws| == |gs| && SafeWords(ws) && SafeGaps(gs)
    ensures Clause(Phrase(ws, gs))
  {
    PhraseSafe(ws, gs);
  }

  lemma HoleClause(name: string, kind: string, gap: string)
    requires SafeWord(name) && SafeWord(kind) && AllGap(gap)
    ensures Clause([Hole(name, kind), Gap(gap)])
  {
  }

  lemma SelectWordIsClause()
    ensures Clause([Word("SELECT"), Gap(" ")])
  {
    assert SafeWord("SELECT");
  }

  lemma TableWords()
    ensures SafeWord("FROM") && SafeWord("securecloud_audit") && SafeWord("audit_events") && SafeWord("WHERE")
  {
  }

  lemma FromSafe()
    ensures SafeWords(["FROM", "securecloud_audit", "audit_events", "WHERE"]) && SafeGaps([" ", ".", " ", " "])
  {
    hide SafeWord, AllGap;
    TableWords();
    SqlGaps();
  }

  lemma FromIsClause()
    ensures Clause(Phrase(["FROM", "securecloud_audit", "audit_events", "WHERE"], [" ", ".", " ", " "]))
  {
    hide SafeWords, SafeGaps, Clause, Phrase;
    FromSafe();
    PhraseClause(["FROM", "securecloud_audit", "audit_events", "WHERE"], [" ", ".", " ", " "]);
  }

  lemma SelectIsClause()
    ensures Clause(SelectClause())
  {
    hide Clause, Phrase, SafeWords, SafeGaps;
    var from, dots := ["FROM", "securecloud_audit", "audit_events", "WHERE"], [" ", ".", " ", " "];
    SelectWordIsClause();
    FromIsClause();
    IdsSafe();
    PartiesSafe();
    PhraseClause(IDS, COMMAS);
    PhraseClause(PARTIES, LAST_COMMAS);
    hide IDS, PARTIES, COMMAS, LAST_COMMAS;
    Follow(Phrase(PARTIES, LAST_COMMAS), Phrase(from, dots));
    Follow(Phrase(IDS, COMMAS), Phrase(PARTIES, LAST_COMMAS) + Phrase(from, dots));
    Follow([Word("SELECT"), Gap(" ")], Phrase(IDS, COMMAS) + (Phrase(PARTIES, LAST_COMMAS) + Phrase(from, dots)));
  }

  lemma WindowIsClause()
    ensures Clause(WindowClause())
  {
    hide SafeWord, AllGap, Clause, Phrase;
    ColumnWords();
    SqlWords();
    LongWords();
    HoleWords();
    KindWords();
    SqlGaps();
    var ws, gs := ["occurred_at", "fromUnixTimestamp64Milli"], [" >= ", "("];
    var vs, hs := ["AND", "occurred_at", "fromUnixTimestamp64Milli"], [" ", " < ", "("];
    assert SafeWords(ws) && SafeGaps(gs) && SafeWords(vs) && SafeGaps(hs);
    PhraseClause(ws, gs);
    PhraseClause(vs, hs);
    HoleClause("start_ms", "Int64", ") ");
    HoleClause("end_ms", "Int64", ")");
    hide SafeWords, SafeGaps;
    Follow(Phrase(vs, hs), [Hole("end_ms", "Int64"), Gap(")")]);
    Follow([Hole("start_ms", "Int64"), Gap(") ")], Phrase(vs, hs) + [Hole("end_ms", "Int64"), Gap(")")]);
    Follow(Phrase(ws, gs), [Hole("start_ms", "Int64"), Gap(") ")] +
           (Phrase(vs, hs) + [Hole("end_ms", "Int64"), Gap(")")]));
  }

  predicate SafeKey(key: string) {
    key != [] && AllWord(key) && |key| >= 2 && !Suspicious2(UpperChar(key[0]), UpperChar(key[1]))
  }

  /** Two letters some forbidden keyword begins with. */
  predicate Suspicious2(a: char, b: char) {
    || (a == 'I' && b == 'N') || (a == 'U' && b == 'P') || (a == 'D' && (b == 'E' || b == 'R'))
    || (a == 'A' && (b == 'L' || b == 'T')) || (a == 'T' && b == 'R') || (a == 'C' && b == 'R')
    || (a == 'R' && b == 'E') || (a == 'O' && b == 'P') || (a == 'G' && b == 'R')
  }

  lemma KeyIsSafe(key: string, i: nat)
    requires SafeKey(key)
    ensures SafeWord(key + Decimal(i))
  {
    DecimalReads(i);
  }

  lemma {:induction false} HolesAreClause(key: string, n: nat)
    requires n > 0 && SafeKey(key)
    ensures Clause(Holes(key, n))
  {
    assert SafeWord("String");
    KeyIsSafe(key, n - 1);
    if n == 1 {
      assert SafePiece(Hole(key + Decimal(0), "String"));
    } else {
      HolesAreClause(key, n - 1);
      var more := [Gap(", "), Hole(key + Decimal(n - 1), "String")];
      assert SafePiece(more[0]) && SafePiece(more[1]);
      hide SafeWord;
      Follow(Holes(key, n - 1), more);
    }
  }

  lemma EqualsIsClause(column: string, name: string)
    requires SafeWord(column) && SafeWord(name)
    ensures Clause(Equals(column, name))
  {
    hide SafeWord, AllGap, Phrase;
    ColumnWords();
    SqlWords();
    LongWords();
    HoleWords();
    KindWords();
    SqlGaps();
    var ws, gs := ["AND", column], [" ", " = "];
    assert SafeWords(ws) && SafeGaps(gs) && Clause([Gap(" ")]) && Clause([Hole(name, "String")]);
    PhraseClause(ws, gs);
    hide Clause, SafeWords, SafeGaps;
    Follow(Phrase(ws, gs), [Hole(name, "String")]);
    Follow([Gap(" ")], Phrase(ws, gs) + [Hole(name, "String")]);
  }

  lemma ListIsClause(column: string, key: string, n: nat, equation: bool)
    requires SafeWord(column) && SafeKey(key)
    ensures Clause(ListClause(column, key, n, equation))
  {
    KeyIsSafe(key, 0);
    EqualsIsClause(column, key + Decimal(0));
    if n > 0 {
      HolesAreClause(key, n);
      InIsClause(column, key, n);
    }
  }

  lemma InIsClause(column: string, key: string, n: nat)
    requires SafeWord(column) && n > 0 && Clause(Holes(key, n))
    ensures Clause(InClause(column, key, n))
  {
    hide SafeWord, AllGap, Phrase, Holes;
    ColumnWords();
    SqlWords();
    LongWords();
    HoleWords();
    KindWords();
    SqlGaps();
    var ws, gs := ["AND", column, "IN"], [" ", " ", " ("];
    assert SafeWords(ws) && SafeGaps(gs) && Clause([Gap(" ")]) && Clause([Gap(")")]);
    PhraseClause(ws, gs);
    hide Clause, SafeWords, SafeGaps;
    Follow(Holes(key, n), [Gap(")")]);
    Follow(Phrase(ws, gs), Holes(key, n) + [Gap(")")]);
    Follow([Gap(" ")], Phrase(ws, gs) + (Holes(key, n) + [Gap(")")]));
  }

  function CursorHoles(): seq<Piece> {
    [Hole("cursor_ts", "Int64"), Gap("), "), Hole("cursor_prod", "String"), Gap(", "), Hole("cursor_type", "String"),
     Gap(", "), Hole("cursor_id", "UUID"), Gap(")")]
  }

  lemma CursorHolesAreClause()
    ensures Clause(CursorHoles())
  {
    hide SafeWord, AllGap;
    ColumnWords();
    SqlWords();
    LongWords();
    HoleWords();
    KindWords();
    SqlGaps();
  }

  lemma CursorIsClause(order: SortOrder)
    ensures Clause(CursorClause(order))
  {
    hide SafeWord, AllGap, Phrase;
    ColumnWords();
    SqlWords();
    LongWords();
    HoleWords();
    KindWords();
    SqlGaps();
    var ws, gs := ["AND", "occurred_at", "producer_service", "event_type"], [" (", ", ", ", ", ", "];
    var vs, hs := ["event_id", "fromUnixTimestamp64Milli"], [if order.Descending? then ") < (" else ") > (", "("];
    assert SafeWords(ws) && SafeGaps(gs) && SafeWords(vs) && SafeGaps(hs) && Clause([Gap(" ")]);
    PhraseClause(ws, gs);
    PhraseClause(vs, hs);
    CursorHolesAreClause();
    hide Clause, SafeWords, SafeGaps;
    Follow(Phrase(vs, hs), CursorHoles());
    Follow(Phrase(ws, gs), Phrase(vs, hs) + CursorHoles());
    Follow([Gap(" ")], Phrase(ws, gs) + (Phrase(vs, hs) + CursorHoles()));
  }

  lemma OrderIsClause(order: SortOrder)
    ensures Clause(OrderClause(order))
  {
    hide SafeWord, AllGap, Phrase;
    ColumnWords();
    SqlWords();
    LongWords();
    HoleWords();
    KindWords();
    SqlGaps();
    var dir := if order.Descending? then "DESC" else "ASC";
    var ws, gs := ["ORDER", "BY"], [" ", " "];
    var vs := ["occurred_at", dir, "producer_service", dir, "event_type", dir, "event_id", dir];
    var hs := [" ", ", ", " ", ", ", " ", ", ", " ", " "];
    assert SafeWords(ws) && SafeGaps(gs) && Clause([Gap(" ")]);
    assert SafeWord(dir);
    assert SafeWords(vs) && SafeGaps(hs);
    PhraseClause(ws, gs);
    PhraseClause(vs, hs);
    hide Clause, SafeWords, SafeGaps;
    Follow(Phrase(ws, gs), Phrase(vs, hs));
    Follow([Gap(" ")], Phrase(ws, gs) + Phrase(vs, hs));
  }

  lemma LimitIsSafe()
    ensures Safe(LimitClause())
  {
    hide SafeWord, AllGap, Phrase;
    ColumnWords();
    SqlWords();
    LongWords();
    HoleWords();
    KindWords();
    SqlGaps();
    var ws, gs := ["LIMIT", "1", "BY", "event_id", "LIMIT"], [" ", " ", " ", " ", " "];
    var format := [Word("FORMAT"), Gap(" "), Word("TabSeparated")];
    assert SafeWords(ws) && SafeGaps(gs);
    assert Safe(format) && Clause([Hole("limit_plus_one", "UInt32"), Gap(" ")]);
    PhraseClause(ws, gs);
    hide SafeWords, SafeGaps, SafePiece;
    SafeAppend([Hole("limit_plus_one", "UInt32"), Gap(" ")], format);
    SafeAppend(Phrase(ws, gs), [Hole("limit_plus_one", "UInt32"), Gap(" ")] + format);
  }

  // ---- Main results about the template ---------------------------------------------------------

  lemma TwoEquals(a: string, b: string)
    requires SafeWord(a) && SafeWord(b)
    ensures Clause(Equals(a, a) + Equals(b, b))
  {
    hide Equals, SafeWord, Clause;
    EqualsIsClause(a, a);
    EqualsIsClause(b, b);
    Follow(Equals(a, a), Equals(b, b));
  }

  lemma EndSafe(a: seq<Piece>, b: seq<Piece>)
    requires Clause(a) && Safe(b)
    ensures Safe(a + b)
  {
    SafeAppend(a, b);
  }

  lemma ListKeys()
    ensures SafeKey("producer_") && SafeKey("event_type_") && SafeKey("severity_")
  {
  }

  lemma FiltersAreClause(s: Shape)
    ensures Clause(FilterClauses(s))
  {
    hide SafeWord, SafeKey, Clause, SelectClause, WindowClause, ListClause;
    ColumnWords();
    ListKeys();
    SelectIsClause();
    WindowIsClause();
    ListIsClause("producer_service", "producer_", s.producers, true);
    ListIsClause("event_type", "event_type_", s.types, true);
    ListIsClause("severity", "severity_", s.severities, false);
    var sql := SelectClause() + WindowClause();
    Follow(SelectClause(), WindowClause());
    var ps, ts := ListClause("producer_service", "producer_", s.producers, true),
        ListClause("event_type", "event_type_", s.types, true);
    Follow(sql, ps);
    Follow(sql + ps, ts);
    Follow(sql + ps + ts, ListClause("severity", "severity_", s.severities, false));
  }

  lemma PartiesAreClauses()
    ensures Clause(Actor()) && Clause(Target()) && Clause(Correlation())
  {
    PartyWords();
    TwoEquals("actor_type", "actor_id");
    TwoEquals("target_type", "target_id");
    EqualsIsClause("correlation_id", "correlation_id");
  }

  lemma FollowOptional(sql: seq<Piece>, present: bool, clause: seq<Piece>)
    requires Clause(sql) && Clause(clause)
    ensures Clause(sql + Optional(present, clause))
  {
    Follow(sql, Optional(present, clause));
  }

  lemma TemplateIsSafe(s: Shape)
    ensures Safe(Template(s))
  {
    hide Clause, Safe, FilterClauses, Actor, Target, Correlation, CursorClause, OrderClause, LimitClause, Optional;
    FiltersAreClause(s);
    PartiesAreClauses();
    CursorIsClause(s.order);
    OrderIsClause(s.order);
    LimitIsSafe();
    var sql := FilterClauses(s);
    FollowOptional(sql, s.actor, Actor());
    sql := sql + Optional(s.actor, Actor());
    FollowOptional(sql, s.target, Target());
    sql := sql + Optional(s.target, Target());
    FollowOptional(sql, s.correlation, Correlation());
    sql := sql + Optional(s.correlation, Correlation());
    FollowOptional(sql, s.cursor, CursorClause(s.order));
    sql := sql + Optional(s.cursor, CursorClause(s.order));
    Follow(sql, OrderClause(s.order));
    EndSafe(sql + OrderClause(s.order), LimitClause());
  }

  lemma TemplateBegins(s: Shape)
    ensures [Word("SELECT"), Gap(" ")] <= Template(s)
  {
    hide FilterClauses, Optional, CursorClause, OrderClause, LimitClause, Actor, Target, Correlation;
    FiltersBegin(s);
    var pre, sql := [Word("SELECT"), Gap(" ")], FilterClauses(s);
    Starts(pre, sql, Optional(s.actor, Actor()));
    sql := sql + Optional(s.actor, Actor());
    Starts(pre, sql, Optional(s.target, Target()));
    sql := sql + Optional(s.target, Target());
    Starts(pre, sql, Optional(s.correlation, Correlation()));
    sql := sql + Optional(s.correlation, Correlation());
    Starts(pre, sql, Optional(s.cursor, CursorClause(s.order)));
    sql := sql + Optional(s.cursor, CursorClause(s.order));
    Starts(pre, sql, OrderClause(s.order));
    Starts(pre, sql + OrderClause(s.order), LimitClause());
  }

  lemma Starts(pre: seq<Piece>, a: seq<Piece>, b: seq<Piece>)
    requires pre <= a
    ensures pre <= a + b
  {
  }

  lemma FiltersBegin(s: Shape)
    ensures [Word("SELECT"), Gap(" ")] <= FilterClauses(s)
  {
    hide WindowClause, ListClause;
    var pre := [Word("SELECT"), Gap(" ")];
    assert pre <= SelectClause();
    hide SelectClause;
    var ps, ts := ListClause("producer_service", "producer_", s.producers, true),
        ListClause("event_type", "event_type_", s.types, true);
    var sql := SelectClause();
    Starts(pre, sql, WindowClause());
    Starts(pre, sql + WindowClause(), ps);
    Starts(pre, sql + WindowClause() + ps, ts);
    Starts(pre, sql + WindowClause() + ps + ts, ListClause("severity", "severity_", s.severities, false));
  }

  /** The guard accepts the query of every filter and cursor. */
  lemma GuardAcceptsTemplate(f: Filter, cursor: Option<Cursor>)
    ensures ReadOnly(SqlText(Template(ShapeOf(f, cursor))))
  {
    hide Safe, ReadOnly, SqlText, Template;
    var ps := Template(ShapeOf(f, cursor));
    TemplateIsSafe(ShapeOf(f, cursor));
    TemplateBegins(ShapeOf(f, cursor));
    assert ps == [Word("SELECT"), Gap(" ")] + ps[2..];
    SafeSelectIsReadOnly(ps[2..]);
  }

  // ---- The parameters --------------------------------------------------------------------------

  datatype Value = Number(n: int) | Text(t: text)

  function ListBindings(key: string, vs: seq<Value>): map<string, Value> {
    if vs == [] then map[] else ListBindings(key, vs[..|vs| - 1])[key + Decimal(|vs| - 1) := vs[|vs| - 1]]
  }

  /** The i-th value is bound to the i-th name. */
  lemma {:induction false} ListBindingAt(key: string, vs: seq<Value>, i: nat)
    requires i < |vs|
    ensures key + Decimal(i) in ListBindings(key, vs) && ListBindings(key, vs)[key + Decimal(i)] == vs[i]
  {
    var last := |vs| - 1;
    if i < last {
      ListBindingAt(key, vs[..last], i);
      if key + Decimal(i) == key + Decimal(last) {
        assert Decimal(i) == (key + Decimal(i))[|key|..] == Decimal(last);
        DecimalInjective(i, last);
        assert false;
      }
    }
  }

  function Shown(show: byte -> text, bs: seq<byte>): (vs: seq<Value>)
    ensures |vs| == |bs|
  {
    seq(|bs|, i requires 0 <= i < |bs| => Text(show(bs[i])))
  }

  function Given(ts: seq<text>): (vs: seq<Value>)
    ensures |vs| == |ts|
  {
    seq(|ts|, i requires 0 <= i < |ts| => Text(ts[i]))
  }

  function WindowBindings(f: Filter): map<string, Value>
    requires ClockRange(f)
  {
    map["start_ms" := Number(MillisOrZero(f.startAt)), "end_ms" := Number(MillisOrZero(f.endAt))]
  }

  function FilterBindings(names: EnumNames, f: Filter): map<string, Value>
    requires ClockRange(f)
  {
    WindowBindings(f) + ListBindings("producer_", Shown(names.producer, f.producers))
    + ListBindings("event_type_", Given(f.eventTypes)) + ListBindings("severity_", Shown(names.severity, f.severities))
  }

  function ActorBindings(names: EnumNames, f: Filter): map<string, Value> {
    if f.actorType.Some? && f.actorId.Some? then
      map["actor_type" := Text(names.actor(f.actorType.value)), "actor_id" := Text(f.actorId.value)]
    else map[]
  }

  function TargetBindings(names: EnumNames, f: Filter): map<string, Value> {
    if f.targetType.Some? && f.targetId.Some? then
      map["target_type" := Text(names.target(f.targetType.value)), "target_id" := Text(f.targetId.value)]
    else map[]
  }

  function CorrelationBindings(f: Filter): map<string, Value> {
    if f.correlationId.Some? then map["correlation_id" := Text(f.correlationId.value)] else map[]
  }

  /** A cursor's id is an array of sixteen bytes. */
  predicate WholeId(cursor: Option<Cursor>) {
    cursor.Some? ==> |cursor.value.id.bytes| == 16
  }

  function CursorBindings(cursor: Option<Cursor>): map<string, Value>
    requires WholeId(cursor)
  {
    if cursor.None? then map[]
    else
      var c := cursor.value;
      map["cursor_ts" := Number(c.occurredAt), "cursor_prod" := Text(c.producer),
          "cursor_type" := Text(c.eventType), "cursor_id" := Text(IdText(c.id))]
  }

  /** One row more than the page, in 32 bits. */
  function LimitBindings(f: Filter): map<string, Value> {
    map["limit_plus_one" := Number((f.pageSize + 1) % 0x1_0000_0000)]
  }

  function Bindings(names: EnumNames, f: Filter, cursor: Option<Cursor>): map<string, Value>
    requires ClockRange(f) && WholeId(cursor)
  {
    FilterBindings(names, f) + ActorBindings(names, f) + TargetBindings(names, f) + CorrelationBindings(f)
    + CursorBindings(cursor) + LimitBindings(f)
  }

  lemma {:induction false} PhraseHasNoHoles(ws: seq<string>, gs: seq<string>)
    requires |ws| == |gs|
    ensures HoleNames(Phrase(ws, gs)) == {}
  {
    if ws != [] {
      PhraseHasNoHoles(ws[1..], gs[1..]);
      HoleNamesAppend([Word(ws[0]), Gap(gs[0])], Phrase(ws[1..], gs[1..]));
      assert HoleNames([Word(ws[0]), Gap(gs[0])]) == {};
    }
  }

  lemma {:induction false} HolesNames(key: string, vs: seq<Value>)
    requires vs != []
    ensures HoleNames(Holes(key, |vs|)) == ListBindings(key, vs).Keys
  {
    var n := |vs|;
    var last := key + Decimal(n - 1);
    if n == 1 {
      assert HoleNames([Hole(last, "String")]) == {last};
    } else {
      HolesNames(key, vs[..n - 1]);
      HoleNamesAppend(Holes(key, n - 1), [Gap(", "), Hole(last, "String")]);
      assert HoleNames([Gap(", "), Hole(last, "String")]) == {last};
    }
  }

  lemma EqualsNames(column: string, name: string)
    ensures HoleNames(Equals(column, name)) == {name}
  {
    PhraseHasNoHoles(["AND", column], [" ", " = "]);
    HoleNamesAppend(Phrase(["AND", column], [" ", " = "]), [Hole(name, "String")]);
    HoleNamesAppend([Gap(" ")], Phrase(["AND", column], [" ", " = "]) + [Hole(name, "String")]);
    assert HoleNames([Gap(" ")]) == {} && HoleNames([Hole(name, "String")]) == {name};
  }

  lemma ListNames(column: string, key: string, vs: seq<Value>, equation: bool)
    ensures HoleNames(ListClause(column, key, |vs|, equation)) == ListBindings(key, vs).Keys
  {
    var n := |vs|;
    if n > 0 {
      HolesNames(key, vs);
      EqualsNames(column, key + Decimal(0));
      assert HoleNames(Holes(key, 1)) == {key + Decimal(0)};
      var ws, gs := ["AND", column, "IN"], [" ", " ", " ("];
      PhraseHasNoHoles(ws, gs);
      HoleNamesAppend(Holes(key, n), [Gap(")")]);
      HoleNamesAppend(Phrase(ws, gs), Holes(key, n) + [Gap(")")]);
      HoleNamesAppend([Gap(" ")], Phrase(ws, gs) + (Holes(key, n) + [Gap(")")]));
      assert HoleNames([Gap(" ")]) == {} && HoleNames([Gap(")")]) == {};
    }
  }

  lemma SelectNames()
    ensures HoleNames(SelectClause()) == {}
  {
    hide Phrase;
    var from, dots := ["FROM", "securecloud_audit", "audit_events", "WHERE"], [" ", ".", " ", " "];
    PhraseHasNoHoles(IDS, COMMAS);
    PhraseHasNoHoles(PARTIES, LAST_COMMAS);
    PhraseHasNoHoles(from, dots);
    assert HoleNames([Word("SELECT"), Gap(" ")]) == {};
    hide HoleNames, IDS, PARTIES;
    HoleNamesAppend(Phrase(PARTIES, LAST_COMMAS), Phrase(from, dots));
    HoleNamesAppend(Phrase(IDS, COMMAS), Phrase(PARTIES, LAST_COMMAS) + Phrase(from, dots));
    HoleNamesAppend([Word("SELECT"), Gap(" ")],
                    Phrase(IDS, COMMAS) + (Phrase(PARTIES, LAST_COMMAS) + Phrase(from, dots)));
  }

  lemma WindowNames()
    ensures HoleNames(WindowClause()) == {"start_ms", "end_ms"}
  {
    hide Phrase;
    var ws, gs := ["occurred_at", "fromUnixTimestamp64Milli"], [" >= ", "("];
    var vs, hs := ["AND", "occurred_at", "fromUnixTimestamp64Milli"], [" ", " < ", "("];
    var first, second := [Hole("start_ms", "Int64"), Gap(") ")], [Hole("end_ms", "Int64"), Gap(")")];
    PhraseHasNoHoles(ws, gs);
    PhraseHasNoHoles(vs, hs);
    assert HoleNames(first) == {"start_ms"} && HoleNames(second) == {"end_ms"};
    hide HoleNames;
    HoleNamesAppend(Phrase(vs, hs), second);
    HoleNamesAppend(first, Phrase(vs, hs) + second);
    HoleNamesAppend(Phrase(ws, gs), first + (Phrase(vs, hs) + second));
  }

  lemma CursorNames(order: SortOrder)
    ensures HoleNames(CursorClause(order)) == {"cursor_ts", "cursor_prod", "cursor_type", "cursor_id"}
  {
    hide Phrase, CursorHoles;
    var ws, gs := ["AND", "occurred_at", "producer_service", "event_type"], [" (", ", ", ", ", ", "];
    var vs, hs := ["event_id", "fromUnixTimestamp64Milli"], [if order.Descending? then ") < (" else ") > (", "("];
    PhraseHasNoHoles(ws, gs);
    PhraseHasNoHoles(vs, hs);
    CursorHoleNames();
    assert HoleNames([Gap(" ")]) == {};
    hide HoleNames;
    HoleNamesAppend(Phrase(vs, hs), CursorHoles());
    HoleNamesAppend(Phrase(ws, gs), Phrase(vs, hs) + CursorHoles());
    HoleNamesAppend([Gap(" ")], Phrase(ws, gs) + (Phrase(vs, hs) + CursorHoles()));
  }

  lemma CursorHoleNames()
    ensures HoleNames(CursorHoles()) == {"cursor_ts", "cursor_prod", "cursor_type", "cursor_id"}
  {
    hide HoleNames;
    var a, b := [Hole("cursor_ts", "Int64"), Gap("), ")], [Hole("cursor_prod", "String"), Gap(", ")];
    var c, d := [Hole("cursor_type", "String"), Gap(", ")], [Hole("cursor_id", "UUID"), Gap(")")];
    assert CursorHoles() == a + (b + (c + d));
    OneHole("cursor_ts", "Int64", "), ");
    OneHole("cursor_prod", "String", ", ");
    OneHole("cursor_type", "String", ", ");
    OneHole("cursor_id", "UUID", ")");
    HoleNamesAppend(c, d);
    HoleNamesAppend(b, c + d);
    HoleNamesAppend(a, b + (c + d));
  }

  lemma OneHole(name: string, kind: string, gap: string)
    ensures HoleNames([Hole(name, kind), Gap(gap)]) == {name}
  {
    assert [Hole(name, kind), Gap(gap)][0] in [Hole(name, kind), Gap(gap)];
  }

  lemma OrderNames(order: SortOrder)
    ensures HoleNames(OrderClause(order)) == {}
  {
    hide Phrase;
    var dir := if order.Descending? then "DESC" else "ASC";
    var ws, gs := ["ORDER", "BY"], [" ", " "];
    var vs := ["occurred_at", dir, "producer_service", dir, "event_type", dir, "event_id", dir];
    var hs := [" ", ", ", " ", ", ", " ", ", ", " ", " "];
    PhraseHasNoHoles(ws, gs);
    PhraseHasNoHoles(vs, hs);
    assert HoleNames([Gap(" ")]) == {};
    hide HoleNames;
    HoleNamesAppend(Phrase(ws, gs), Phrase(vs, hs));
    HoleNamesAppend([Gap(" ")], Phrase(ws, gs) + Phrase(vs, hs));
  }

  lemma LimitNames()
    ensures HoleNames(LimitClause()) == {"limit_plus_one"}
  {
    hide Phrase;
    var ws, gs := ["LIMIT", "1", "BY", "event_id", "LIMIT"], [" ", " ", " ", " ", " "];
    var hole, format := [Hole("limit_plus_one", "UInt32"), Gap(" ")], [Word("FORMAT"), Gap(" "), Word("TabSeparated")];
    PhraseHasNoHoles(ws, gs);
    assert HoleNames(hole) == {"limit_plus_one"} && HoleNames(format) == {};
    hide HoleNames;
    HoleNamesAppend(hole, format);
    HoleNamesAppend(Phrase(ws, gs), hole + format);
  }

  lemma TwoEqualsNames(a: string, b: string)
    ensures HoleNames(Equals(a, a) + Equals(b, b)) == {a, b}
  {
    hide HoleNames, Equals;
    EqualsNames(a, a);
    EqualsNames(b, b);
    HoleNamesAppend(Equals(a, a), Equals(b, b));
  }

  /** Text and parameters stay in step. */
  ghost predicate InStep(sql: seq<Piece>, params: map<string, Value>) {
    HoleNames(sql) == params.Keys
  }

  lemma Stage(sql: seq<Piece>, params: map<string, Value>, clause: seq<Piece>, more: map<string, Value>)
    requires InStep(sql, params) && InStep(clause, more)
    ensures InStep(sql + clause, params + more)
  {
    HoleNamesAppend(sql, clause);
  }

  lemma OrderStage(sql: seq<Piece>, params: map<string, Value>, order: SortOrder)
    requires InStep(sql, params)
    ensures InStep(sql + OrderClause(order), params)
  {
    OrderNames(order);
    HoleNamesAppend(sql, OrderClause(order));
  }

  lemma WindowInStep(f: Filter)
    requires ClockRange(f)
    ensures InStep(SelectClause() + WindowClause(), WindowBindings(f))
  {
    hide SelectClause, WindowClause;
    SelectNames();
    WindowNames();
    HoleNamesAppend(SelectClause(), WindowClause());
  }

  lemma FiltersInStep(names: EnumNames, f: Filter, s: Shape)
    requires ClockRange(f) && s.producers == |f.producers| && s.types == |f.eventTypes|
    requires s.severities == |f.severities|
    ensures InStep(FilterClauses(s), FilterBindings(names, f))
  {
    hide HoleNames, SelectClause, WindowClause, ListClause, ListBindings, WindowBindings, Shown, Given;
    WindowInStep(f);
    var ps, ts, ss := Shown(names.producer, f.producers), Given(f.eventTypes), Shown(names.severity, f.severities);
    ListNames("producer_service", "producer_", ps, true);
    ListNames("event_type", "event_type_", ts, true);
    ListNames("severity", "severity_", ss, false);
    var sql, params := SelectClause() + WindowClause(), WindowBindings(f);
    Stage(sql, params, ListClause("producer_service", "producer_", |ps|, true), ListBindings("producer_", ps));
    sql, params := sql + ListClause("producer_service", "producer_", |ps|, true),
      params + ListBindings("producer_", ps);
    Stage(sql, params, ListClause("event_type", "event_type_", |ts|, true), ListBindings("event_type_", ts));
    sql, params := sql + ListClause("event_type", "event_type_", |ts|, true), params + ListBindings("event_type_", ts);
    Stage(sql, params, ListClause("severity", "severity_", |ss|, false), ListBindings("severity_", ss));
  }

  lemma PartiesInStep(names: EnumNames, f: Filter, s: Shape)
    requires s.actor == (f.actorType.Some? && f.actorId.Some?) && s.target == (f.targetType.Some? && f.targetId.Some?)
    requires s.correlation == f.correlationId.Some?
    ensures InStep(Optional(s.actor, Actor()), ActorBindings(names, f))
    ensures InStep(Optional(s.target, Target()), TargetBindings(names, f))
    ensures InStep(Optional(s.correlation, Correlation()), CorrelationBindings(f))
  {
    hide Equals;
    TwoEqualsNames("actor_type", "actor_id");
    TwoEqualsNames("target_type", "target_id");
    EqualsNames("correlation_id", "correlation_id");
    assert HoleNames([]) == {};
  }

  lemma CursorInStep(cursor: Option<Cursor>, f: Filter, order: SortOrder)
    requires WholeId(cursor)
    ensures InStep(Optional(cursor.Some?, CursorClause(order)), CursorBindings(cursor))
    ensures InStep(LimitClause(), LimitBindings(f))
  {
    hide CursorClause, LimitClause;
    CursorNames(order);
    LimitNames();
    assert HoleNames([]) == {};
  }

  /** The placeholders found by scanning the text are exactly the bound parameters. */
  lemma PlaceholdersAreBound(names: EnumNames, f: Filter, cursor: Option<Cursor>)
    requires ClockRange(f) && WholeId(cursor)
    ensures Placeholders(SqlText(Template(ShapeOf(f, cursor)))) == Bindings(names, f, cursor).Keys
  {
    HolesAreBound(names, f, cursor);
    TemplateIsSafe(ShapeOf(f, cursor));
    PlaceholdersAreHoles(Template(ShapeOf(f, cursor)));
  }

  lemma HolesAreBound(names: EnumNames, f: Filter, cursor: Option<Cursor>)
    requires ClockRange(f) && WholeId(cursor)
    ensures HoleNames(Template(ShapeOf(f, cursor))) == Bindings(names, f, cursor).Keys
  {
    hide FilterClauses, FilterBindings, Optional, Actor, Target, Correlation, CursorClause, OrderClause, LimitClause,
         ActorBindings, TargetBindings, CorrelationBindings, CursorBindings, LimitBindings;
    var s := ShapeOf(f, cursor);
    FiltersInStep(names, f, s);
    PartiesInStep(names, f, s);
    CursorInStep(cursor, f, s.order);
    assert InStep(Template(s), Bindings(names, f, cursor)) by {
      hide InStep;
      var sql, params := FilterClauses(s), FilterBindings(names, f);
      Stage(sql, params, Optional(s.actor, Actor()), ActorBindings(names, f));
      sql, params := sql + Optional(s.actor, Actor()), params + ActorBindings(names, f);
      Stage(sql, params, Optional(s.target, Target()), TargetBindings(names, f));
      sql, params := sql + Optional(s.target, Target()), params + TargetBindings(names, f);
      Stage(sql, params, Optional(s.correlation, Correlation()), CorrelationBindings(f));
      sql, params := sql + Optional(s.correlation, Correlation()), params + CorrelationBindings(f);
      Stage(sql, params, Optional(s.cursor, CursorClause(s.order)), CursorBindings(cursor));
      sql, params := sql + Optional(s.cursor, CursorClause(s.order)), params + CursorBindings(cursor);
      OrderStage(sql, params, s.order);
      Stage(sql + OrderClause(s.order), params, LimitClause(), LimitBindings(f));
    }
  }

  // ---- Building --------------------------------------------------------------------------------

  /** The loop over the values of an IN list: placeholders and parameters grow together. */
  lemma NothingBound(key: string)
    ensures ListBindings(key, []) == map[]
  {
  }

  lemma HoleStep(key: string, vs: seq<Value>, i: nat)
    requires i < |vs|
    ensures Holes(key, i + 1) ==
            (if i == 0 then [] else Holes(key, i) + [Gap(", ")]) + [Hole(key + Decimal(i), "String")]
    ensures ListBindings(key, vs[..i + 1]) == ListBindings(key, vs[..i])[key + Decimal(i) := vs[i]]
  {
    hide Decimal;
    assert vs[..i + 1][..i] == vs[..i];
  }

  method AddHoles(params: map<string, Value>, key: string, vs: seq<Value>)
    returns (holes: seq<Piece>, params': map<string, Value>)
    requires vs != []
    ensures holes == Holes(key, |vs|) && params' == params + ListBindings(key, vs)
  {
    hide Decimal, Holes, ListBindings;
    holes, params' := [], params;
    NothingBound(key);
    for i := 0 to |vs|
      invariant holes == if i == 0 then [] else Holes(key, i)
      invariant params' == params + ListBindings(key, vs[..i])
    {
      HoleStep(key, vs, i);
      if i > 0 {
        holes := holes + [Gap(", ")];
      }
      holes := holes + [Hole(key + Decimal(i), "String")];
      params' := params'[key + Decimal(i) := vs[i]];
    }
    assert vs[..|vs|] == vs;
  }

  /** One list filter: nothing, an equation or IN. */
  method AddList(sql: seq<Piece>, params: map<string, Value>, column: string, key: string, vs: seq<Value>,
                 equation: bool)
    returns (sql': seq<Piece>, params': map<string, Value>)
    ensures sql' == sql + ListClause(column, key, |vs|, equation)
    ensures params' == params + ListBindings(key, vs)
  {
    hide Equals, Phrase, Holes;
    sql', params' := sql, params;
    if vs == [] {
      return;
    }
    if |vs| == 1 && equation {
      sql' := sql + Equals(column, key + Decimal(0));
      params' := params[key + Decimal(0) := vs[0]];
      assert vs[..0] == [];
      return;
    }
    hide ListBindings;
    var holes;
    holes, params' := AddHoles(params, key, vs);
    sql' := sql + ([Gap(" ")] + (Phrase(["AND", column, "IN"], [" ", " ", " ("]) + (holes + [Gap(")")])));
  }

  /** One optional condition: text and parameters are added together or not at all. */
  method AddOptional(sql: seq<Piece>, params: map<string, Value>, present: bool, clause: seq<Piece>,
                     more: map<string, Value>)
    returns (sql': seq<Piece>, params': map<string, Value>)
    requires !present ==> more == map[]
    ensures sql' == sql + Optional(present, clause) && params' == params + more
  {
    sql', params' := sql, params;
    if present {
      sql' := sql + clause;
      params' := params + more;
    }
  }

  /** The conditions in the order of the source, text and parameters growing together. */
  method AddConditions(names: EnumNames, f: Filter, cursor: Option<Cursor>)
    returns (sql: seq<Piece>, params: map<string, Value>)
    requires ClockRange(f) && WholeId(cursor)
    ensures sql + OrderClause(f.order) + LimitClause() == Template(ShapeOf(f, cursor))
    ensures params + LimitBindings(f) == Bindings(names, f, cursor)
  {
    hide ListClause, ListBindings, SelectClause, WindowClause, WindowBindings,
         Optional, Actor, Target, Correlation, CursorClause, OrderClause, LimitClause;
    sql := SelectClause() + WindowClause();
    params := WindowBindings(f);
    sql, params := AddList(sql, params, "producer_service", "producer_", Shown(names.producer, f.producers), true);
    sql, params := AddList(sql, params, "event_type", "event_type_", Given(f.eventTypes), true);
    sql, params := AddList(sql, params, "severity", "severity_", Shown(names.severity, f.severities), false);
    sql, params := AddOptional(sql, params, f.actorType.Some? && f.actorId.Some?, Actor(), ActorBindings(names, f));
    sql, params := AddOptional(sql, params, f.targetType.Some? && f.targetId.Some?, Target(), TargetBindings(names, f));
    sql, params := AddOptional(sql, params, f.correlationId.Some?, Correlation(), CorrelationBindings(f));
    sql, params := AddOptional(sql, params, cursor.Some?, CursorClause(f.order), CursorBindings(cursor));
  }

  /** build_filter_query: the text is that of the filter's shape, the placeholders found in it are
      exactly the parameters, and the guard accepts it. */
  method BuildFilterQuery(names: EnumNames, f: Filter, cursor: Option<Cursor>)
    returns (sql: string, params: map<string, Value>)
    requires ClockRange(f) && WholeId(cursor)
    ensures sql == SqlText(Template(ShapeOf(f, cursor))) && params == Bindings(names, f, cursor)
    ensures Placeholders(sql) == params.Keys && ReadOnly(sql)
  {
    hide Placeholders, ReadOnly, SqlText, OrderClause, LimitClause, Template, Bindings;
    PlaceholdersAreBound(names, f, cursor);
    GuardAcceptsTemplate(f, cursor);
    var pieces;
    pieces, params := AddConditions(names, f, cursor);
    sql := SqlText(pieces + OrderClause(f.order) + LimitClause());
    params := params + LimitBindings(f);
  }
}
