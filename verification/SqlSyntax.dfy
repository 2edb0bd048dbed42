/** The SQL text as a database reads it: lexemes, and the grammar of the audit query. */
module SqlSyntax {
  import opened Types
  import opened Ascii
  import opened Splitting
  import opened SqlGuard

  // ---- Lexemes ---------------------------------------------------------------------------------

  /** A word or number, one character of punctuation, or a placeholder `{name:kind}`. */
  datatype Lexeme = Id(word: string) | Sym(c: char) | Param(name: string, kind: string)

  /** How far the text goes on with word characters. */
  function WordRun(s: string): (n: nat)
    ensures n <= |s| && AllWord(s[..n]) && (n < |s| ==> !WordChar(s[n]))
  {
    if s == [] || !WordChar(s[0]) then 0
    else
      var n := WordRun(s[1..]);
      assert s[..n + 1] == [s[0]] + s[1..][..n];
      n + 1
  }

  function FirstWord(s: string): string {
    s[..WordRun(s)]
  }

  function BehindWord(s: string): (rest: string)
    ensures |FirstWord(s)| + |rest| == |s|
  {
    s[WordRun(s)..]
  }

  /** The placeholder the text begins with, if it does, and what follows it. */
  function ScanParam(s: string): (r: Option<(string, string, string)>)
    ensures r.Some? ==> |r.value.2| < |s|
  {
    if s == [] || s[0] != '{' then None
    else
      var name, rest := FirstWord(s[1..]), BehindWord(s[1..]);
      if name == [] || rest == [] || rest[0] != ':' then None
      else
        var kind, rest' := FirstWord(rest[1..]), BehindWord(rest[1..]);
        if kind == [] || rest' == [] || rest'[0] != '}' then None else Some((name, kind, rest'[1..]))
  }

  function Lex(s: string): seq<Lexeme>
    decreases |s|
  {
    if s == [] then []
    else if Space(s[0]) then Lex(s[1..])
    else if WordChar(s[0]) then [Id(FirstWord(s))] + Lex(BehindWord(s))
    else if ScanParam(s).Some? then
      var (name, kind, rest) := ScanParam(s).value;
      [Param(name, kind)] + Lex(rest)
    else [Sym(s[0])] + Lex(s[1..])
  }

  // ---- Queries ---------------------------------------------------------------------------------

  datatype Column =
    | EventIdColumn | OccurredAt | ReceivedAt | EventType | SeverityColumn | ProducerService | ProducerInstance
    | ActorTypeColumn | ActorIdColumn | TargetTypeColumn | TargetIdColumn | CorrelationIdColumn | CausationIdColumn
    | EventData

  function ColumnName(c: Column): string {
    match c
    case EventIdColumn => "event_id"
    case OccurredAt => "occurred_at"
    case ReceivedAt => "received_at"
    case EventType => "event_type"
    case SeverityColumn => "severity"
    case ProducerService => "producer_service"
    case ProducerInstance => "producer_instance"
    case ActorTypeColumn => "actor_type"
    case ActorIdColumn => "actor_id"
    case TargetTypeColumn => "target_type"
    case TargetIdColumn => "target_id"
    case CorrelationIdColumn => "correlation_id"
    case CausationIdColumn => "causation_id"
    case EventData => "event_data"
  }

  function ColumnNamed(w: string): Option<Column> {
    if w == "event_id" then Some(EventIdColumn)
    else if w == "occurred_at" then Some(OccurredAt)
    else if w == "received_at" then Some(ReceivedAt)
    else if w == "event_type" then Some(EventType)
    else if w == "severity" then Some(SeverityColumn)
    else if w == "producer_service" then Some(ProducerService)
    else if w == "producer_instance" then Some(ProducerInstance)
    else if w == "actor_type" then Some(ActorTypeColumn)
    else if w == "actor_id" then Some(ActorIdColumn)
    else if w == "target_type" then Some(TargetTypeColumn)
    else if w == "target_id" then Some(TargetIdColumn)
    else if w == "correlation_id" then Some(CorrelationIdColumn)
    else if w == "causation_id" then Some(CausationIdColumn)
    else if w == "event_data" then Some(EventData)
    else None
  }

  const FROM_MILLIS: string := "fromUnixTimestamp64Milli"

  lemma ColumnNames(c: Column)
    ensures ColumnNamed(ColumnName(c)) == Some(c) && ColumnName(c) != FROM_MILLIS
  {
  }

  /** A column, a parameter, or the instant of a parameter in milliseconds. */
  datatype Operand = Col(column: Column) | Val(name: string, kind: string) | Instant(name: string)

  datatype Comparison = Equal | Less | Greater | AtLeast

  datatype Condition =
    | Compare(left: Operand, op: Comparison, right: Operand)
    | CompareTuples(lefts: seq<Operand>, op: Comparison, rights: seq<Operand>)
    | In(left: Operand, values: seq<Operand>)

  datatype SortKey = SortKey(column: Column, descending: bool)

  /** SELECT .. WHERE .. ORDER BY .. LIMIT 1 BY .. LIMIT ... */
  datatype Query = Query(columns: seq<Operand>, conditions: seq<Condition>, order: seq<SortKey>, onePer: Column,
                         limit: string)

  // ---- How a query is spelled ------------------------------------------------------------------

  function OperandLex(o: Operand): seq<Lexeme> {
    match o
    case Col(c) => [Id(ColumnName(c))]
    case Val(name, kind) => [Param(name, kind)]
    case Instant(name) => [Id(FROM_MILLIS), Sym('('), Param(name, "Int64"), Sym(')')]
  }

  function OperandsLex(os: seq<Operand>): seq<Lexeme> {
    if os == [] then []
    else if |os| == 1 then OperandLex(os[0])
    else OperandLex(os[0]) + [Sym(',')] + OperandsLex(os[1..])
  }

  function OpLex(op: Comparison): seq<Lexeme> {
    match op
    case Equal => [Sym('=')]
    case Less => [Sym('<')]
    case Greater => [Sym('>')]
    case AtLeast => [Sym('>'), Sym('=')]
  }

  function ConditionLex(c: Condition): seq<Lexeme> {
    match c
    case Compare(l, op, r) => OperandLex(l) + (OpLex(op) + OperandLex(r))
    case CompareTuples(ls, op, rs) =>
      [Sym('(')] + (OperandsLex(ls) + ([Sym(')')] + (OpLex(op) + ([Sym('(')] + (OperandsLex(rs) + [Sym(')')])))))
    case In(l, vs) => OperandLex(l) + ([Id("IN")] + ([Sym('(')] + (OperandsLex(vs) + [Sym(')')])))
  }

  /** Further conditions, each behind an AND. */
  function AndLex(cs: seq<Condition>): seq<Lexeme> {
    if cs == [] then [] else [Id("AND")] + ConditionLex(cs[0]) + AndLex(cs[1..])
  }

  function DirectionLex(descending: bool): Lexeme {
    Id(if descending then "DESC" else "ASC")
  }

  function KeyLex(k: SortKey): seq<Lexeme> {
    [Id(ColumnName(k.column)), DirectionLex(k.descending)]
  }

  function KeysLex(ks: seq<SortKey>): seq<Lexeme> {
    if ks == [] then [] else if |ks| == 1 then KeyLex(ks[0]) else KeyLex(ks[0]) + [Sym(',')] + KeysLex(ks[1..])
  }

  function FromLex(): seq<Lexeme> {
    [Id("FROM"), Id("securecloud_audit"), Sym('.'), Id("audit_events"), Id("WHERE")]
  }

  function TailLex(q: Query): seq<Lexeme> {
    [Id("ORDER"), Id("BY")] + (KeysLex(q.order) +
                               ([Id("LIMIT"), Id("1"), Id("BY"), Id(ColumnName(q.onePer)), Id("LIMIT"),
    Param(q.limit, "UInt32"), Id("FORMAT"), Id("TabSeparated")]))
  }

  function QueryLex(q: Query): seq<Lexeme>
    requires q.conditions != []
  {
    [Id("SELECT")] + (OperandsLex(q.columns) +
                      (FromLex() + (ConditionLex(q.conditions[0]) + (AndLex(q.conditions[1..]) + TailLex(q)))))
  }

  // ---- How it is read --------------------------------------------------------------------------

  datatype Parsed<T> = Fail | Ok(value: T, rest: seq<Lexeme>)

  function Skip(ls: seq<Lexeme>, xs: seq<Lexeme>): (r: Option<seq<Lexeme>>)
    ensures r.Some? ==> |r.value| + |xs| == |ls|
  {
    if xs <= ls then Some(ls[|xs|..]) else None
  }

  function ParseOperand(ls: seq<Lexeme>): (r: Parsed<Operand>)
    ensures r.Ok? ==> |r.rest| < |ls|
  {
    if ls == [] then Fail
    else
      match ls[0]
      case Sym(_) => Fail
      case Param(name, kind) => Ok(Val(name, kind), ls[1..])
      case Id(w) =>
        if w == FROM_MILLIS then
          if |ls| >= 4 && ls[1] == Sym('(') && ls[2].Param? && ls[2].kind == "Int64" && ls[3] == Sym(')') then
            Ok(Instant(ls[2].name), ls[4..])
          else Fail
        else if ColumnNamed(w).Some? then Ok(Col(ColumnNamed(w).value), ls[1..]) else Fail
  }

  function ParseOperands(ls: seq<Lexeme>): (r: Parsed<seq<Operand>>)
    ensures r.Ok? ==> |r.rest| < |ls|
    decreases |ls|
  {
    var first := ParseOperand(ls);
    if first.Fail? then Fail
    else if first.rest != [] && first.rest[0] == Sym(',') then
      var more := ParseOperands(first.rest[1..]);
      if more.Fail? then Fail else Ok([first.value] + more.value, more.rest)
    else Ok([first.value], first.rest)
  }

  function ParseOp(ls: seq<Lexeme>): (r: Parsed<Comparison>)
    ensures r.Ok? ==> |r.rest| < |ls|
  {
    if ls == [] then Fail
    else if ls[0] == Sym('=') then Ok(Equal, ls[1..])
    else if ls[0] == Sym('<') then Ok(Less, ls[1..])
    else if ls[0] == Sym('>') then if |ls| > 1 && ls[1] == Sym('=') then Ok(AtLeast, ls[2..]) else Ok(Greater, ls[1..])
    else Fail
  }

  /** An operand list in brackets. */
  function ParseTuple(ls: seq<Lexeme>): (r: Parsed<seq<Operand>>)
    ensures r.Ok? ==> |r.rest| < |ls|
  {
    if ls == [] || ls[0] != Sym('(') then Fail
    else
      var os := ParseOperands(ls[1..]);
      if os.Ok? && os.rest != [] && os.rest[0] == Sym(')') then Ok(os.value, os.rest[1..]) else Fail
  }

  function ParseCompareTuples(ls: seq<Lexeme>): (r: Parsed<Condition>)
    ensures r.Ok? ==> |r.rest| < |ls|
  {
    var left := ParseTuple(ls);
    if left.Fail? then Fail
    else
      var op := ParseOp(left.rest);
      if op.Fail? then Fail
      else
        var right := ParseTuple(op.rest);
        if right.Fail? then Fail else Ok(CompareTuples(left.value, op.value, right.value), right.rest)
  }

  function ParseCondition(ls: seq<Lexeme>): (r: Parsed<Condition>)
    ensures r.Ok? ==> |r.rest| < |ls|
  {
    if ls != [] && ls[0] == Sym('(') then ParseCompareTuples(ls)
    else
      var left := ParseOperand(ls);
      if left.Fail? then Fail
      else if left.rest != [] && left.rest[0] == Id("IN") then
        var values := ParseTuple(left.rest[1..]);
        if values.Fail? then Fail else Ok(In(left.value, values.value), values.rest)
      else
        var op := ParseOp(left.rest);
        if op.Fail? then Fail
        else
          var right := ParseOperand(op.rest);
          if right.Fail? then Fail else Ok(Compare(left.value, op.value, right.value), right.rest)
  }

  function ParseConditions(ls: seq<Lexeme>): (r: Parsed<seq<Condition>>)
    ensures r.Ok? ==> |r.rest| < |ls|
    decreases |ls|
  {
    var first := ParseCondition(ls);
    if first.Fail? then Fail
    else if first.rest != [] && first.rest[0] == Id("AND") then
      var more := ParseConditions(first.rest[1..]);
      if more.Fail? then Fail else Ok([first.value] + more.value, more.rest)
    else Ok([first.value], first.rest)
  }

  function ParseKey(ls: seq<Lexeme>): (r: Parsed<SortKey>)
    ensures r.Ok? ==> |r.rest| < |ls|
  {
    if |ls| < 2 || !ls[0].Id? || ColumnNamed(ls[0].word).None? then Fail
    else if ls[1] == Id("ASC") then Ok(SortKey(ColumnNamed(ls[0].word).value, false), ls[2..])
    else if ls[1] == Id("DESC") then Ok(SortKey(ColumnNamed(ls[0].word).value, true), ls[2..])
    else Fail
  }

  function ParseKeys(ls: seq<Lexeme>): (r: Parsed<seq<SortKey>>)
    ensures r.Ok? ==> |r.rest| < |ls|
    decreases |ls|
  {
    var first := ParseKey(ls);
    if first.Fail? then Fail
    else if first.rest != [] && first.rest[0] == Sym(',') then
      var more := ParseKeys(first.rest[1..]);
      if more.Fail? then Fail else Ok([first.value] + more.value, more.rest)
    else Ok([first.value], first.rest)
  }

  /** ORDER BY, LIMIT 1 BY, LIMIT and FORMAT. */
  function ParseTail(columns: seq<Operand>, conditions: seq<Condition>, ls: seq<Lexeme>): Option<Query> {
    var a := Skip(ls, [Id("ORDER"), Id("BY")]);
    if a.None? then None
    else
      var keys := ParseKeys(a.value);
      if keys.Fail? then None
      else
        var r := keys.rest;
        if |r| == 8 && r[..3] == [Id("LIMIT"), Id("1"), Id("BY")] && r[3].Id? && ColumnNamed(r[3].word).Some? &&
           r[4] == Id("LIMIT")
           && r[5].Param? && r[5].kind == "UInt32" && r[6..] == [Id("FORMAT"), Id("TabSeparated")] then
          Some(Query(columns, conditions, keys.value, ColumnNamed(r[3].word).value, r[5].name))
        else None
  }

  function ParseQuery(ls: seq<Lexeme>): Option<Query> {
    var a := Skip(ls, [Id("SELECT")]);
    if a.None? then None
    else
      var columns := ParseOperands(a.value);
      if columns.Fail? then None
      else
        var b := Skip(columns.rest, FromLex());
        if b.None? then None
        else
          var conditions := ParseConditions(b.value);
          if conditions.Fail? then None else ParseTail(columns.value, conditions.value, conditions.rest)
  }

  /** What the database makes of a text. */
  function Reading(sql: string): Option<Query> {
    ParseQuery(Lex(sql))
  }

  // ---- Reading undoes spelling -----------------------------------------------------------------

  /** Nothing in the grammar that follows an operand list or a condition starts like this. */
  ghost predicate Stops(rest: seq<Lexeme>, x: Lexeme) {
    rest == [] || rest[0] != x
  }

  lemma SkipReads(xs: seq<Lexeme>, rest: seq<Lexeme>)
    ensures Skip(xs + rest, xs) == Some(rest)
  {
    assert (xs + rest)[|xs|..] == rest && xs <= xs + rest;
  }

  lemma OperandReads(o: Operand, rest: seq<Lexeme>)
    ensures ParseOperand(OperandLex(o) + rest) == Ok(o, rest)
    ensures OperandLex(o) != [] && !OperandLex(o)[0].Sym?
  {
    var ls := OperandLex(o) + rest;
    match o
    case Col(c) =>
      ColumnNames(c);
      assert ls[1..] == rest;
    case Val(name, kind) => assert ls[1..] == rest;
    case Instant(name) => assert ls[4..] == rest;
  }

  lemma {:induction false} OperandsRead(os: seq<Operand>, rest: seq<Lexeme>)
    requires os != [] && Stops(rest, Sym(','))
    ensures ParseOperands(OperandsLex(os) + rest) == Ok(os, rest)
  {
    hide OperandLex, ParseOperand;
    if |os| == 1 {
      OperandReads(os[0], rest);
      assert os == [os[0]];
    } else {
      var more := OperandsLex(os[1..]) + rest;
      assert OperandsLex(os) + rest == OperandLex(os[0]) + ([Sym(',')] + more);
      OperandReads(os[0], [Sym(',')] + more);
      assert ([Sym(',')] + more)[1..] == more;
      OperandsRead(os[1..], rest);
      assert [os[0]] + os[1..] == os;
    }
  }

  lemma OpReads(op: Comparison, rest: seq<Lexeme>)
    requires Stops(rest, Sym('='))
    ensures ParseOp(OpLex(op) + rest) == Ok(op, rest)
  {
    var ls := OpLex(op) + rest;
    if op.AtLeast? {
      assert ls[2..] == rest;
    } else {
      assert ls[1..] == rest;
    }
  }

  lemma TupleReads(os: seq<Operand>, rest: seq<Lexeme>)
    requires os != []
    ensures ParseTuple([Sym('(')] + (OperandsLex(os) + ([Sym(')')] + rest))) == Ok(os, rest)
  {
    var inner := OperandsLex(os) + ([Sym(')')] + rest);
    assert ([Sym('(')] + inner)[1..] == inner;
    OperandsRead(os, [Sym(')')] + rest);
    assert ([Sym(')')] + rest)[1..] == rest;
  }

  /** Lists in brackets are not empty. */
  predicate Spelled(c: Condition) {
    match c
    case Compare(_, _, _) => true
    case CompareTuples(ls, _, rs) => ls != [] && rs != []
    case In(_, vs) => vs != []
  }

  lemma CompareReads(l: Operand, op: Comparison, r: Operand, rest: seq<Lexeme>)
    ensures ParseCondition(ConditionLex(Compare(l, op, r)) + rest) == Ok(Compare(l, op, r), rest)
  {
    var right := OperandLex(r) + rest;
    assert ConditionLex(Compare(l, op, r)) + rest == OperandLex(l) + (OpLex(op) + right);
    OperandReads(l, OpLex(op) + right);
    OperandReads(r, rest);
    OpReads(op, right);
    assert (OpLex(op) + right)[0] == OpLex(op)[0] && OpLex(op)[0].Sym?;
    hide OperandLex, OpLex, ParseOperand, ParseOp, ParseTuple;
    assert (OperandLex(l) + (OpLex(op) + right))[0] == OperandLex(l)[0];
  }

  lemma CompareTuplesRead(ls: seq<Operand>, op: Comparison, rs: seq<Operand>, rest: seq<Lexeme>)
    requires ls != [] && rs != []
    ensures ParseCondition(ConditionLex(CompareTuples(ls, op, rs)) + rest) == Ok(CompareTuples(ls, op, rs), rest)
  {
    hide OperandsLex, OpLex, ParseOp, ParseTuple;
    var right := [Sym('(')] + (OperandsLex(rs) + ([Sym(')')] + rest));
    var left := [Sym('(')] + (OperandsLex(ls) + ([Sym(')')] + (OpLex(op) + right)));
    assert ConditionLex(CompareTuples(ls, op, rs)) + rest == left;
    TupleReads(ls, OpLex(op) + right);
    OpReads(op, right);
    TupleReads(rs, rest);
    assert left[0] == Sym('(');
  }

  lemma InReads(l: Operand, vs: seq<Operand>, rest: seq<Lexeme>)
    requires vs != []
    ensures ParseCondition(ConditionLex(In(l, vs)) + rest) == Ok(In(l, vs), rest)
  {
    hide OperandLex, OperandsLex, ParseOperand, ParseTuple;
    var tuple := [Sym('(')] + (OperandsLex(vs) + ([Sym(')')] + rest));
    OperandReads(l, [Id("IN")] + tuple);
    TupleReads(vs, rest);
    InBrackets(OperandLex(l), OperandsLex(vs), rest);
    assert ([Id("IN")] + tuple)[1..] == tuple;
    assert (OperandLex(l) + ([Id("IN")] + tuple))[0] == OperandLex(l)[0];
  }

  lemma InBrackets(left: seq<Lexeme>, inner: seq<Lexeme>, rest: seq<Lexeme>)
    ensures left + ([Id("IN")] + ([Sym('(')] + (inner + [Sym(')')]))) + rest ==
            left + ([Id("IN")] + ([Sym('(')] + (inner + ([Sym(')')] + rest))))
  {
    Associative(left, [Id("IN")] + ([Sym('(')] + (inner + [Sym(')')])), rest);
    Associative([Id("IN")], [Sym('(')] + (inner + [Sym(')')]), rest);
    Associative([Sym('(')], inner + [Sym(')')], rest);
    Associative(inner, [Sym(')')], rest);
  }

  lemma ConditionReads(c: Condition, rest: seq<Lexeme>)
    requires Spelled(c)
    ensures ParseCondition(ConditionLex(c) + rest) == Ok(c, rest)
  {
    hide ParseCondition, ConditionLex;
    match c
    case Compare(l, op, r) => CompareReads(l, op, r, rest);
    case CompareTuples(ls, op, rs) => CompareTuplesRead(ls, op, rs, rest);
    case In(l, vs) => InReads(l, vs, rest);
  }

  lemma {:induction false} ConditionsRead(cs: seq<Condition>, rest: seq<Lexeme>)
    requires cs != [] && (forall i :: 0 <= i < |cs| ==> Spelled(cs[i])) && Stops(rest, Id("AND"))
    ensures ParseConditions(ConditionLex(cs[0]) + (AndLex(cs[1..]) + rest)) == Ok(cs, rest)
  {
    hide ConditionLex, ParseCondition, Spelled;
    var more := cs[1..];
    ConditionReads(cs[0], AndLex(more) + rest);
    if more == [] {
      assert AndLex(more) + rest == rest && cs == [cs[0]];
    } else {
      var next := ConditionLex(more[0]) + (AndLex(more[1..]) + rest);
      assert AndLex(more) + rest == [Id("AND")] + next;
      assert ([Id("AND")] + next)[1..] == next;
      ConditionsRead(more, rest);
      assert [cs[0]] + more == cs;
    }
  }

  lemma KeyReads(k: SortKey, rest: seq<Lexeme>)
    ensures ParseKey(KeyLex(k) + rest) == Ok(k, rest)
  {
    hide ColumnName, ColumnNamed;
    ColumnNames(k.column);
    assert (KeyLex(k) + rest)[2..] == rest;
  }

  lemma {:induction false} KeysRead(ks: seq<SortKey>, rest: seq<Lexeme>)
    requires ks != [] && Stops(rest, Sym(','))
    ensures ParseKeys(KeysLex(ks) + rest) == Ok(ks, rest)
  {
    hide KeyLex, ParseKey;
    if |ks| == 1 {
      KeyReads(ks[0], rest);
      assert ks == [ks[0]];
    } else {
      var more := KeysLex(ks[1..]) + rest;
      Associative(KeyLex(ks[0]) + [Sym(',')], KeysLex(ks[1..]), rest);
      Associative(KeyLex(ks[0]), [Sym(',')], more);
      KeyReads(ks[0], [Sym(',')] + more);
      assert ([Sym(',')] + more)[1..] == more;
      KeysRead(ks[1..], rest);
      assert [ks[0]] + ks[1..] == ks;
    }
  }

  lemma TailReads(q: Query)
    requires q.order != []
    ensures ParseTail(q.columns, q.conditions, TailLex(q)) == Some(q)
  {
    hide ColumnName, ColumnNamed, ParseKeys, KeysLex, Skip;
    var limits := [Id("LIMIT"), Id("1"), Id("BY"), Id(ColumnName(q.onePer)), Id("LIMIT"), Param(q.limit, "UInt32"),
                   Id("FORMAT"), Id("TabSeparated")];
    ColumnNames(q.onePer);
    SkipReads([Id("ORDER"), Id("BY")], KeysLex(q.order) + limits);
    KeysRead(q.order, limits);
    assert limits[..3] == [Id("LIMIT"), Id("1"), Id("BY")] && limits[6..] == [Id("FORMAT"), Id("TabSeparated")];
  }

  /** Spelling a query and reading it gives the query back. */
  lemma QueryReads(q: Query)
    requires q.columns != [] && q.conditions != [] && q.order != [] && forall i :: 0 <= i < |q.conditions| ==>
             Spelled(q.conditions[i])
    ensures ParseQuery(QueryLex(q)) == Some(q)
  {
    var cs := q.conditions;
    var conditions := ConditionLex(cs[0]) + (AndLex(cs[1..]) + TailLex(q));
    TailReads(q);
    assert TailLex(q)[0] == Id("ORDER") && FromLex()[0] == Id("FROM");
    hide OperandsLex, ConditionLex, AndLex, TailLex, FromLex, Skip, ParseOperands, ParseConditions, ParseTail, Spelled;
    SkipReads([Id("SELECT")], OperandsLex(q.columns) + (FromLex() + conditions));
    OperandsRead(q.columns, FromLex() + conditions);
    SkipReads(FromLex(), conditions);
    ConditionsRead(cs, TailLex(q));
  }
}
