/** What a query returns: conditions, ORDER BY, LIMIT BY and LIMIT over the rows of audit_events
    (src/audit/migrations/001_create_audit_events_table.sql). */
module SqlMeaning {
  import opened Types
  import opened Wire
  import opened Orders
  import opened AuditEvents
  import opened TabSeparated
  import opened SqlSyntax
  import opened SqlBuilder

  // ---- Values and their order ------------------------------------------------------------------

  /** A DateTime64(3) in milliseconds or a number, a String, a UUID. */
  datatype Datum = Num(n: int) | Str(t: text) | Uid(id: EventId)

  /** The names the enumerations are stored under, and how the database orders UUIDs. */
  datatype Database = Database(names: EnumNames, idLe: (EventId, EventId) -> bool)

  /** One order per type: numbers, byte-wise strings, UUIDs. */
  predicate DatumLe(db: Database, a: Datum, b: Datum) {
    match (a, b)
    case (Num(m), Num(n)) => m <= n
    case (Str(s), Str(t)) => TextLe(s, t)
    case (Uid(i), Uid(j)) => db.idLe(i, j)
    case _ => false
  }

  predicate DatumLt(db: Database, a: Datum, b: Datum) {
    DatumLe(db, a, b) && a != b
  }

  /** Tuples compare by their first difference. */
  predicate TupleLt(db: Database, xs: seq<Datum>, ys: seq<Datum>) {
    xs != [] && ys != [] && (DatumLt(db, xs[0], ys[0]) || (xs[0] == ys[0] && TupleLt(db, xs[1..], ys[1..])))
  }

  predicate Compares(db: Database, op: Comparison, xs: seq<Datum>, ys: seq<Datum>) {
    match op
    case Equal => xs == ys
    case Less => TupleLt(db, xs, ys)
    case Greater => TupleLt(db, ys, xs)
    case AtLeast => xs == ys || TupleLt(db, ys, xs)
  }

  // ---- Conditions ------------------------------------------------------------------------------

  /** The value of a column; the columns no query compares have none. */
  function Cell(db: Database, e: Event, c: Column): Option<Datum> {
    match c
    case EventIdColumn => Some(Uid(e.id))
    case OccurredAt => Some(Num(Millis(e.occurredAt)))
    case EventType => Some(Str(e.eventType))
    case SeverityColumn => Some(Str(db.names.severity(e.severity)))
    case ProducerService => Some(Str(db.names.producer(e.producer)))
    case ProducerInstance => Some(Str(e.producerInstance))
    case ActorTypeColumn => Some(Str(db.names.actor(e.actorType)))
    case ActorIdColumn => Some(Str(e.actorId))
    case TargetTypeColumn => Some(Str(db.names.target(e.targetType)))
    case TargetIdColumn => Some(Str(e.targetId))
    case CorrelationIdColumn => Some(Str(e.correlationId))
    case ReceivedAt => None
    case CausationIdColumn => None
    case EventData => None
  }

  /** A parameter as the type its placeholder names. */
  function ParamValue(params: map<string, Value>, name: string, kind: string): Option<Datum> {
    if name !in params then None
    else
      match params[name]
      case Number(n) => if kind == "Int64" || kind == "UInt32" then Some(Num(n)) else None
      case Text(t) =>
        if kind == "String" then Some(Str(t))
        else if kind == "UUID" && ReadUuid(t).Some? then Some(Uid(ReadUuid(t).value))
        else None
  }

  function Eval(db: Database, params: map<string, Value>, e: Event, o: Operand): Option<Datum> {
    match o
    case Col(c) => Cell(db, e, c)
    case Val(name, kind) => ParamValue(params, name, kind)
    case Instant(name) => ParamValue(params, name, "Int64")
  }

  function EvalAll(db: Database, params: map<string, Value>, e: Event, os: seq<Operand>): Option<seq<Datum>> {
    if os == [] then Some([])
    else
      var x, xs := Eval(db, params, e, os[0]), EvalAll(db, params, e, os[1..]);
      if x.Some? && xs.Some? then Some([x.value] + xs.value) else None
  }

  predicate Holds(db: Database, params: map<string, Value>, e: Event, c: Condition) {
    match c
    case Compare(l, op, r) =>
      var x, y := Eval(db, params, e, l), Eval(db, params, e, r);
      x.Some? && y.Some? && Compares(db, op, [x.value], [y.value])
    case CompareTuples(ls, op, rs) =>
      var xs, ys := EvalAll(db, params, e, ls), EvalAll(db, params, e, rs);
      xs.Some? && ys.Some? && Compares(db, op, xs.value, ys.value)
    case In(l, vs) =>
      var x := Eval(db, params, e, l);
      x.Some? && exists i :: 0 <= i < |vs| && Eval(db, params, e, vs[i]) == x
  }

  predicate AllHold(db: Database, params: map<string, Value>, e: Event, cs: seq<Condition>) {
    forall i :: 0 <= i < |cs| ==> Holds(db, params, e, cs[i])
  }

  function Satisfying(db: Database, params: map<string, Value>, cs: seq<Condition>, rows: seq<Event>): seq<Event> {
    if rows == [] then []
    else
      var rest := Satisfying(db, params, cs, rows[1..]);
      if AllHold(db, params, rows[0], cs) then [rows[0]] + rest else rest
  }

  // ---- Order and limits ------------------------------------------------------------------------

  /** ORDER BY: `d` may stand before `e` if the first key that tells them apart says so. */
  predicate Precedes(db: Database, ks: seq<SortKey>, d: Event, e: Event) {
    ks == [] ||
    (var x, y := Cell(db, d, ks[0].column), Cell(db, e, ks[0].column);
     if x == y then Precedes(db, ks[1..], d, e)
     else x.Some? && y.Some? &&
          if ks[0].descending then DatumLt(db, y.value, x.value) else DatumLt(db, x.value, y.value))
  }

  ghost predicate Ordered(db: Database, ks: seq<SortKey>, rows: seq<Event>) {
    forall i, j :: 0 <= i < j < |rows| ==> Precedes(db, ks, rows[i], rows[j])
  }

  /** LIMIT 1 BY: the first row for each value of the column that is not in `seen`. */
  function FirstBy(db: Database, c: Column, rows: seq<Event>, seen: set<Option<Datum>>): seq<Event> {
    if rows == [] then []
    else
      var x := Cell(db, rows[0], c);
      if x in seen then FirstBy(db, c, rows[1..], seen) else [rows[0]] + FirstBy(db, c, rows[1..], seen + {x})
  }

  function Limited(rows: seq<Event>, n: nat): seq<Event> {
    if |rows| <= n then rows else rows[..n]
  }

  /** The query returns `result`, having put the rows it selects in the order `ordered`; rows the keys
      do not tell apart come in any order. */
  ghost predicate Returns(db: Database, params: map<string, Value>, q: Query, rows: seq<Event>, ordered: seq<Event>,
                          result: seq<Event>) {
    && multiset(ordered) == multiset(Satisfying(db, params, q.conditions, rows)) && Ordered(db, q.order, ordered)
    && var limit := ParamValue(params, q.limit, "UInt32");
    && limit.Some? && limit.value.Num? && limit.value.n >= 0
    && result == Limited(FirstBy(db, q.onePer, ordered, {}), limit.value.n)
  }

  // ---- ORDER BY and tuple comparison agree -----------------------------------------------------

  function Directed(cs: seq<Column>, descending: bool): seq<SortKey> {
    seq(|cs|, i requires 0 <= i < |cs| => SortKey(cs[i], descending))
  }

  /** The columns compared in these queries all have values. */
  ghost predicate Valued(cs: seq<Column>) {
    forall i :: 0 <= i < |cs| ==> !cs[i].ReceivedAt? && !cs[i].CausationIdColumn? && !cs[i].EventData?
  }

  function Cells(db: Database, e: Event, cs: seq<Column>): (xs: seq<Datum>)
    requires Valued(cs)
    ensures |xs| == |cs|
  {
    seq(|cs|, i requires 0 <= i < |cs| => Cell(db, e, cs[i]).value)
  }

  /** Sorting by columns, all ascending or all descending, is comparing the tuples of the columns:
      for every list of columns and both directions. */
  lemma {:induction false} OrderIsTupleOrder(db: Database, cs: seq<Column>, descending: bool, d: Event, e: Event)
    requires Valued(cs)
    ensures var x, y := Cells(db, d, cs), Cells(db, e, cs);
            Precedes(db, Directed(cs, descending), d, e) <==>
              x == y || if descending then TupleLt(db, y, x) else TupleLt(db, x, y)
  {
    hide DatumLe;
    if cs != [] {
      var a, b := Cell(db, d, cs[0]).value, Cell(db, e, cs[0]).value;
      var x, y := Cells(db, d, cs), Cells(db, e, cs);
      assert x[1..] == Cells(db, d, cs[1..]) && y[1..] == Cells(db, e, cs[1..]);
      assert Directed(cs, descending)[1..] == Directed(cs[1..], descending);
      hide Cell;
      OrderIsTupleOrder(db, cs[1..], descending, d, e);
      assert x == [a] + x[1..] && y == [b] + y[1..];
    }
  }
}
