/** What the builder's query selects, in the filter's own terms: the rows that match and lie behind the
    cursor, in the sort order, one per id, one more than a page. */
module QueryMeaning {
  import opened Types
  import opened Wire
  import opened Splitting
  import opened Orders
  import opened AuditEvents
  import opened TabSeparated
  import opened PageCursor
  import opened QueryFilter
  import opened SqlTemplate
  import opened SqlSyntax
  import opened SqlBuilder
  import opened SqlReading
  import opened SqlMeaning
  import opened SqlParameters
  import opened PagedQuery

  // ---- In the filter's terms -------------------------------------------------------------------

  /** The filter without the cursor; enumerations are the same when their names are. */
  ghost predicate Matches(names: EnumNames, f: Filter, e: Event)
    requires ClockRange(f)
  {
    && MillisOrZero(f.startAt) <= Millis(e.occurredAt) < MillisOrZero(f.endAt)
    && (f.producers != [] ==>
        exists i :: 0 <= i < |f.producers| && names.producer(f.producers[i]) == names.producer(e.producer))
    && (f.eventTypes != [] ==> e.eventType in f.eventTypes)
    && (f.severities != [] ==>
        exists i :: 0 <= i < |f.severities| && names.severity(f.severities[i]) == names.severity(e.severity))
    && MatchesParties(names, f, e)
  }

  predicate MatchesParties(names: EnumNames, f: Filter, e: Event) {
    && (f.actorType.Some? && f.actorId.Some? ==>
        names.actor(e.actorType) == names.actor(f.actorType.value) && e.actorId == f.actorId.value)
    && (f.targetType.Some? && f.targetId.Some? ==>
          names.target(e.targetType) == names.target(f.targetType.value) && e.targetId == f.targetId.value)
    && (f.correlationId.Some? ==> e.correlationId == f.correlationId.value)
  }

  predicate TextLt(a: text, b: text) {
    TextLe(a, b) && a != b
  }

  /** By time, then producer name, then event type, then id. */
  predicate KeyLe(env: Env, a: Key, b: Key) {
    a.at < b.at || (a.at == b.at &&
    (TextLt(a.producer, b.producer) || (a.producer == b.producer &&
    (TextLt(a.eventType, b.eventType) || (a.eventType == b.eventType && env.db.idLe(a.id, b.id))))))
  }

  /** The sort order of the listing. */
  ghost function OrderBy(env: Env, o: SortOrder): (Key, Key) -> bool {
    if o.Ascending? then (a, b) => KeyLe(env, a, b) else (a, b) => KeyLe(env, b, a)
  }

  /** Strictly behind the cursor in the sort order. */
  ghost predicate Behind(env: Env, o: SortOrder, cursor: Option<Key>, k: Key) {
    cursor.Some? ==> OrderBy(env, o)(cursor.value, k) && cursor.value != k
  }

  ghost function Selected(env: Env, f: Filter, cursor: Option<Key>, store: seq<Event>): seq<Event>
    requires ClockRange(f)
  {
    if store == [] then []
    else
      var rest := Selected(env, f, cursor, store[1..]);
      if Matches(env.db.names, f, store[0]) && Behind(env, f.order, cursor, KeyOf(env, store[0]))
      then [store[0]] + rest
      else rest
  }

  /** The first row of each id that is not in `seen`. */
  function FirstById(es: seq<Event>, seen: set<EventId>): seq<Event> {
    if es == [] then []
    else if es[0].id in seen then FirstById(es[1..], seen)
    else [es[0]] + FirstById(es[1..], seen + {es[0].id})
  }

  function Keys(env: Env, es: seq<Event>): (ks: seq<Key>)
    ensures |ks| == |es|
  {
    if es == [] then [] else [KeyOf(env, es[0])] + Keys(env, es[1..])
  }

  /** `ordered` is the selected rows in the sort order, ties in any order. */
  ghost predicate Ordering(env: Env, f: Filter, cursor: Option<Key>, store: seq<Event>, ordered: seq<Event>)
    requires ClockRange(f)
  {
    multiset(ordered) == multiset(Selected(env, f, cursor, store)) && Sorted(OrderBy(env, f.order), Keys(env, ordered))
  }

  function CursorKey(cursor: Option<Cursor>): Option<Key> {
    if cursor.None? then None
    else Some(Key(cursor.value.occurredAt, cursor.value.producer, cursor.value.eventType, cursor.value.id))
  }

  // ---- The key order is a total order ----------------------------------------------------------

  lemma KeyLeTotal(env: Env, a: Key, b: Key)
    requires TotalOrder(env.db.idLe)
    ensures KeyLe(env, a, b) || KeyLe(env, b, a)
    ensures KeyLe(env, a, b) && KeyLe(env, b, a) ==> a == b
  {
    hide TextLe;
    TextLeTotal(a.producer, b.producer);
    TextLeTotal(a.eventType, b.eventType);
    assert env.db.idLe(a.id, b.id) || env.db.idLe(b.id, a.id);
  }

  lemma TextLtTransitive(a: text, b: text, c: text)
    requires TextLt(a, b) && TextLt(b, c)
    ensures TextLt(a, c)
  {
    TextLeTransitive(a, b, c);
    TextLeTotal(a, b);
  }

  lemma KeyLeTransitive(env: Env, a: Key, b: Key, c: Key)
    requires TotalOrder(env.db.idLe) && KeyLe(env, a, b) && KeyLe(env, b, c)
    ensures KeyLe(env, a, c)
  {
    hide TextLt;
    if TextLt(a.producer, b.producer) && TextLt(b.producer, c.producer) {
      TextLtTransitive(a.producer, b.producer, c.producer);
    }
    if TextLt(a.eventType, b.eventType) && TextLt(b.eventType, c.eventType) {
      TextLtTransitive(a.eventType, b.eventType, c.eventType);
    }
    assert env.db.idLe(a.id, b.id) && env.db.idLe(b.id, c.id) ==> env.db.idLe(a.id, c.id);
  }

  lemma OrderByIsOrder(env: Env, o: SortOrder)
    requires TotalOrder(env.db.idLe)
    ensures TotalOrder(OrderBy(env, o))
  {
    hide KeyLe;
    var le := OrderBy(env, o);
    forall a, b ensures le(a, b) || le(b, a) {
      KeyLeTotal(env, a, b);
    }
    forall a, b | le(a, b) && le(b, a) ensures a == b {
      KeyLeTotal(env, a, b);
    }
    forall a, b, c | le(a, b) && le(b, c) ensures le(a, c) {
      if o.Ascending? {
        KeyLeTransitive(env, a, b, c);
      } else {
        KeyLeTransitive(env, c, b, a);
      }
    }
  }

  // ---- Keys and tuples -------------------------------------------------------------------------

  function KeyData(k: Key): seq<Datum> {
    [Num(k.at), Str(k.producer), Str(k.eventType), Uid(k.id)]
  }

  lemma TupleFirst(db: Database, x: Datum, xs: seq<Datum>, y: Datum, ys: seq<Datum>)
    ensures TupleLt(db, [x] + xs, [y] + ys) <==> DatumLt(db, x, y) || (x == y && TupleLt(db, xs, ys))
  {
    assert ([x] + xs)[1..] == xs && ([y] + ys)[1..] == ys;
  }

  lemma TupleOne(db: Database, x: Datum, y: Datum)
    ensures TupleLt(db, [x], [y]) <==> DatumLt(db, x, y)
  {
    assert [x][1..] == [];
  }

  /** The lexicographic comparison of key tuples is the strict key order. */
  lemma TupleIsKeyOrder(env: Env, a: Key, b: Key)
    ensures TupleLt(env.db, KeyData(a), KeyData(b)) <==> KeyLe(env, a, b) && a != b
    ensures KeyData(a) == KeyData(b) <==> a == b
  {
    hide TupleLt;
    var db, a0, b0 := env.db, Num(a.at), Num(b.at);
    var a1, a2, a3 := Str(a.producer), Str(a.eventType), Uid(a.id);
    var b1, b2, b3 := Str(b.producer), Str(b.eventType), Uid(b.id);
    TupleOne(db, a3, b3);
    TupleFirst(db, a2, [a3], b2, [b3]);
    TupleFirst(db, a1, [a2] + [a3], b1, [b2] + [b3]);
    TupleFirst(db, a0, [a1] + ([a2] + [a3]), b0, [b1] + ([b2] + [b3]));
    assert KeyData(a) == [a0] + ([a1] + ([a2] + [a3])) && KeyData(b) == [b0] + ([b1] + ([b2] + [b3]));
    assert KeyData(a)[0] == a0 && KeyData(a)[1] == a1 && KeyData(a)[2] == a2 && KeyData(a)[3] == a3;
    hide KeyData;
  }

  lemma KeyCells(env: Env, e: Event)
    ensures Valued(KEY_COLUMNS) && Cells(env.db, e, KEY_COLUMNS) == KeyData(KeyOf(env, e))
  {
  }

  lemma KeysDirected(descending: bool)
    ensures SortKeys(descending) == Directed(KEY_COLUMNS, descending)
  {
  }

  /** The built ORDER BY sorts by the key order, in the direction asked for. */
  lemma OrderMeans(env: Env, o: SortOrder, d: Event, e: Event)
    requires TotalOrder(env.db.idLe)
    ensures Precedes(env.db, SortKeys(o.Descending?), d, e) <==> OrderBy(env, o)(KeyOf(env, d), KeyOf(env, e))
  {
    hide KEY_COLUMNS, KeyOf, SortKeys, Cells, KeyLe, KeyData;
    var x, y := KeyOf(env, d), KeyOf(env, e);
    KeysDirected(o.Descending?);
    KeyCells(env, d);
    KeyCells(env, e);
    OrderIsTupleOrder(env.db, KEY_COLUMNS, o.Descending?, d, e);
    TupleIsKeyOrder(env, x, y);
    TupleIsKeyOrder(env, y, x);
    KeyLeTotal(env, x, y);
  }

  // ---- Each condition --------------------------------------------------------------------------

  lemma HoldsAtLeast(db: Database, params: Params, e: Event, name: string, n: int)
    requires ParamValue(params, name, "Int64") == Some(Num(n))
    ensures Holds(db, params, e, Compare(Col(OccurredAt), AtLeast, Instant(name))) <==> n <= Millis(e.occurredAt)
    ensures Holds(db, params, e, Compare(Col(OccurredAt), Less, Instant(name))) <==> Millis(e.occurredAt) < n
  {
    hide ParamValue, Millis;
    var x := Num(Millis(e.occurredAt));
    TupleOne(db, Num(n), x);
    TupleOne(db, x, Num(n));
    assert [x] == [Num(n)] <==> x == Num(n) by { assert [x][0] == x; }
  }

  lemma WindowHolds(db: Database, params: Params, f: Filter, e: Event)
    requires ClockRange(f) && Includes(params, WindowBindings(f))
    ensures AllHold(db, params, e, [Begins(), Ends()]) <==>
            MillisOrZero(f.startAt) <= Millis(e.occurredAt) < MillisOrZero(f.endAt)
  {
    hide MillisOrZero, Millis, Holds;
    var w := WindowBindings(f);
    assert "start_ms" in w && "end_ms" in w;
    HoldsAtLeast(db, params, e, "start_ms", MillisOrZero(f.startAt));
    HoldsAtLeast(db, params, e, "end_ms", MillisOrZero(f.endAt));
    var cs := [Begins(), Ends()];
    hide Includes, WindowBindings;
    assert cs[0] == Begins() && cs[1] == Ends();
  }

  lemma IsHolds(db: Database, params: Params, e: Event, c: Column, name: string, s: text, t: text)
    requires Cell(db, e, c) == Some(Str(s)) && name in params && params[name] == Text(t)
    ensures Holds(db, params, e, Is(c, name)) <==> s == t
  {
    assert [Str(s)] == [Str(t)] <==> s == t by { assert [Str(s)][0] == Str(s) && [Str(t)][0] == Str(t); }
  }

  lemma {:induction false} ListValueAt(key: string, n: nat, i: nat)
    requires i < n
    ensures ListValues(key, n)[i] == Val(key + Decimal(i), "String")
  {
    if i < n - 1 {
      ListValueAt(key, n - 1, i);
    }
  }

  lemma AllHoldOne(db: Database, params: Params, e: Event, c: Condition)
    ensures AllHold(db, params, e, [c]) <==> Holds(db, params, e, c)
  {
    assert [c][0] == c;
  }

  ghost predicate HasText(vs: seq<Value>, t: text) {
    exists i :: 0 <= i < |vs| && vs[i] == Text(t)
  }

  ghost predicate AllTexts(vs: seq<Value>) {
    forall i :: 0 <= i < |vs| ==> vs[i].Text?
  }

  /** The i-th placeholder of a list stands for the i-th value, in the parameters of the whole query. */
  lemma {:induction false} ListValueEvaluates(db: Database, params: Params, e: Event, key: string, vs: seq<Value>,
                                              i: nat)
    requires Includes(params, ListBindings(key, vs)) && AllTexts(vs) && i < |vs|
    ensures Eval(db, params, e, Val(key + Decimal(i), "String")) == Some(Str(vs[i].t))
  {
    ListBindingAt(key, vs, i);
  }

  lemma {:induction false} InHolds(db: Database, params: Params, e: Event, c: Column, key: string, vs: seq<Value>,
                                   s: text)
    requires Cell(db, e, c) == Some(Str(s)) && Includes(params, ListBindings(key, vs)) && AllTexts(vs)
    ensures Holds(db, params, e, In(Col(c), ListValues(key, |vs|))) <==> HasText(vs, s)
  {
    hide ListValues, ListBindings, Includes;
    var os := ListValues(key, |vs|);
    forall i | 0 <= i < |vs| ensures Eval(db, params, e, os[i]) == Some(Str(vs[i].t)) {
      ListValueAt(key, |vs|, i);
      ListValueEvaluates(db, params, e, key, vs, i);
    }
    assert Eval(db, params, e, Col(c)) == Some(Str(s));
    hide Eval;
    if HasText(vs, s) {
      var i :| 0 <= i < |vs| && vs[i] == Text(s);
      assert Eval(db, params, e, os[i]) == Some(Str(s));
    }
  }

  /** A list filter holds when the list is empty or has the row's value, as an equation or as IN. */
  lemma {:induction false} ListHolds(db: Database, params: Params, e: Event, c: Column, key: string, vs: seq<Value>,
                                     equation: bool, s: text)
    requires Cell(db, e, c) == Some(Str(s)) && Includes(params, ListBindings(key, vs)) && AllTexts(vs)
    ensures AllHold(db, params, e, ListConditions(c, key, |vs|, equation)) <==> vs == [] || HasText(vs, s)
  {
    hide ListBindings, Cell, Holds, ListValues;
    if |vs| == 1 && equation {
      ListBindingAt(key, vs, 0);
      IsHolds(db, params, e, c, key + Decimal(0), s, vs[0].t);
      AllHoldOne(db, params, e, Is(c, key + Decimal(0)));
      assert vs[0] == Text(vs[0].t);
    } else if vs != [] {
      hide Includes;
      InHolds(db, params, e, c, key, vs, s);
      AllHoldOne(db, params, e, In(Col(c), ListValues(key, |vs|)));
    }
  }

  lemma ListsHold(db: Database, params: Params, f: Filter, e: Event)
    requires Includes(params, ListBindings("producer_", Shown(db.names.producer, f.producers)))
    requires Includes(params, ListBindings("event_type_", Given(f.eventTypes)))
    requires Includes(params, ListBindings("severity_", Shown(db.names.severity, f.severities)))
    ensures AllHold(db, params, e, ListConditions(ProducerService, "producer_", |f.producers|, true)) <==>
            (f.producers != [] ==>
             exists i :: 0 <= i < |f.producers| && db.names.producer(f.producers[i]) == db.names.producer(e.producer))
    ensures AllHold(db, params, e, ListConditions(EventType, "event_type_", |f.eventTypes|, true)) <==>
            (f.eventTypes != [] ==> e.eventType in f.eventTypes)
    ensures AllHold(db, params, e, ListConditions(SeverityColumn, "severity_", |f.severities|, false)) <==>
            (f.severities != [] ==>
             exists i :: 0 <= i < |f.severities| && db.names.severity(f.severities[i]) == db.names.severity(e.severity))
  {
    hide AllHold, ListConditions, ListBindings, Includes;
    var ps, ts, ss := Shown(db.names.producer, f.producers), Given(f.eventTypes),
        Shown(db.names.severity, f.severities);
    ListHolds(db, params, e, ProducerService, "producer_", ps, true, db.names.producer(e.producer));
    ListHolds(db, params, e, EventType, "event_type_", ts, true, e.eventType);
    ListHolds(db, params, e, SeverityColumn, "severity_", ss, false, db.names.severity(e.severity));
    NamesListed(db.names.producer, f.producers, db.names.producer(e.producer));
    NamesListed(db.names.severity, f.severities, db.names.severity(e.severity));
    TypesListed(f.eventTypes, e.eventType);
  }

  lemma NamesListed(show: byte -> text, bs: seq<byte>, t: text)
    ensures HasText(Shown(show, bs), t) <==> exists i :: 0 <= i < |bs| && show(bs[i]) == t
    ensures AllTexts(Shown(show, bs))
  {
    var vs := Shown(show, bs);
    assert forall i :: 0 <= i < |bs| ==> vs[i] == Text(show(bs[i]));
  }

  lemma TypesListed(ts: seq<text>, t: text)
    ensures HasText(Given(ts), t) <==> t in ts
    ensures AllTexts(Given(ts))
  {
    var vs := Given(ts);
    assert forall i :: 0 <= i < |ts| ==> vs[i] == Text(ts[i]);
    if t in ts {
      var i :| 0 <= i < |ts| && ts[i] == t;
      assert vs[i] == Text(t);
    }
  }

  lemma AllHoldAppend(db: Database, params: Params, e: Event, a: seq<Condition>, b: seq<Condition>)
    ensures AllHold(db, params, e, a + b) <==> AllHold(db, params, e, a) && AllHold(db, params, e, b)
  {
    hide Holds;
    var cs := a + b;
    if AllHold(db, params, e, cs) {
      assert forall i :: 0 <= i < |a| ==> a[i] == cs[i];
      assert forall i :: 0 <= i < |b| ==> b[i] == cs[|a| + i];
    }
  }

  lemma PairHolds(db: Database, params: Params, e: Event, c: Column, d: Column, a: string, b: string, s: text, t: text,
                  x: text, y: text)
    requires Cell(db, e, c) == Some(Str(s)) && a in params && params[a] == Text(t)
    requires Cell(db, e, d) == Some(Str(x)) && b in params && params[b] == Text(y)
    ensures AllHold(db, params, e, [Is(c, a), Is(d, b)]) <==> s == t && x == y
  {
    hide Cell, Holds;
    IsHolds(db, params, e, c, a, s, t);
    IsHolds(db, params, e, d, b, x, y);
    var cs := [Is(c, a), Is(d, b)];
    assert cs[0] == Is(c, a) && cs[1] == Is(d, b);
  }

  lemma ActorHolds(db: Database, params: Params, f: Filter, e: Event)
    requires Includes(params, ActorBindings(db.names, f))
    ensures var given := f.actorType.Some? && f.actorId.Some?;
            AllHold(db, params, e, When(given, ActorConditions())) <==>
            (given ==> db.names.actor(e.actorType) == db.names.actor(f.actorType.value) && e.actorId == f.actorId.value)
  {
    if f.actorType.Some? && f.actorId.Some? {
      var m := ActorBindings(db.names, f);
      assert "actor_type" in m && "actor_id" in m;
      assert params["actor_type"] == m["actor_type"] && params["actor_id"] == m["actor_id"];
      PairHolds(db, params, e, ActorTypeColumn, ActorIdColumn, "actor_type", "actor_id",
                db.names.actor(e.actorType), db.names.actor(f.actorType.value), e.actorId, f.actorId.value);
    }
  }

  lemma TargetHolds(db: Database, params: Params, f: Filter, e: Event)
    requires Includes(params, TargetBindings(db.names, f))
    ensures var given := f.targetType.Some? && f.targetId.Some?;
            AllHold(db, params, e, When(given, TargetConditions())) <==>
            (given ==>
             db.names.target(e.targetType) == db.names.target(f.targetType.value) && e.targetId == f.targetId.value)
  {
    if f.targetType.Some? && f.targetId.Some? {
      var m := TargetBindings(db.names, f);
      assert "target_type" in m && "target_id" in m;
      assert params["target_type"] == m["target_type"] && params["target_id"] == m["target_id"];
      PairHolds(db, params, e, TargetTypeColumn, TargetIdColumn, "target_type", "target_id",
                db.names.target(e.targetType), db.names.target(f.targetType.value), e.targetId, f.targetId.value);
    }
  }

  lemma CorrelationHolds(db: Database, params: Params, f: Filter, e: Event)
    requires Includes(params, CorrelationBindings(f))
    ensures AllHold(db, params, e, When(f.correlationId.Some?, [Is(CorrelationIdColumn, "correlation_id")])) <==>
            (f.correlationId.Some? ==> e.correlationId == f.correlationId.value)
  {
    if f.correlationId.Some? {
      assert "correlation_id" in CorrelationBindings(f);
      IsHolds(db, params, e, CorrelationIdColumn, "correlation_id", e.correlationId, f.correlationId.value);
      AllHoldOne(db, params, e, Is(CorrelationIdColumn, "correlation_id"));
    }
  }

  // ---- The cursor condition --------------------------------------------------------------------

  lemma {:induction false} EvalColumns(db: Database, params: Params, e: Event, cs: seq<Column>)
    requires Valued(cs)
    ensures EvalAll(db, params, e, Cols(cs)) == Some(Cells(db, e, cs))
  {
    if cs != [] {
      EvalColumns(db, params, e, cs[1..]);
      var os := Cols(cs);
      assert os[0] == Col(cs[0]) && os[1..] == Cols(cs[1..]);
      assert Cells(db, e, cs) == [Cell(db, e, cs[0]).value] + Cells(db, e, cs[1..]);
    }
  }

  lemma EvalCons(db: Database, params: Params, e: Event, o: Operand, os: seq<Operand>, x: Datum, xs: seq<Datum>)
    requires Eval(db, params, e, o) == Some(x) && EvalAll(db, params, e, os) == Some(xs)
    ensures EvalAll(db, params, e, [o] + os) == Some([x] + xs)
  {
    hide Eval;
    assert ([o] + os)[0] == o && ([o] + os)[1..] == os;
  }

  lemma EvalFour(db: Database, params: Params, e: Event, a: Operand, b: Operand, c: Operand, d: Operand, w: Datum,
                 x: Datum, y: Datum, z: Datum)
    requires Eval(db, params, e, a) == Some(w) && Eval(db, params, e, b) == Some(x)
    requires Eval(db, params, e, c) == Some(y) && Eval(db, params, e, d) == Some(z)
    ensures EvalAll(db, params, e, [a, b, c, d]) == Some([w, x, y, z])
  {
    hide Eval;
    assert EvalAll(db, params, e, []) == Some([]);
    EvalCons(db, params, e, d, [], z, []);
    EvalCons(db, params, e, c, [d] + [], y, [z] + []);
    EvalCons(db, params, e, b, [c] + ([d] + []), x, [y] + ([z] + []));
    EvalCons(db, params, e, a, [b] + ([c] + ([d] + [])), w, [x] + ([y] + ([z] + [])));
    assert [a, b, c, d] == [a] + ([b] + ([c] + ([d] + []))) && [w, x, y, z] == [w] + ([x] + ([y] + ([z] + [])));
  }

  lemma CursorParams(db: Database, params: Params, e: Event, cursor: Option<Cursor>)
    requires cursor.Some? && WholeId(cursor) && Includes(params, CursorBindings(cursor))
    ensures EvalAll(db, params, e, CursorValues()) == Some(KeyData(CursorKey(cursor).value))
  {
    hide IdText, ReadUuid;
    var c, m := cursor.value, CursorBindings(cursor);
    IdTextRoundTrip(c.id);
    assert "cursor_ts" in m && "cursor_prod" in m && "cursor_type" in m && "cursor_id" in m;
    var a, b := Instant("cursor_ts"), Val("cursor_prod", "String");
    var t, d := Val("cursor_type", "String"), Val("cursor_id", "UUID");
    assert Eval(db, params, e, a) == Some(Num(c.occurredAt)) && Eval(db, params, e, b) == Some(Str(c.producer));
    assert Eval(db, params, e, t) == Some(Str(c.eventType)) && Eval(db, params, e, d) == Some(Uid(c.id));
    hide Eval, CursorBindings, Includes;
    EvalFour(db, params, e, a, b, t, d, Num(c.occurredAt), Str(c.producer), Str(c.eventType), Uid(c.id));
  }

  lemma TuplesHold(db: Database, params: Params, e: Event, ls: seq<Operand>, op: Comparison, rs: seq<Operand>,
                   xs: seq<Datum>, ys: seq<Datum>)
    requires EvalAll(db, params, e, ls) == Some(xs) && EvalAll(db, params, e, rs) == Some(ys)
    ensures AllHold(db, params, e, [CompareTuples(ls, op, rs)]) <==> Compares(db, op, xs, ys)
  {
    hide EvalAll;
    AllHoldOne(db, params, e, CompareTuples(ls, op, rs));
  }

  /** The tuple comparison of the built text, in both sort orders, is lying strictly behind the cursor. */
  lemma {:induction false} CursorHolds(env: Env, params: Params, o: SortOrder, cursor: Option<Cursor>, e: Event)
    requires WholeId(cursor) && Includes(params, CursorBindings(cursor))
    ensures AllHold(env.db, params, e, When(cursor.Some?, [PastCursor(o)])) <==>
            Behind(env, o, CursorKey(cursor), KeyOf(env, e))
  {
    hide Includes, CursorBindings, KeyOf, KeyLe, TupleLt, KeyData, EvalAll, Cols, Cells, CursorValues, KEY_COLUMNS,
         WholeId;
    if cursor.Some? {
      var k, c, op := KeyOf(env, e), CursorKey(cursor).value, if o.Descending? then Less else Greater;
      KeyCells(env, e);
      EvalColumns(env.db, params, e, KEY_COLUMNS);
      CursorParams(env.db, params, e, cursor);
      hide AllHold, CursorKey;
      TuplesHold(env.db, params, e, Cols(KEY_COLUMNS), op, CursorValues(), KeyData(k), KeyData(c));
      TupleIsKeyOrder(env, k, c);
      TupleIsKeyOrder(env, c, k);
    }
  }

  // ---- The query -------------------------------------------------------------------------------

  lemma FiltersHold(db: Database, params: Params, f: Filter, s: Shape, e: Event)
    requires ClockRange(f) && s.producers == |f.producers| && s.types == |f.eventTypes|
    requires s.severities == |f.severities|
    requires Includes(params, WindowBindings(f)) && Includes(params, ListBindings("event_type_", Given(f.eventTypes)))
    requires Includes(params, ListBindings("producer_", Shown(db.names.producer, f.producers)))
    requires Includes(params, ListBindings("severity_", Shown(db.names.severity, f.severities)))
    ensures AllHold(db, params, e, FilterConditions(s)) && MatchesParties(db.names, f, e) <==> Matches(db.names, f, e)
  {
    hide Includes, WindowBindings, ListBindings, Given, Shown, AllHold, ListConditions, MatchesParties, Millis,
         MillisOrZero, Begins, Ends;
    var ps, ts := ListConditions(ProducerService, "producer_", s.producers, true),
        ListConditions(EventType, "event_type_", s.types, true);
    var ss := ListConditions(SeverityColumn, "severity_", s.severities, false);
    WindowHolds(db, params, f, e);
    ListsHold(db, params, f, e);
    AllHoldAppend(db, params, e, [Begins(), Ends()], ps);
    AllHoldAppend(db, params, e, [Begins(), Ends()] + ps, ts);
    AllHoldAppend(db, params, e, [Begins(), Ends()] + ps + ts, ss);
  }

  /** A row satisfies the conditions of the built text, under the built parameters, exactly when it
      matches the filter and lies behind the cursor. */
  lemma ConditionsMean(env: Env, f: Filter, cursor: Option<Cursor>, e: Event)
    requires ClockRange(f) && WholeId(cursor)
    ensures AllHold(env.db, Bindings(env.db.names, f, cursor), e, Conditions(ShapeOf(f, cursor))) <==>
            Matches(env.db.names, f, e) && Behind(env, f.order, CursorKey(cursor), KeyOf(env, e))
  {
    hide Includes, Bindings, WindowBindings, ListBindings, ActorBindings, TargetBindings, CorrelationBindings,
         CursorBindings, Shown, Given, LimitBindings, Matches, Behind, AllHold, KeyOf, CursorKey, FilterConditions,
         ActorConditions, TargetConditions, When, PastCursor, Is;
    var db, params, s := env.db, Bindings(env.db.names, f, cursor), ShapeOf(f, cursor);
    var gs := Groups(db.names, f, cursor);
    GroupsReachTheQuery(db.names, f, cursor);
    assert forall i :: 0 <= i < 9 ==> Includes(params, gs[i]);
    assert Includes(params, gs[0]) && Includes(params, gs[1]) && Includes(params, gs[2]) && Includes(params, gs[3]);
    assert Includes(params, gs[4]) && Includes(params, gs[5]) && Includes(params, gs[6]) && Includes(params, gs[7]);
    FiltersHold(db, params, f, s, e);
    ActorHolds(db, params, f, e);
    TargetHolds(db, params, f, e);
    CorrelationHolds(db, params, f, e);
    CursorHolds(env, params, f.order, cursor, e);
    ConditionsSplit(db, params, e, s);
  }

  lemma ConditionsSplit(db: Database, params: Params, e: Event, s: Shape)
    ensures AllHold(db, params, e, Conditions(s)) <==>
            && AllHold(db, params, e, FilterConditions(s)) && AllHold(db, params, e, When(s.actor, ActorConditions()))
            && AllHold(db, params, e, When(s.target, TargetConditions()))
            && AllHold(db, params, e, When(s.correlation, [Is(CorrelationIdColumn, "correlation_id")]))
            && AllHold(db, params, e, When(s.cursor, [PastCursor(s.order)]))
  {
    hide AllHold, FilterConditions, ActorConditions, TargetConditions, When, PastCursor, Is;
    var a, b, c := FilterConditions(s), When(s.actor, ActorConditions()), When(s.target, TargetConditions());
    var d := When(s.correlation, [Is(CorrelationIdColumn, "correlation_id")]);
    AllHoldAppend(db, params, e, a, b);
    AllHoldAppend(db, params, e, a + b, c);
    AllHoldAppend(db, params, e, a + b + c, d);
    AllHoldAppend(db, params, e, a + b + c + d, When(s.cursor, [PastCursor(s.order)]));
  }

  lemma {:induction false} SatisfyingIsSelected(env: Env, f: Filter, cursor: Option<Cursor>, store: seq<Event>)
    requires ClockRange(f) && WholeId(cursor)
    ensures Satisfying(env.db, Bindings(env.db.names, f, cursor), Conditions(ShapeOf(f, cursor)), store) ==
            Selected(env, f, CursorKey(cursor), store)
  {
    if store != [] {
      SatisfyingIsSelected(env, f, cursor, store[1..]);
      ConditionsMean(env, f, cursor, store[0]);
    }
  }

  ghost predicate SameIds(seen: set<EventId>, cells: set<Option<Datum>>) {
    forall id :: id in seen <==> Some(Uid(id)) in cells
  }

  /** LIMIT 1 BY event_id keeps the first row of each id. */
  lemma {:induction false} FirstByMeans(db: Database, es: seq<Event>, seen: set<EventId>, cells: set<Option<Datum>>)
    requires SameIds(seen, cells)
    ensures FirstBy(db, EventIdColumn, es, cells) == FirstById(es, seen)
  {
    if es != [] {
      var id := es[0].id;
      assert Cell(db, es[0], EventIdColumn) == Some(Uid(id));
      if id in seen {
        FirstByMeans(db, es[1..], seen, cells);
      } else {
        assert SameIds(seen + {id}, cells + {Some(Uid(id))});
        FirstByMeans(db, es[1..], seen + {id}, cells + {Some(Uid(id))});
      }
    }
  }

  lemma {:induction false} KeyAt(env: Env, es: seq<Event>, i: nat)
    requires i < |es|
    ensures Keys(env, es)[i] == KeyOf(env, es[i])
  {
    if i > 0 {
      KeyAt(env, es[1..], i - 1);
    }
  }

  /** Rows in the built order are rows whose keys are sorted. */
  lemma {:induction false} OrderedMeans(env: Env, o: SortOrder, es: seq<Event>)
    requires TotalOrder(env.db.idLe)
    ensures Ordered(env.db, SortKeys(o.Descending?), es) <==> Sorted(OrderBy(env, o), Keys(env, es))
  {
    hide Precedes, SortKeys, OrderBy, KeyOf;
    if es != [] {
      var le, ks, keys := OrderBy(env, o), SortKeys(o.Descending?), Keys(env, es);
      OrderedMeans(env, o, es[1..]);
      assert keys[1..] == Keys(env, es[1..]) && keys[0] == KeyOf(env, es[0]);
      forall j | 1 <= j < |es|
        ensures keys[j] == KeyOf(env, es[j]) && (Precedes(env.db, ks, es[0], es[j]) <==> le(keys[0], keys[j]))
      {
        KeyAt(env, es, j);
        OrderMeans(env, o, es[0], es[j]);
      }
      hide Keys;
      OrderedTail(env.db, ks, es);
      BelowByIndex(le, keys);
    }
  }

  lemma OrderedTail(db: Database, ks: seq<SortKey>, es: seq<Event>)
    requires es != []
    ensures Ordered(db, ks, es) <==>
            Ordered(db, ks, es[1..]) && forall j :: 1 <= j < |es| ==> Precedes(db, ks, es[0], es[j])
  {
    hide Precedes;
    var rest := es[1..];
    assert forall i :: 1 <= i < |es| ==> es[i] == rest[i - 1];
    if Ordered(db, ks, es) {
      forall i, j | 0 <= i < j < |rest| ensures Precedes(db, ks, rest[i], rest[j]) {
        assert Precedes(db, ks, es[i + 1], es[j + 1]);
      }
    }
    if Ordered(db, ks, rest) && forall j :: 1 <= j < |es| ==> Precedes(db, ks, es[0], es[j]) {
      forall i, j | 0 <= i < j < |es| ensures Precedes(db, ks, es[i], es[j]) {
        if i > 0 {
          assert Precedes(db, ks, rest[i - 1], rest[j - 1]);
        }
      }
    }
  }

  lemma BelowByIndex<T>(le: (T, T) -> bool, s: seq<T>)
    requires s != []
    ensures Below(le, s[0], s[1..]) <==> forall j :: 1 <= j < |s| ==> le(s[0], s[j])
  {
    var t := s[1..];
    if Below(le, s[0], t) {
      forall j | 1 <= j < |s| ensures le(s[0], s[j]) {
        assert t[j - 1] in t;
      }
    }
  }

  lemma LimitMeans(names: EnumNames, f: Filter, cursor: Option<Cursor>)
    requires ClockRange(f) && WholeId(cursor) && f.pageSize < 0xFFFF_FFFF
    ensures ParamValue(Bindings(names, f, cursor), "limit_plus_one", "UInt32") == Some(Num(f.pageSize + 1))
  {
    hide Bindings;
    GroupsReachTheQuery(names, f, cursor);
    var params, m := Bindings(names, f, cursor), LimitBindings(f);
    assert Groups(names, f, cursor)[8] == m;
    hide Groups;
    assert "limit_plus_one" in m;
  }

  lemma FetchesReads(env: Env, f: Filter, cursor: Option<Cursor>, store: seq<Event>, ordered: seq<Event>,
                     result: seq<Event>)
    requires ClockRange(f) && WholeId(cursor)
    ensures Fetches(env, f, cursor, store, ordered, result) <==>
            Returns(env.db, Bindings(env.db.names, f, cursor), QueryOf(ShapeOf(f, cursor)), store, ordered, result)
  {
    hide Reading, SqlText, Template, Bindings, Returns, Conditions, SortKeys, Cols, ShapeOf;
    TemplateReads(ShapeOf(f, cursor));
  }

  /** What the database returns for the built text and parameters: the matching rows behind the cursor
      in the sort order, one per id, at most one more than the page. */
  lemma {:induction false} FetchesMeans(env: Env, f: Filter, cursor: Option<Cursor>, store: seq<Event>,
                                        ordered: seq<Event>, result: seq<Event>)
    requires TotalOrder(env.db.idLe) && ClockRange(f) && WholeId(cursor) && f.pageSize < 0xFFFF_FFFF
    ensures Fetches(env, f, cursor, store, ordered, result) <==>
            Ordering(env, f, CursorKey(cursor), store, ordered) &&
              result == Limited(FirstById(ordered, {}), f.pageSize + 1)
  {
    hide Fetches, Satisfying, Selected, Conditions, Bindings, Ordered, Sorted, SortKeys, FirstBy, FirstById,
         ParamValue, Cols, Keys, OrderBy;
    FetchesReads(env, f, cursor, store, ordered, result);
    SatisfyingIsSelected(env, f, cursor, store);
    OrderedMeans(env, f.order, ordered);
    FirstByMeans(env.db, ordered, {}, {});
    LimitMeans(env.db.names, f, cursor);
  }
}
