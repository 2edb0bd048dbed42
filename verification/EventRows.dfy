/** Whole batches: one line per event, fourteen columns (src/audit/repository/clickhouse_event_serializer.cpp). */
module EventRows {
  import opened Types
  import opened Wire
  import opened AuditEvents
  import opened Splitting
  import opened TabSeparated

  /** The names of an enumeration: how its values are shown and read, and which it has. */
  datatype NameTable = NameTable(show: byte -> text, read: text -> byte, known: set<byte>)

  /** The library's calendar conversion and the enumeration tables. */
  datatype Tables = Tables(showTime: int -> text, readTime: text -> int, severity: NameTable, producer: NameTable,
                           actor: NameTable, target: NameTable)

  ghost predicate FaithfulNames(n: NameTable) {
    (forall b :: b in n.known ==> n.read(n.show(b)) == b) && (forall b :: Plain(n.show(b)))
  }

  /** An instant of the clock type, not before the epoch, without a part below a millisecond. */
  ghost predicate WholeMillis(x: int) {
    IsInt64(x) && x >= 0 && x % TICKS_PER_MILLI == 0
  }

  /** Names and whole non-negative milliseconds read back, and none holds a tab or newline. */
  ghost predicate Faithful(t: Tables) {
    && (forall x :: WholeMillis(x) ==> t.readTime(t.showTime(x)) == x)
    && (forall x :: Plain(t.showTime(x)))
    && FaithfulNames(t.severity) && FaithfulNames(t.producer) && FaithfulNames(t.actor) && FaithfulNames(t.target)
  }

  /** An event and the order in which its metadata map is met. */
  datatype Row = Row(event: Event, order: seq<text>)

  /** Times and enumeration values that the tables cover. */
  ghost predicate Covered(t: Tables, e: Event) {
    && WholeMillis(e.occurredAt) && (e.receivedAt.Some? ==> WholeMillis(e.receivedAt.value))
    && e.severity in t.severity.known && e.producer in t.producer.known
    && e.actorType in t.actor.known && e.targetType in t.target.known
  }

  /** What survives the trip: a nil or version 7 id, a time of receipt, no empty causation id, plain metadata. */
  ghost predicate Survives(e: Event) {
    KnownId(e.id) && e.receivedAt.Some? && e.causationId != Some([]) && PlainMetadata(e.metadata)
  }

  ghost predicate Ordered(r: Row) {
    forall k :: k in r.order <==> k in r.event.metadata
  }

  function Nullable(s: text): text {
    if s == [] then NULL_MARKER else Escape(s)
  }

  function ReadNullable(s: text): Option<text> {
    if s == NULL_MARKER || s == [] then None else Some(Unescape(s))
  }

  function OrEmpty(s: Option<text>): text {
    if s.Some? then s.value else []
  }

  predicate Sized(r: Row) {
    |r.event.id.bytes| == 16 && forall k :: k in r.order ==> k in r.event.metadata
  }

  function Columns(t: Tables, r: Row): (c: seq<text>)
    requires Sized(r)
    ensures |c| == 14
  {
    var e := r.event;
    [IdText(e.id), t.showTime(e.occurredAt),
     t.showTime(if e.receivedAt.Some? then e.receivedAt.value else e.occurredAt),
     Escape(e.eventType), t.severity.show(e.severity), t.producer.show(e.producer), Escape(e.producerInstance),
     t.actor.show(e.actorType), Escape(e.actorId), t.target.show(e.targetType), Escape(e.targetId),
     Nullable(e.correlationId), Nullable(OrEmpty(e.causationId)), MetadataText(r.order, e.metadata)]
  }

  const NIL_ID := EventId([0, 0, 0, 0, 0, 0, 0, 0, 0, 0, 0, 0, 0, 0, 0, 0])

  function IdOrNil(s: text): EventId {
    if IdFromText(s).Some? then IdFromText(s).value else NIL_ID
  }

  function ReadColumns(t: Tables, c: seq<text>): Event
    requires |c| >= 14
  {
    Event(IdOrNil(c[0]), t.readTime(c[1]), Some(t.readTime(c[2])), Unescape(c[3]), t.severity.read(c[4]),
          t.producer.read(c[5]), Unescape(c[6]), t.actor.read(c[7]), Unescape(c[8]), t.target.read(c[9]),
          Unescape(c[10]), OrEmpty(ReadNullable(c[11])), ReadNullable(c[12]), ReadMetadata(c[13]))
  }

  predicate AllSized(rows: seq<Row>) {
    forall i :: 0 <= i < |rows| ==> Sized(rows[i])
  }

  function Serialized(t: Tables, rows: seq<Row>): text
    requires AllSized(rows)
  {
    if rows == [] then [] else Join(Columns(t, rows[0]), TAB) + [NEWLINE] + Serialized(t, rows[1..])
  }

  /** Empty lines and lines with fewer than fourteen tokens are skipped. */
  function ReadLines(t: Tables, lines: seq<text>): seq<Event> {
    if lines == [] then []
    else
      var tokens := Split(lines[0], TAB);
      (if lines[0] == [] || |tokens| < 14 then [] else [ReadColumns(t, tokens)]) + ReadLines(t, lines[1..])
  }

  function Deserialized(t: Tables, input: text): seq<Event> {
    ReadLines(t, Split(input, NEWLINE))
  }

  // ---- Round trip ------------------------------------------------------------------------------

  lemma IdColumn(id: EventId)
    requires |id.bytes| == 16
    ensures IdOrNil(IdText(id)) == id <==> KnownId(id)
  {
    hide IdText, IdFromText, Nil;
    IdTextRoundTrip(id);
    NilOnly(id);
  }

  lemma NilOnly(id: EventId)
    requires |id.bytes| == 16
    ensures id == NIL_ID <==> Nil(id)
  {
    if Nil(id) {
      assert id.bytes == NIL_ID.bytes;
    }
  }

  lemma NullableColumn(s: text)
    ensures OrEmpty(ReadNullable(Nullable(s))) == s && Plain(Nullable(s))
    ensures ReadNullable(Nullable(s)) == if s == [] then None else Some(s)
  {
    EscapedField(s);
    EscapeRoundTrip(s);
  }

  lemma TextsSurvive(t: Tables, r: Row)
    requires Sized(r)
    ensures var c, e := Columns(t, r), r.event;
            && Unescape(c[3]) == e.eventType && Unescape(c[6]) == e.producerInstance && Unescape(c[8]) == e.actorId
            && Unescape(c[10]) == e.targetId && OrEmpty(ReadNullable(c[11])) == e.correlationId
            && ReadNullable(c[12]) == (if OrEmpty(e.causationId) == [] then None else e.causationId)
  {
    hide IdText, Escape, Unescape, Nullable, ReadNullable, MetadataText;
    var e := r.event;
    EscapeRoundTrip(e.eventType);
    EscapeRoundTrip(e.producerInstance);
    EscapeRoundTrip(e.actorId);
    EscapeRoundTrip(e.targetId);
    NullableColumn(e.correlationId);
    NullableColumn(OrEmpty(e.causationId));
  }

  lemma IdAndMetadataSurvive(t: Tables, r: Row)
    requires Ordered(r) && Sized(r)
    ensures var c, e := Columns(t, r), r.event;
            (IdOrNil(c[0]) == e.id <==> KnownId(e.id)) &&
              (ReadMetadata(c[13]) == e.metadata <==> PlainMetadata(e.metadata))
  {
    hide IdText, IdOrNil, Escape, Nullable, ReadMetadata, MetadataText, KnownId, PlainMetadata;
    IdColumn(r.event.id);
    MetadataRoundTrip(r.order, r.event.metadata);
  }

  /** The fourteen columns read back as the event exactly when the event is one that survives. */
  lemma ColumnsSurvive(t: Tables, r: Row)
    requires Faithful(t) && Covered(t, r.event) && Ordered(r) && Sized(r)
    ensures ReadColumns(t, Columns(t, r)) == r.event <==> Survives(r.event)
  {
    hide Columns, Faithful, Covered, IdOrNil, Unescape, ReadNullable, ReadMetadata, KnownId, PlainMetadata, Ordered;
    TextsSurvive(t, r);
    IdAndMetadataSurvive(t, r);
    TablesSurvive(t, r);
  }

  lemma TablesSurvive(t: Tables, r: Row)
    requires Faithful(t) && Covered(t, r.event) && Sized(r)
    ensures var c, e := Columns(t, r), r.event;
            && t.readTime(c[1]) == e.occurredAt
            && t.readTime(c[2]) == (if e.receivedAt.Some? then e.receivedAt.value else e.occurredAt)
            && t.severity.read(c[4]) == e.severity && t.producer.read(c[5]) == e.producer
            && t.actor.read(c[7]) == e.actorType && t.target.read(c[9]) == e.targetType
  {
    hide IdText, Escape, Nullable, MetadataText, Plain;
  }

  lemma ColumnIsPlain(t: Tables, r: Row, i: nat)
    requires Faithful(t) && Sized(r) && i < 14
    ensures Plain(Columns(t, r)[i])
  {
    hide IdText, Escape, Nullable, MetadataText, Plain, PlainMetadata;
    var e := r.event;
    if i == 0 {
      IdTextRoundTrip(e.id);
    } else if i == 3 {
      EscapedField(e.eventType);
    } else if i == 6 {
      EscapedField(e.producerInstance);
    } else if i == 8 {
      EscapedField(e.actorId);
    } else if i == 10 {
      EscapedField(e.targetId);
    } else if i == 11 {
      NullableColumn(e.correlationId);
    } else if i == 12 {
      NullableColumn(OrEmpty(e.causationId));
    } else if i == 13 {
      MetadataTextIsPlain(r.order, e.metadata);
    }
  }

  lemma ColumnsArePlain(t: Tables, r: Row)
    requires Faithful(t) && Sized(r)
    ensures forall i :: 0 <= i < 14 ==> Plain(Columns(t, r)[i])
    ensures Columns(t, r)[13] != []
  {
    hide Faithful, MetadataText;
    MetadataTextIsPlain(r.order, r.event.metadata);
    assert Columns(t, r)[13] == MetadataText(r.order, r.event.metadata);
    hide Columns;
    forall i | 0 <= i < 14 ensures Plain(Columns(t, r)[i]) {
      ColumnIsPlain(t, r, i);
    }
  }

  lemma {:induction false} JoinHasNo(ps: seq<text>, sep: byte, b: byte)
    requires sep != b && forall i :: 0 <= i < |ps| ==> b !in ps[i]
    ensures b !in Join(ps, sep)
  {
    if |ps| > 1 {
      JoinHasNo(ps[1..], sep, b);
    }
  }

  lemma {:induction false} JoinNonEmpty(ps: seq<text>, sep: byte)
    requires |ps| > 1
    ensures Join(ps, sep) != []
  {
  }

  lemma LineSplits(t: Tables, r: Row)
    requires Faithful(t) && Sized(r)
    ensures var line := Join(Columns(t, r), TAB);
            line != [] && NEWLINE !in line && Split(line, TAB) == Columns(t, r)
  {
    hide Columns, Faithful;
    ColumnsArePlain(t, r);
    JoinHasNo(Columns(t, r), TAB, NEWLINE);
    JoinNonEmpty(Columns(t, r), TAB);
    SplitJoin(Columns(t, r), TAB);
  }

  /** A written line is read as its columns, whatever follows it. */
  lemma LineAhead(t: Tables, r: Row, rest: text)
    requires Faithful(t) && Sized(r)
    ensures Deserialized(t, Join(Columns(t, r), TAB) + [NEWLINE] + rest) ==
            [ReadColumns(t, Columns(t, r))] + Deserialized(t, rest)
  {
    hide Columns, ReadColumns, Faithful, Join, Split;
    var line := Join(Columns(t, r), TAB);
    LineSplits(t, r);
    SplitHead(line, NEWLINE, rest);
    var lines := [line] + Split(rest, NEWLINE);
    assert lines[0] == line && lines[1..] == Split(rest, NEWLINE);
  }

  function Events(rows: seq<Row>): seq<Event> {
    if rows == [] then [] else [rows[0].event] + Events(rows[1..])
  }

  lemma PeelEvent(d: Event, ds: seq<Event>, e: Event, es: seq<Event>)
    ensures [d] + ds == [e] + es <==> d == e && ds == es
  {
    assert ([d] + ds)[0] == d && ([d] + ds)[1..] == ds && ([e] + es)[0] == e && ([e] + es)[1..] == es;
  }

  ghost predicate AllCovered(t: Tables, rows: seq<Row>) {
    forall i :: 0 <= i < |rows| ==> Covered(t, rows[i].event) && Ordered(rows[i])
  }

  ghost predicate AllSurvive(rows: seq<Row>) {
    forall i :: 0 <= i < |rows| ==> Survives(rows[i].event)
  }

  lemma SurvivalSplits(t: Tables, rows: seq<Row>)
    requires rows != []
    ensures AllSurvive(rows) <==> Survives(rows[0].event) && AllSurvive(rows[1..])
    ensures AllCovered(t, rows) ==> Covered(t, rows[0].event) && Ordered(rows[0]) && AllCovered(t, rows[1..])
  {
    hide Survives, Covered, Ordered;
    assert forall i :: 1 <= i < |rows| ==> rows[i] == rows[1..][i - 1];
  }

  lemma FirstRow(t: Tables, rows: seq<Row>)
    requires Faithful(t) && AllSized(rows) && rows != [] && Covered(t, rows[0].event) && Ordered(rows[0])
    ensures Deserialized(t, Serialized(t, rows)) == Events(rows) <==>
            Survives(rows[0].event) && Deserialized(t, Serialized(t, rows[1..])) == Events(rows[1..])
  {
    hide Columns, ReadColumns, Faithful, Covered, Ordered, Survives, Join, Deserialized;
    var rest := rows[1..];
    ColumnsSurvive(t, rows[0]);
    LineAhead(t, rows[0], Serialized(t, rest));
    PeelEvent(ReadColumns(t, Columns(t, rows[0])), Deserialized(t, Serialized(t, rest)), rows[0].event, Events(rest));
  }

  /** Writing a batch and reading it gives the events back, in order, exactly when every event is one
      that survives; the order the metadata was met in plays no part. */
  lemma {:induction false} BatchRoundTrip(t: Tables, rows: seq<Row>)
    requires Faithful(t) && AllSized(rows) && AllCovered(t, rows)
    ensures Deserialized(t, Serialized(t, rows)) == Events(rows) <==> AllSurvive(rows)
  {
    hide Faithful, AllCovered, Survives, Covered, Ordered;
    if rows != [] {
      SurvivalSplits(t, rows);
      hide AllSurvive, Deserialized, Serialized, Events;
      FirstRow(t, rows);
      BatchRoundTrip(t, rows[1..]);
    }
  }

  /** One row: the case of a batch of one. */
  lemma RowSurvivesExactly(t: Tables, r: Row)
    requires Faithful(t) && Covered(t, r.event) && Ordered(r) && Sized(r)
    ensures Deserialized(t, Serialized(t, [r])) == [r.event] <==> Survives(r.event)
  {
    hide Deserialized, Serialized, Survives, Covered, Ordered, Faithful, Sized;
    assert [r][0] == r;
    BatchRoundTrip(t, [r]);
    assert AllSurvive([r]) <==> Survives(r.event);
    assert Events([r]) == [r.event] by { assert [r][1..] == []; }
  }

  // ---- The loops -------------------------------------------------------------------------------

  lemma SuffixesSized(rows: seq<Row>)
    requires AllSized(rows)
    ensures forall i :: 0 <= i <= |rows| ==> AllSized(rows[i..])
    ensures forall i :: 0 <= i < |rows| ==> Sized(rows[i])
  {
  }

  lemma SerializedStep(t: Tables, rows: seq<Row>, i: nat)
    requires AllSized(rows) && i < |rows|
    ensures Serialized(t, rows[i..]) == (Join(Columns(t, rows[i]), TAB) + [NEWLINE]) + Serialized(t, rows[i + 1..])
  {
    assert rows[i..][0] == rows[i] && rows[i..][1..] == rows[i + 1..];
  }

  method SerializeForInsert(t: Tables, rows: seq<Row>) returns (out: text)
    requires AllSized(rows)
    ensures out == Serialized(t, rows)
  {
    hide Columns, Join;
    out := [];
    assert rows[0..] == rows && Serialized(t, rows[|rows|..]) == [];
    SuffixesSized(rows);
    hide AllSized, Serialized;
    for i := 0 to |rows|
      invariant out + Serialized(t, rows[i..]) == Serialized(t, rows)
    {
      SerializedStep(t, rows, i);
      var line := Join(Columns(t, rows[i]), TAB) + [NEWLINE];
      Associative(out, line, Serialized(t, rows[i + 1..]));
      out := out + line;
    }
  }

  method DeserializeFromQuery(t: Tables, input: text) returns (events: seq<Event>)
    ensures events == Deserialized(t, input)
  {
    hide ReadColumns, Split;
    events := [];
    var lines := Tokens(input, NEWLINE);
    assert lines[0..] == lines;
    for i := 0 to |lines|
      invariant events + ReadLines(t, lines[i..]) == ReadLines(t, lines)
    {
      assert lines[i..][0] == lines[i] && lines[i..][1..] == lines[i + 1..];
      ghost var rest := ReadLines(t, lines[i + 1..]);
      if lines[i] == [] {
        assert [] + rest == rest;
        continue;
      }
      var tokens := Tokens(lines[i], TAB);
      if |tokens| < 14 {
        assert [] + rest == rest;
        continue;
      }
      Assoc(events, ReadColumns(t, tokens), rest);
      events := events + [ReadColumns(t, tokens)];
    }
  }
}
