/** The fourteen columns of a row by name: what is written and read at each position is what the query
    selects there. */
module RowColumns {
  import opened Types
  import opened Wire
  import opened AuditEvents
  import opened TabSeparated
  import opened EventRows
  import opened SqlSyntax
  import opened SqlReading

  /** The columns in the order the query selects them. */
  const SELECTED: seq<Column> := IDENTITY + REST

  /** What a column holds of an event, as text. */
  function CellText(t: Tables, r: Row, c: Column): text
    requires Sized(r)
  {
    match c
    case EventIdColumn => IdText(r.event.id)
    case OccurredAt => t.showTime(r.event.occurredAt)
    case ReceivedAt => t.showTime(if r.event.receivedAt.Some? then r.event.receivedAt.value else r.event.occurredAt)
    case EventType => Escape(r.event.eventType)
    case SeverityColumn => t.severity.show(r.event.severity)
    case ProducerService => t.producer.show(r.event.producer)
    case ProducerInstance => Escape(r.event.producerInstance)
    case ActorTypeColumn => t.actor.show(r.event.actorType)
    case ActorIdColumn => Escape(r.event.actorId)
    case TargetTypeColumn => t.target.show(r.event.targetType)
    case TargetIdColumn => Escape(r.event.targetId)
    case CorrelationIdColumn => if r.event.correlationId == [] then NULL_MARKER else Escape(r.event.correlationId)
    case CausationIdColumn =>
      if r.event.causationId == None || r.event.causationId == Some([]) then NULL_MARKER
      else Escape(r.event.causationId.value)
    case EventData => MetadataText(r.order, r.event.metadata)
  }

  /** The event takes from the column's text what the column holds. */
  predicate Takes(t: Tables, e: Event, c: Column, s: text) {
    match c
    case EventIdColumn => e.id == (if IdFromText(s).Some? then IdFromText(s).value else NIL_ID)
    case OccurredAt => e.occurredAt == t.readTime(s)
    case ReceivedAt => e.receivedAt == Some(t.readTime(s))
    case EventType => e.eventType == Unescape(s)
    case SeverityColumn => e.severity == t.severity.read(s)
    case ProducerService => e.producer == t.producer.read(s)
    case ProducerInstance => e.producerInstance == Unescape(s)
    case ActorTypeColumn => e.actorType == t.actor.read(s)
    case ActorIdColumn => e.actorId == Unescape(s)
    case TargetTypeColumn => e.targetType == t.target.read(s)
    case TargetIdColumn => e.targetId == Unescape(s)
    case CorrelationIdColumn => e.correlationId == (if s == NULL_MARKER || s == [] then [] else Unescape(s))
    case CausationIdColumn => e.causationId == (if s == NULL_MARKER || s == [] then None else Some(Unescape(s)))
    case EventData => e.metadata == ReadMetadata(s)
  }

  /** A row is written with the k-th selected column at position k. */
  lemma WrittenByName(t: Tables, r: Row, k: nat)
    requires Sized(r) && k < 14
    ensures |SELECTED| == 14 && Columns(t, r)[k] == CellText(t, r, SELECTED[k])
  {
    hide IdText, Escape, MetadataText;
    assert |IDENTITY| == |REST| == 7;
    assert SELECTED[k] == if k < 7 then IDENTITY[k] else REST[k - 7];
  }

  /** A row is read with the k-th selected column from position k. */
  lemma ReadByName(t: Tables, c: seq<text>, k: nat)
    requires |c| >= 14 && k < 14
    ensures |SELECTED| == 14 && Takes(t, ReadColumns(t, c), SELECTED[k], c[k])
  {
    hide IdFromText, Unescape, ReadMetadata;
    assert |IDENTITY| == |REST| == 7;
    assert SELECTED[k] == if k < 7 then IDENTITY[k] else REST[k - 7];
  }
}
