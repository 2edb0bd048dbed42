/** The audit event and the byte stream its fingerprint is computed over
    (src/audit/domain/audit_event.hpp, src/audit/domain/event_payload_fingerprint.cpp). */
module AuditEvents {
  import opened Types
  import opened Wire
  import opened Orders

  /** Times are clock ticks (nanoseconds since the epoch); enumerations are their underlying bytes. */
  datatype Event = Event(
    id: EventId, occurredAt: int, receivedAt: Option<int>, eventType: text, severity: byte,
    producer: byte, producerInstance: text, actorType: byte, actorId: text,
    targetType: byte, targetId: text, correlationId: text, causationId: Option<text>, metadata: map<text, text>)

  /** domain::to_string of the enumerations. */
  datatype EnumNames = EnumNames(producer: byte -> text, severity: byte -> text, actor: byte -> text,
                                 target: byte -> text)

  const TICKS_PER_MILLI := 1_000_000

  /** duration_cast<milliseconds>: towards zero. */
  function Millis(ticks: int): (ms: int)
    ensures IsInt64(ticks) ==> IsInt64(ms)
  {
    if ticks >= 0 then ticks / TICKS_PER_MILLI else -(-ticks / TICKS_PER_MILLI)
  }

  // ---- Metadata in key order -------------------------------------------------------------------

  /** The keys of a std::map holding `s`. */
  ghost function SortedKeys(s: set<text>): seq<text> {
    Arranged(TextLe, s)
  }

  lemma SameKeys(s: set<text>, t: set<text>)
    requires SortedKeys(s) == SortedKeys(t)
    ensures s == t
  {
    forall k ensures k in s <==> k in t {
      InArranged(TextLe, s, k);
      InArranged(TextLe, t, k);
    }
  }

  /** Inserting the entries one by one, in whatever order they are met. */
  method SortMetadata(m: map<text, text>) returns (ks: seq<text>)
    ensures ks == SortedKeys(m.Keys)
  {
    hide TextLe, Insert, Arranged;
    ks := [];
    var rest := m.Keys;
    TextLeIsOrder();
    assert m.Keys - rest == {};
    while rest != {}
      invariant rest <= m.Keys && Sorted(TextLe, ks) && multiset(ks) == multiset(m.Keys - rest)
      decreases |rest|
    {
      var k :| k in rest;
      InsertSorts(TextLe, k, ks);
      ks := Insert(TextLe, k, ks);
      assert m.Keys - (rest - {k}) == (m.Keys - rest) + {k};
      rest := rest - {k};
    }
    assert m.Keys - rest == m.Keys;
    ArrangedUnique(TextLe, m.Keys, ks);
  }

  // ---- The stream ------------------------------------------------------------------------------

  function Pairs(ks: seq<text>, m: map<text, text>): seq<byte>
    requires forall k :: k in ks ==> k in m
  {
    if ks == [] then [] else Counted(4, ks[0]) + (Counted(4, m[ks[0]]) + Pairs(ks[1..], m))
  }

  ghost function MetadataBytes(m: map<text, text>): seq<byte> {
    var ks := SortedKeys(m.Keys);
    assert forall k :: k in ks ==> k in m by {
      forall k | k in ks ensures k in m { InArranged(TextLe, m.Keys, k); }
    }
    BigEndian(4, |ks|) + Pairs(ks, m)
  }

  function CausationBytes(c: Option<text>): seq<byte> {
    if c.Some? then [1 as byte] + Counted(4, c.value) else [0]
  }

  ghost function PartiesBytes(e: Event): seq<byte> {
    [e.actorType] + (Counted(4, e.actorId) + ([e.targetType] + (Counted(4, e.targetId) +
    (Counted(4, e.correlationId) + (CausationBytes(e.causationId) + MetadataBytes(e.metadata))))))
  }

  /** What EventPayloadFingerprint::compute feeds to SHA-256. */
  ghost function PayloadBytes(e: Event): seq<byte>
    requires IsInt64(Millis(e.occurredAt))
  {
    e.id.bytes + (BigEndian(8, Unsigned(Millis(e.occurredAt))) + (Counted(4, e.eventType) +
    ([e.severity] + ([e.producer] + (Counted(4, e.producerInstance) + PartiesBytes(e))))))
  }

  /** Sixteen id bytes, a 64-bit time, and lengths and counts that fit their 32-bit prefixes. */
  ghost predicate Hashable(e: Event) {
    && |e.id.bytes| == 16 && IsInt64(Millis(e.occurredAt))
    && Short(e.eventType) && Short(e.producerInstance) && Short(e.actorId) && Short(e.targetId)
    && Short(e.correlationId)
    && (e.causationId.Some? ==> Short(e.causationId.value))
    && ShortMetadata(e.metadata)
  }

  predicate Short(s: text) {
    |s| < 0x1_0000_0000
  }

  ghost predicate ShortMetadata(m: map<text, text>) {
    |SortedKeys(m.Keys)| < 0x1_0000_0000 && forall k :: k in m ==> Short(k) && Short(m[k])
  }

  /** Equal in everything but the time of receipt, and to the millisecond in the time of occurrence. */
  predicate SamePayload(e: Event, f: Event) {
    && e.id == f.id && Millis(e.occurredAt) == Millis(f.occurredAt) && e.eventType == f.eventType
    && e.severity == f.severity && e.producer == f.producer && e.producerInstance == f.producerInstance
    && SameParties(e, f)
  }

  predicate SameParties(e: Event, f: Event) {
    && e.actorType == f.actorType && e.actorId == f.actorId && e.targetType == f.targetType && e.targetId == f.targetId
    && e.correlationId == f.correlationId && e.causationId == f.causationId && e.metadata == f.metadata
  }

  lemma PeelByte(a: byte, r: seq<byte>, b: byte, s: seq<byte>)
    requires [a] + r == [b] + s
    ensures a == b && r == s
  {
    Peel([a], r, [b], s);
  }

  lemma PeelShort(x: text, r: seq<byte>, y: text, s: seq<byte>)
    requires Short(x) && Short(y) && Counted(4, x) + r == Counted(4, y) + s
    ensures x == y && r == s
  {
    PowerValues();
    PeelCounted(4, x, r, y, s);
  }

  lemma {:induction false} PairsInjective(ks: seq<text>, m: map<text, text>, js: seq<text>, n: map<text, text>)
    requires |ks| == |js|
    requires forall k :: k in ks ==> k in m && Short(k) && Short(m[k])
    requires forall k :: k in js ==> k in n && Short(k) && Short(n[k])
    requires Pairs(ks, m) == Pairs(js, n)
    ensures ks == js && forall k :: k in ks ==> m[k] == n[k]
  {
    if ks != [] {
      var k, j := ks[0], js[0];
      PeelShort(k, Counted(4, m[k]) + Pairs(ks[1..], m), j, Counted(4, n[j]) + Pairs(js[1..], n));
      PeelShort(m[k], Pairs(ks[1..], m), n[j], Pairs(js[1..], n));
      PairsInjective(ks[1..], m, js[1..], n);
      assert ks == [k] + ks[1..] && js == [j] + js[1..];
    }
  }

  lemma MetadataInjective(m: map<text, text>, n: map<text, text>)
    requires ShortMetadata(m) && ShortMetadata(n) && MetadataBytes(m) == MetadataBytes(n)
    ensures m == n
  {
    PowerValues();
    var ks, js := SortedKeys(m.Keys), SortedKeys(n.Keys);
    forall k ensures (k in ks <==> k in m) && (k in js <==> k in n) {
      InArranged(TextLe, m.Keys, k);
      InArranged(TextLe, n.Keys, k);
    }
    PeelNumber(4, |ks|, Pairs(ks, m), |js|, Pairs(js, n));
    PairsInjective(ks, m, js, n);
    SameKeys(m.Keys, n.Keys);
  }

  lemma CausationSplit(c: Option<text>, r: seq<byte>, flag: byte)
    requires flag == if c.Some? then 1 else 0
    ensures CausationBytes(c) + r == [flag] + if c.Some? then Counted(4, c.value) + r else r
  {
  }

  lemma PeelCausation(c: Option<text>, r: seq<byte>, d: Option<text>, s: seq<byte>)
    requires (c.Some? ==> Short(c.value)) && (d.Some? ==> Short(d.value))
    requires CausationBytes(c) + r == CausationBytes(d) + s
    ensures c == d && r == s
  {
    var cr := if c.Some? then Counted(4, c.value) + r else r;
    var ds := if d.Some? then Counted(4, d.value) + s else s;
    var cFlag: byte, dFlag: byte := if c.Some? then 1 else 0, if d.Some? then 1 else 0;
    CausationSplit(c, r, cFlag);
    CausationSplit(d, s, dFlag);
    PeelByte(cFlag, cr, dFlag, ds);
    if c.Some? {
      PeelShort(c.value, r, d.value, s);
    }
  }

  lemma PartiesInjective(e: Event, f: Event)
    requires Hashable(e) && Hashable(f) && PartiesBytes(e) == PartiesBytes(f)
    ensures SameParties(e, f)
  {
    var eM, fM := MetadataBytes(e.metadata), MetadataBytes(f.metadata);
    var eC, fC := CausationBytes(e.causationId) + eM, CausationBytes(f.causationId) + fM;
    var eR, fR := Counted(4, e.correlationId) + eC, Counted(4, f.correlationId) + fC;
    var eT, fT := Counted(4, e.targetId) + eR, Counted(4, f.targetId) + fR;
    PeelByte(e.actorType, Counted(4, e.actorId) + ([e.targetType] + eT), f.actorType,
             Counted(4, f.actorId) + ([f.targetType] + fT));
    PeelShort(e.actorId, [e.targetType] + eT, f.actorId, [f.targetType] + fT);
    PeelByte(e.targetType, eT, f.targetType, fT);
    PeelShort(e.targetId, eR, f.targetId, fR);
    PeelShort(e.correlationId, eC, f.correlationId, fC);
    PeelCausation(e.causationId, eM, f.causationId, fM);
    MetadataInjective(e.metadata, f.metadata);
  }

  /** The stream identifies the payload: equal streams are exactly equal payloads. */
  lemma PayloadBytesIdentify(e: Event, f: Event)
    requires Hashable(e) && Hashable(f)
    ensures PayloadBytes(e) == PayloadBytes(f) <==> SamePayload(e, f)
  {
    if PayloadBytes(e) == PayloadBytes(f) {
      PowerValues();
      var eI, fI := Counted(4, e.producerInstance) + PartiesBytes(e), Counted(4, f.producerInstance) + PartiesBytes(f);
      var eS, fS := [e.severity] + ([e.producer] + eI), [f.severity] + ([f.producer] + fI);
      var eT, fT := Counted(4, e.eventType) + eS, Counted(4, f.eventType) + fS;
      var eMs, fMs := Unsigned(Millis(e.occurredAt)), Unsigned(Millis(f.occurredAt));
      Peel(e.id.bytes, BigEndian(8, eMs) + eT, f.id.bytes, BigEndian(8, fMs) + fT);
      PeelNumber(8, eMs, eT, fMs, fT);
      PeelShort(e.eventType, eS, f.eventType, fS);
      PeelByte(e.severity, [e.producer] + eI, f.severity, [f.producer] + fI);
      PeelByte(e.producer, eI, f.producer, fI);
      PeelShort(e.producerInstance, PartiesBytes(e), f.producerInstance, PartiesBytes(f));
      PartiesInjective(e, f);
    }
  }

  // ---- Feeding the digest ----------------------------------------------------------------------

  lemma PairsFrom(ks: seq<text>, m: map<text, text>, i: nat)
    requires i <= |ks| && forall k :: k in ks ==> k in m
    ensures Pairs(ks[i..], m) ==
            if i == |ks| then []
            else Counted(4, ks[i]) + (Counted(4, m[ks[i]]) + Pairs(ks[i + 1..], m))
  {
    hide Counted;
    assert i < |ks| ==> ks[i..][0] == ks[i] && ks[i..][1..] == ks[i + 1..];
  }

  method FeedMetadata(stream: seq<byte>, m: map<text, text>) returns (r: seq<byte>)
    ensures r == stream + MetadataBytes(m)
  {
    hide BigEndian, Counted, Pairs;
    var ks := SortMetadata(m);
    forall k | k in ks ensures k in m {
      InArranged(TextLe, m.Keys, k);
    }
    ghost var goal := stream + MetadataBytes(m);
    r := Update(stream, BigEndian(4, |ks|), Pairs(ks, m), goal);
    assert ks[0..] == ks;
    for i := 0 to |ks|
      invariant r + Pairs(ks[i..], m) == goal
    {
      PairsFrom(ks, m, i);
      r := Update(r, Counted(4, ks[i]), Counted(4, m[ks[i]]) + Pairs(ks[i + 1..], m), goal);
      r := Update(r, Counted(4, m[ks[i]]), Pairs(ks[i + 1..], m), goal);
    }
    PairsFrom(ks, m, |ks|);
    assert r + [] == r;
  }

  method FeedParties(stream: seq<byte>, e: Event) returns (r: seq<byte>)
    ensures r == stream + PartiesBytes(e)
  {
    ghost var goal, meta := stream + PartiesBytes(e), MetadataBytes(e.metadata);
    ghost var afterTarget := Counted(4, e.correlationId) + (CausationBytes(e.causationId) + meta);
    ghost var afterActor := [e.targetType] + (Counted(4, e.targetId) + afterTarget);
    r := Update(stream, [e.actorType], Counted(4, e.actorId) + afterActor, goal);
    r := Update(r, Counted(4, e.actorId), afterActor, goal);
    r := Update(r, [e.targetType], Counted(4, e.targetId) + afterTarget, goal);
    r := Update(r, Counted(4, e.targetId), afterTarget, goal);
    r := Update(r, Counted(4, e.correlationId), CausationBytes(e.causationId) + meta, goal);
    r := Update(r, CausationBytes(e.causationId), meta, goal);
    r := FeedMetadata(r, e.metadata);
  }

  /** The updates of EventPayloadFingerprint::compute, in order. */
  method FeedPayload(e: Event) returns (r: seq<byte>)
    requires IsInt64(Millis(e.occurredAt))
    ensures r == PayloadBytes(e)
  {
    ghost var goal, parties := PayloadBytes(e), PartiesBytes(e);
    var ms := BigEndian(8, Unsigned(Millis(e.occurredAt)));
    ghost var afterType := [e.severity] + ([e.producer] + (Counted(4, e.producerInstance) + parties));
    assert [] + goal == goal;
    r := Update([], e.id.bytes, ms + (Counted(4, e.eventType) + afterType), goal);
    r := Update(r, ms, Counted(4, e.eventType) + afterType, goal);
    r := Update(r, Counted(4, e.eventType), afterType, goal);
    r := Update(r, [e.severity], [e.producer] + (Counted(4, e.producerInstance) + parties), goal);
    r := Update(r, [e.producer], Counted(4, e.producerInstance) + parties, goal);
    r := Update(r, Counted(4, e.producerInstance), parties, goal);
    r := FeedParties(r, e);
  }
}
