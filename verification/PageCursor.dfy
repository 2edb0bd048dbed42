/** The page cursor and its token (src/audit/query/audit_page_cursor.cpp). */
module PageCursor {
  import opened Types
  import opened Wire
  import opened Base64
  import opened Base64Codecs

  /** AuditPageCursor; the sort order is the enum's underlying byte. */
  datatype Cursor = Cursor(occurredAt: int, producer: text, eventType: text, id: EventId, order: byte,
                           filterHash: seq<byte>)

  /** What fits the layout: a 64-bit time, strings with a 16-bit length, a known id, a 16-byte hash. */
  predicate Representable(c: Cursor) {
    IsInt64(c.occurredAt) && |c.producer| < 0x1_0000 && |c.eventType| < 0x1_0000 && KnownId(c.id) &&
      |c.filterHash| == 16
  }

  function Packed(c: Cursor): seq<byte>
    requires IsInt64(c.occurredAt)
  {
    BigEndian(8, Unsigned(c.occurredAt)) +
      (Counted(2, c.producer) + (Counted(2, c.eventType) + (c.id.bytes + ([c.order] + c.filterHash))))
  }

  /** AuditPageCursorCodec::encode. */
  function Token(c: Cursor): string
    requires IsInt64(c.occurredAt)
  {
    Encoded(Url, Packed(c))
  }

  /** The token stands for the cursor, under the filter hash `h`. */
  ghost predicate Opens(token: string, h: seq<byte>, c: Cursor) {
    Representable(c) && c.filterHash == h && DecodedLoose(token) == Some(Packed(c))
  }

  lemma PackedInjective(c: Cursor, d: Cursor)
    requires Representable(c) && Representable(d) && Packed(c) == Packed(d)
    ensures c == d
  {
    PowerValues();
    var cId, dId := c.id.bytes + ([c.order] + c.filterHash), d.id.bytes + ([d.order] + d.filterHash);
    var cType, dType := Counted(2, c.eventType) + cId, Counted(2, d.eventType) + dId;
    PeelNumber(8, Unsigned(c.occurredAt), Counted(2, c.producer) + cType, Unsigned(d.occurredAt),
               Counted(2, d.producer) + dType);
    PeelCounted(2, c.producer, cType, d.producer, dType);
    PeelCounted(2, c.eventType, cId, d.eventType, dId);
    Peel(c.id.bytes, [c.order] + c.filterHash, d.id.bytes, [d.order] + d.filterHash);
    Peel([c.order], c.filterHash, [d.order], d.filterHash);
  }

  /** A token opens as at most one cursor. */
  lemma OpensOnce(token: string, h: seq<byte>, c: Cursor, d: Cursor)
    requires Opens(token, h, c) && Opens(token, h, d)
    ensures c == d
  {
    PackedInjective(c, d);
  }

  /** A representable cursor's token opens as that cursor under its own filter hash, and under no other. */
  lemma TokenRoundTrip(c: Cursor, h: seq<byte>, d: Cursor)
    requires Representable(c)
    ensures Opens(Token(c), h, d) <==> d == c && h == c.filterHash
  {
    Base64.RoundTrip(Url, Packed(c));
    if Opens(Token(c), h, d) {
      PackedInjective(c, d);
    }
  }

  // ---- Encoding --------------------------------------------------------------------------------

  method AppendBigEndian(buffer: seq<byte>, n: nat, v: nat) returns (r: seq<byte>)
    ensures r == buffer + BigEndian(n, v)
  {
    r := buffer;
    var i := n;
    while i > 0
      invariant 0 <= i <= n && r == buffer + BigEndian(n - i, High(v, i))
    {
      i := i - 1;
      HighIsShift(v, i);
      r := r + [v / Pow256(i) % 256];
      AppendByte(buffer, n - i, High(v, i));
    }
  }

  /** `v` without its low `i` bytes. */
  function High(v: nat, i: nat): nat {
    if i == 0 then v else High(v, i - 1) / 256
  }

  lemma AppendByte(buffer: seq<byte>, k: nat, w: nat)
    requires k > 0
    ensures buffer + BigEndian(k - 1, w / 256) + [w % 256] == buffer + BigEndian(k, w)
  {
  }

  lemma {:induction false} HighIsShift(v: nat, i: nat)
    ensures High(v, i) == v / Pow256(i)
  {
    if i > 0 {
      HighIsShift(v, i - 1);
      DivDiv(v, Pow256(i - 1));
    }
  }

  lemma DivDiv(v: nat, p: nat)
    requires p > 0
    ensures v / (256 * p) == v / p / 256
  {
    assert v / p * p + v % p == v;
    DivSplit(v / p, p, v % p);
  }

  lemma DivSplit(q: nat, p: nat, r: nat)
    requires r < p
    ensures (q * p + r) / (256 * p) == q / 256
  {
    Regroup(q / 256, q % 256, p, r);
    Bits.DivMod(q / 256, q % 256 * p + r, 256 * p);
  }

  lemma Regroup(a: nat, b: nat, p: nat, r: nat)
    requires b < 256 && r < p
    ensures (a * 256 + b) * p + r == a * (256 * p) + (b * p + r)
    ensures b * p + r < 256 * p
  {
    assert (a * 256 + b) * p == a * 256 * p + b * p;
    assert (255 - b) * p >= 0;
  }

  method EncodeCursor(c: Cursor) returns (token: string)
    requires IsInt64(c.occurredAt)
    ensures token == Token(c)
  {
    var buffer := AppendBigEndian([], 8, Unsigned(c.occurredAt));
    buffer := AppendBigEndian(buffer, 2, |c.producer|);
    buffer := buffer + c.producer;
    buffer := AppendBigEndian(buffer, 2, |c.eventType|);
    buffer := buffer + c.eventType + c.id.bytes + [c.order] + c.filterHash;
    Layout(c);
    token := EncodeStream(buffer);
  }

  lemma Layout(c: Cursor)
    requires IsInt64(c.occurredAt)
    ensures Packed(c) == [] + BigEndian(8, Unsigned(c.occurredAt)) + BigEndian(2, |c.producer|) + c.producer
                         + BigEndian(2, |c.eventType|) + c.eventType + c.id.bytes + [c.order] + c.filterHash
  {
  }

  // ---- Decoding --------------------------------------------------------------------------------

  /** Where the fields of a cursor lie in its bytes. */
  ghost predicate LaidOut(bytes: seq<byte>, c: Cursor) {
    var p, t := |c.producer|, |c.eventType|;
    && |bytes| == 45 + p + t
    && FromBigEndian(bytes[8..10]) == p && bytes[10..10 + p] == c.producer
    && FromBigEndian(bytes[10 + p..12 + p]) == t && bytes[12 + p..12 + p + t] == c.eventType
    && bytes[12 + p + t..28 + p + t] == c.id.bytes && bytes[29 + p + t..] == c.filterHash
  }

  lemma PackedIsLaidOut(c: Cursor)
    requires Representable(c)
    ensures LaidOut(Packed(c), c)
  {
    PowerValues();
    BigEndianReads(2, |c.producer|);
    BigEndianReads(2, |c.eventType|);
    var behind := c.id.bytes + ([c.order] + c.filterHash);
    var back := Counted(2, c.eventType) + behind;
    FrontSlices(BigEndian(8, Unsigned(c.occurredAt)), c.producer, back);
    BackSlices(c.eventType, c.id.bytes, c.order, c.filterHash);
    var at, t := 10 + |c.producer|, |c.eventType|;
    Shifted(Packed(c), at, 0, 2);
    Shifted(Packed(c), at, 2, 2 + t);
    Shifted(Packed(c), at, 2 + t, 18 + t);
    Shifted(Packed(c), at, 19 + t, 35 + t);
  }

  lemma FrontSlices(time: seq<byte>, s: text, back: seq<byte>)
    requires |time| == 8
    ensures var bytes := time + (Counted(2, s) + back);
            |bytes| == 10 + |s| + |back| && bytes[8..10] == BigEndian(2, |s|) && bytes[10..10 + |s|] == s &&
              bytes[10 + |s|..] == back
  {
    var bytes, rest := time + (Counted(2, s) + back), BigEndian(2, |s|) + (s + back);
    assert Counted(2, s) + back == rest;
    assert bytes[8..] == rest;
    assert rest[..2] == BigEndian(2, |s|) && rest[2..] == s + back;
    assert bytes[8..10] == rest[..2] && bytes[10..] == rest[2..];
    assert bytes[10..10 + |s|] == (s + back)[..|s|] && bytes[10 + |s|..] == (s + back)[|s|..];
  }

  lemma BackSlices(s: text, id: seq<byte>, order: byte, hash: seq<byte>)
    requires |id| == 16 && |hash| == 16
    ensures var back, t := Counted(2, s) + (id + ([order] + hash)), |s|;
            && |back| == 35 + t && back[..2] == BigEndian(2, t) && back[2..2 + t] == s
            && back[2 + t..18 + t] == id && back[19 + t..] == hash
  {
    var tail := id + ([order] + hash);
    var back, t := Counted(2, s) + tail, |s|;
    assert back == BigEndian(2, t) + (s + tail);
    assert back[2..] == s + tail && back[2 + t..] == tail;
    assert back[2..2 + t] == (s + tail)[..t];
    assert tail[..16] == id && tail[17..] == hash;
    assert back[2 + t..18 + t] == tail[..16] && back[19 + t..] == tail[17..];
  }

  /** A slice of a suffix is a slice of the whole. */
  lemma Shifted(bytes: seq<byte>, at: nat, i: nat, j: nat)
    requires at <= |bytes| && i <= j <= |bytes| - at
    ensures bytes[at + i..at + j] == bytes[at..][i..j]
  {
  }

  lemma OpensLaidOut(token: string, h: seq<byte>, bytes: seq<byte>)
    requires DecodedLoose(token) == Some(bytes)
    ensures forall c :: Opens(token, h, c) ==> LaidOut(bytes, c)
  {
    forall c | Opens(token, h, c) ensures LaidOut(bytes, c) {
      PackedIsLaidOut(c);
    }
  }

  /** The cursor assembled from the fields found at their places. */
  lemma Assemble(bytes: seq<byte>, c: Cursor)
    requires Representable(c) && LaidOut(bytes, c)
    requires Unsigned(c.occurredAt) == FromBigEndian(bytes[..8]) && c.order == bytes[28 + |c.producer| + |c.eventType|]
    ensures bytes == Packed(c)
  {
    hide FromBigEndian, BigEndian, KnownId, Counted;
    var p, t := |c.producer|, |c.eventType|;
    BigEndianOf(bytes[..8]);
    CountedHere(bytes, 8, c.producer);
    CountedHere(bytes, 10 + p, c.eventType);
    TailHere(bytes, 12 + p + t);
    hide LaidOut;
    Nested(bytes, p, t, Counted(2, c.producer), Counted(2, c.eventType), c.id.bytes + ([c.order] + c.filterHash));
  }

  lemma Nested(bytes: seq<byte>, p: nat, t: nat, x: seq<byte>, y: seq<byte>, z: seq<byte>)
    requires |bytes| == 45 + p + t && bytes[8..] == x + bytes[10 + p..]
    requires bytes[10 + p..] == y + bytes[12 + p + t..] && bytes[12 + p + t..] == z
    ensures bytes == bytes[..8] + (x + (y + z))
  {
    assert bytes == bytes[..8] + bytes[8..];
  }

  lemma CountedHere(bytes: seq<byte>, at: nat, s: text)
    requires at + 2 + |s| <= |bytes| && FromBigEndian(bytes[at..at + 2]) == |s| && bytes[at + 2..at + 2 + |s|] == s
    ensures bytes[at..] == Counted(2, s) + bytes[at + 2 + |s|..]
  {
    BigEndianOf(bytes[at..at + 2]);
    assert bytes[at..] == bytes[at..at + 2] + bytes[at + 2..at + 2 + |s|] + bytes[at + 2 + |s|..];
  }

  lemma TailHere(bytes: seq<byte>, at: nat)
    requires |bytes| == at + 33
    ensures bytes[at..] == bytes[at..at + 16] + ([bytes[at + 16]] + bytes[at + 17..])
  {
  }

  lemma EmptyTokenOpensNothing(h: seq<byte>)
    ensures forall c :: !Opens("", h, c)
  {
    assert DecodedLoose("") == Some([]);
    OpensLaidOut("", h, []);
  }

  method ReadBigEndian(bytes: seq<byte>, offset: nat, n: nat) returns (v: nat)
    requires offset + n <= |bytes|
    ensures v == FromBigEndian(bytes[offset..offset + n]) < Pow256(n)
  {
    v := 0;
    for i := 0 to n
      invariant v == FromBigEndian(bytes[offset..offset + i])
    {
      assert bytes[offset..offset + i + 1][..i] == bytes[offset..offset + i];
      v := v * 256 + bytes[offset + i];
    }
    BigEndianOf(bytes[offset..offset + n]);
  }

  /** The time and the two strings have been read, up to `start`. */
  ghost predicate StringsRead(bytes: seq<byte>, start: nat, ts: nat, producer: text, eventType: text) {
    var p := |producer|;
    && start <= |bytes| && start == 12 + p + |eventType| && p < Pow256(2) && |eventType| < Pow256(2)
    && ts == FromBigEndian(bytes[..8]) && ts < Pow256(8)
    && FromBigEndian(bytes[8..10]) == p && bytes[10..10 + p] == producer
    && FromBigEndian(bytes[10 + p..12 + p]) == |eventType| && bytes[12 + p..start] == eventType
  }

  ghost predicate StringsFit(bytes: seq<byte>) {
    && |bytes| >= 45
    && var p := FromBigEndian(bytes[8..10]);
    && 12 + p <= |bytes| && 12 + p + FromBigEndian(bytes[10 + p..12 + p]) <= |bytes|
  }

  lemma StringsMustFit(token: string, h: seq<byte>, bytes: seq<byte>)
    requires forall c :: Opens(token, h, c) ==> LaidOut(bytes, c)
    ensures forall c :: Opens(token, h, c) ==> StringsFit(bytes)
  {
  }

  method ReadStrings(bytes: seq<byte>) returns (r: Option<(text, text)>)
    requires |bytes| >= 45
    ensures r.None? ==> !StringsFit(bytes)
    ensures r.Some? ==>
              StringsRead(bytes, 12 + |r.value.0| + |r.value.1|, FromBigEndian(bytes[..8]), r.value.0, r.value.1)
  {
    var producerLength := ReadBigEndian(bytes, 8, 2);
    var offset := 10;
    if offset + producerLength > |bytes| {
      return None;
    }
    var producer := bytes[offset..offset + producerLength];
    offset := offset + producerLength;
    if offset + 2 > |bytes| {
      return None;
    }
    var typeLength := ReadBigEndian(bytes, offset, 2);
    offset := offset + 2;
    if offset + typeLength > |bytes| {
      return None;
    }
    BigEndianOf(bytes[..8]);
    return Some((producer, bytes[offset..offset + typeLength]));
  }

  /** What any cursor the token opens as must then have behind them. */
  lemma TailOf(bytes: seq<byte>, start: nat, ts: nat, producer: text, eventType: text, c: Cursor)
    requires StringsRead(bytes, start, ts, producer, eventType) && LaidOut(bytes, c)
    ensures |bytes| == start + 33 && bytes[start..start + 16] == c.id.bytes && bytes[start + 17..] == c.filterHash
  {
  }

  lemma TailsOf(token: string, h: seq<byte>, bytes: seq<byte>, start: nat, ts: nat, producer: text, eventType: text)
    requires StringsRead(bytes, start, ts, producer, eventType)
    requires forall c :: Opens(token, h, c) ==> LaidOut(bytes, c)
    ensures forall c :: Opens(token, h, c) ==>
                          TailFits(bytes, start) && bytes[start + 17..] == h
  {
    forall c | Opens(token, h, c) ensures TailFits(bytes, start) && bytes[start + 17..] == h {
      TailOf(bytes, start, ts, producer, eventType, c);
      assert EventId(bytes[start..start + 16]) == c.id;
    }
  }

  lemma AssembleRead(bytes: seq<byte>, start: nat, ts: nat, producer: text, eventType: text, c: Cursor)
    requires StringsRead(bytes, start, ts, producer, eventType) && |bytes| == start + 33
    requires IsInt64(c.occurredAt) && Unsigned(c.occurredAt) == ts && c.producer == producer && c.eventType == eventType
    requires c.id.bytes == bytes[start..start + 16] && KnownId(c.id) && c.order == bytes[start + 16]
    requires c.filterHash == bytes[start + 17..]
    ensures Representable(c) && bytes == Packed(c)
  {
    PowerValues();
    Assemble(bytes, c);
  }

  ghost predicate TailFits(bytes: seq<byte>, start: nat) {
    |bytes| == start + 33 && KnownId(EventId(bytes[start..start + 16]))
  }

  /** The fixed-size fields behind the two strings: the id, the order and the hash. */
  method ReadTail(bytes: seq<byte>, start: nat) returns (r: Option<(EventId, byte, seq<byte>)>)
    requires start <= |bytes|
    ensures r.Some? <==> TailFits(bytes, start)
    ensures r.Some? ==> r.value == (EventId(bytes[start..start + 16]), bytes[start + 16], bytes[start + 17..])
  {
    var offset := start;
    if offset + 16 > |bytes| {
      return None;
    }
    var id := EventId(bytes[offset..offset + 16]);
    offset := offset + 16;
    if !Nil(id) && (id.bytes[6] / 16 != 7 || id.bytes[8] / 64 != 2) {
      return None;
    }
    if offset + 1 > |bytes| {
      return None;
    }
    var order := bytes[offset];
    offset := offset + 1;
    if offset + 16 != |bytes| {
      return None;
    }
    return Some((id, order, bytes[offset..]));
  }

  /** AuditPageCursorCodec::decode. */
  method DecodeCursor(token: string, expectedHash: seq<byte>) returns (r: Option<Cursor>)
    requires |expectedHash| == 16
    ensures match r
            case Some(c) => Opens(token, expectedHash, c)
            case None => forall c :: !Opens(token, expectedHash, c)
  {
    if token == "" {
      EmptyTokenOpensNothing(expectedHash);
      return None;
    }
    var raw := DecodeStream(token);
    if raw.None? {
      return None;
    }
    var bytes := raw.value;
    OpensLaidOut(token, expectedHash, bytes);
    StringsMustFit(token, expectedHash, bytes);
    if |bytes| < 8 + 2 + 2 + 16 + 1 + 16 {
      return None;
    }
    var ts := ReadBigEndian(bytes, 0, 8);
    var strings := ReadStrings(bytes);
    if strings.None? {
      return None;
    }
    var producer, eventType := strings.value.0, strings.value.1;
    var start := 12 + |producer| + |eventType|;
    TailsOf(token, expectedHash, bytes, start, ts, producer, eventType);
    var tail := ReadTail(bytes, start);
    if tail.None? || tail.value.2 != expectedHash {
      return None;
    }
    assert ts < 0x1_0000_0000_0000_0000 by { PowerValues(); }
    var c := Cursor(Signed(ts), producer, eventType, tail.value.0, tail.value.1, tail.value.2);
    AssembleRead(bytes, start, ts, producer, eventType, c);
    return Some(c);
  }
}
