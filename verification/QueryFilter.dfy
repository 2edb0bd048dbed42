/** The query filter: validation and the byte stream of its hash
    (src/audit/query/audit_query_validator.cpp, src/audit/query/audit_page_cursor.cpp). */
module QueryFilter {
  import opened Types
  import opened Wire
  import opened Orders
  import opened AuditEvents

  datatype SortOrder = Descending | Ascending

  datatype Filter = Filter(
    startAt: Option<int>, endAt: Option<int>, producers: seq<byte>, eventTypes: seq<text>, severities: seq<byte>,
    actorType: Option<byte>, actorId: Option<text>, targetType: Option<byte>, targetId: Option<text>,
    correlationId: Option<text>, pageSize: nat, pageToken: string, order: SortOrder)

  /** QueryConfig, within the limits its loader enforces. */
  datatype Config = Config(defaultWindowHours: nat, maxWindowHours: nat, maxPageLimit: nat, defaultPageLimit: nat)

  ghost predicate LoadedConfig(c: Config) {
    10 <= c.maxPageLimit <= 10000 && 1 <= c.defaultPageLimit <= c.maxPageLimit
  }

  // ---- The byte stream of the filter hash --------------------------------------------------------

  function OrderByte(o: SortOrder): byte {
    if o.Descending? then 0 else 1
  }

  /** A 32-bit count as it lies in memory, on a machine of either byte order. */
  function Native(big: bool, n: nat): (bs: seq<byte>)
    ensures |bs| == 4
  {
    if big then BigEndian(4, n) else LittleEndian(4, n)
  }

  function LittleEndian(n: nat, v: nat): (bs: seq<byte>)
    ensures |bs| == n
  {
    if n == 0 then [] else [v % 256] + LittleEndian(n - 1, v / 256)
  }

  lemma {:induction false} LittleEndianInjective(n: nat, v: nat, w: nat)
    requires v < Pow256(n) && w < Pow256(n) && LittleEndian(n, v) == LittleEndian(n, w)
    ensures v == w
  {
    if n > 0 {
      assert LittleEndian(n, v)[0] == v % 256 && LittleEndian(n, w)[0] == w % 256;
      assert LittleEndian(n, v)[1..] == LittleEndian(n - 1, v / 256) &&
             LittleEndian(n, w)[1..] == LittleEndian(n - 1, w / 256);
      LittleEndianInjective(n - 1, v / 256, w / 256);
    }
  }

  function Texts(ts: seq<text>): seq<byte> {
    if ts == [] then [] else Counted(4, ts[0]) + Texts(ts[1..])
  }

  function Party(kind: Option<byte>, id: Option<text>): seq<byte> {
    KindBytes(kind) + Counted(4, TextOrEmpty(id))
  }

  function MillisOrZero(t: Option<int>): (ms: int)
    requires t.Some? ==> IsInt64(t.value)
    ensures IsInt64(ms)
  {
    if t.Some? then Millis(t.value) else 0
  }

  ghost predicate ClockRange(f: Filter) {
    (f.startAt.Some? ==> IsInt64(f.startAt.value)) && (f.endAt.Some? ==> IsInt64(f.endAt.value))
  }

  function WhoBytes(f: Filter): seq<byte> {
    Party(f.actorType, f.actorId) + (Party(f.targetType, f.targetId) +
    (Counted(4, TextOrEmpty(f.correlationId)) + [OrderByte(f.order)]))
  }

  function ListBytes(big: bool, f: Filter): seq<byte> {
    var ps, ts, ss := Sort(ByteLe, f.producers), Sort(TextLe, f.eventTypes), Sort(ByteLe, f.severities);
    Native(big, |ps|) + (ps + (Native(big, |ts|) + (Texts(ts) + (Native(big, |ss|) + (ss + WhoBytes(f))))))
  }

  /** What compute_filter_hash feeds to SHA-256. */
  function FilterBytes(big: bool, f: Filter): seq<byte>
    requires ClockRange(f)
  {
    BigEndian(8, Unsigned(MillisOrZero(f.startAt))) +
      (BigEndian(8, Unsigned(MillisOrZero(f.endAt))) + ListBytes(big, f))
  }

  // ---- Validation ------------------------------------------------------------------------------

  const TICKS_PER_MINUTE := 60_000 * TICKS_PER_MILLI
  const TICKS_PER_HOUR := 60 * TICKS_PER_MINUTE

  predicate WordByte(b: byte) {
    'a' as nat <= b <= 'z' as nat || '0' as nat <= b <= '9' as nat || b == '_' as nat
  }

  /** Two or more non-empty words joined by dots. */
  predicate DottedWords(s: text) {
    && (forall i :: 0 <= i < |s| ==> WordByte(s[i]) || s[i] == '.' as nat)
    && (exists i :: 0 <= i < |s| && s[i] == '.' as nat)
    && (forall i :: 0 <= i < |s| && s[i] == '.' as nat ==> 0 < i < |s| - 1 && s[i + 1] != '.' as nat)
  }

  predicate ValidEventType(s: text) {
    0 < |s| <= 64 && DottedWords(s)
  }

  predicate SafeIdentifier(s: text, maxLength: nat) {
    0 < |s| <= maxLength &&
    forall i :: 0 <= i < |s| ==>
      0x20 <= s[i] <= 0x7E && s[i] != '\'' as nat && s[i] != '"' as nat && s[i] != '`' as nat
  }

  datatype Verdict =
    | Accepted(filter: Filter)
    | MissingTimeRangeBound | InvalidTimeRangeOrder | TimeWindowExceeded | PageSizeExceeded | TooManyEventTypes
    | InvalidEventType | InvalidActorTargetRequirement | InvalidCharacterInIdentifier | InvalidCorrelationId
    | InvalidPageToken

  /** Default bounds when both are missing, refused when one is. */
  function WithBounds(f: Filter, c: Config, now: int): Filter {
    if f.startAt.None? && f.endAt.None? then
      f.(startAt := Some(now - c.defaultWindowHours * TICKS_PER_HOUR), endAt := Some(now + 5 * TICKS_PER_MINUTE))
    else f
  }

  function WithPageSize(f: Filter, c: Config): Filter {
    if f.pageSize == 0 then f.(pageSize := c.defaultPageLimit) else f
  }

  predicate PartyGiven(kind: Option<byte>, id: Option<text>) {
    id.Some? ==> kind.Some? && kind.value != 0
  }

  predicate PartySafe(id: Option<text>) {
    id.Some? ==> SafeIdentifier(id.value, 128)
  }

  /** The checks on the identity fields, in order. */
  function CheckFields(f: Filter): Verdict {
    if |f.eventTypes| > 20 then TooManyEventTypes
    else if exists i :: 0 <= i < |f.eventTypes| && !ValidEventType(f.eventTypes[i]) then InvalidEventType
    else if !PartyGiven(f.actorType, f.actorId) then InvalidActorTargetRequirement
    else if !PartySafe(f.actorId) then InvalidCharacterInIdentifier
    else if !PartyGiven(f.targetType, f.targetId) then InvalidActorTargetRequirement
    else if !PartySafe(f.targetId) then InvalidCharacterInIdentifier
    else if f.correlationId.Some? && !SafeIdentifier(f.correlationId.value, 64) then InvalidCorrelationId
    else Accepted(f)
  }

  /** validate_and_normalize up to the page token, whose check is the cursor's. */
  function Normalized(f: Filter, c: Config, now: int): Verdict {
    if f.startAt.Some? != f.endAt.Some? then MissingTimeRangeBound
    else
      var g := WithBounds(f, c, now);
      if g.startAt.value >= g.endAt.value then InvalidTimeRangeOrder
      else if (g.endAt.value - g.startAt.value) / TICKS_PER_HOUR > c.maxWindowHours then TimeWindowExceeded
      else if g.pageSize > c.maxPageLimit then PageSizeExceeded
      else CheckFields(WithPageSize(g, c))
  }

  ghost predicate Validated(f: Filter) {
    && f.startAt.Some? && f.endAt.Some? && f.startAt.value < f.endAt.value && f.pageSize > 0
    && CheckFields(f) == Accepted(f)
  }

  /** What passes is a validated filter that differs only in the defaults, and it passes again, at any
      later time, unchanged. */
  lemma NormalizedIsValidated(f: Filter, c: Config, now: int, later: int)
    requires LoadedConfig(c) && Normalized(f, c, now).Accepted?
    ensures var g := Normalized(f, c, now).filter;
            && Validated(g) && g == f.(startAt := g.startAt, endAt := g.endAt, pageSize := g.pageSize)
            && (f.startAt.Some? ==> g.startAt == f.startAt && g.endAt == f.endAt)
            && (f.pageSize != 0 ==> g.pageSize == f.pageSize) && g.pageSize <= c.maxPageLimit
            && Normalized(g, c, later) == Accepted(g)
  {
  }

  // ---- The stream identifies the query ---------------------------------------------------------

  /** The same query, whatever the order of its lists, its page size and its token. */
  ghost predicate SameQuery(f: Filter, g: Filter)
    requires ClockRange(f) && ClockRange(g)
  {
    && MillisOrZero(f.startAt) == MillisOrZero(g.startAt) && MillisOrZero(f.endAt) == MillisOrZero(g.endAt)
    && multiset(f.producers) == multiset(g.producers) && multiset(f.eventTypes) == multiset(g.eventTypes)
    && multiset(f.severities) == multiset(g.severities) && SameWho(f, g)
  }

  predicate SameWho(f: Filter, g: Filter) {
    && f.actorType == g.actorType && f.actorId == g.actorId && f.targetType == g.targetType && f.targetId == g.targetId
    && f.correlationId == g.correlationId && f.order == g.order
  }

  /** Validated, with producer and severity lists whose lengths fit the 32-bit counts. */
  ghost predicate Hashed(f: Filter) {
    Validated(f) && ClockRange(f) && |f.producers| < 0x1_0000_0000 && |f.severities| < 0x1_0000_0000
  }

  lemma PeelNative(big: bool, m: nat, r: seq<byte>, n: nat, s: seq<byte>)
    requires m < 0x1_0000_0000 && n < 0x1_0000_0000 && Native(big, m) + r == Native(big, n) + s
    ensures m == n && r == s
  {
    PowerValues();
    Peel(Native(big, m), r, Native(big, n), s);
    if big {
      BigEndianReads(4, m);
      BigEndianReads(4, n);
    } else {
      LittleEndianInjective(4, m, n);
    }
  }

  ghost predicate AllShort(ts: seq<text>) {
    forall i :: 0 <= i < |ts| ==> Short(ts[i])
  }

  lemma TextsSplit(ts: seq<text>, r: seq<byte>)
    requires ts != []
    ensures Texts(ts) + r == Counted(4, ts[0]) + (Texts(ts[1..]) + r)
  {
  }

  lemma {:induction false} PeelTexts(ts: seq<text>, r: seq<byte>, us: seq<text>, s: seq<byte>)
    requires |ts| == |us| && AllShort(ts) && AllShort(us) && Texts(ts) + r == Texts(us) + s
    ensures ts == us && r == s
  {
    if ts == [] {
      assert r == Texts(ts) + r && s == Texts(us) + s;
    } else {
      var tt, ut := ts[1..], us[1..];
      TextsSplit(ts, r);
      TextsSplit(us, s);
      PeelShort(ts[0], Texts(tt) + r, us[0], Texts(ut) + s);
      PeelTexts(tt, r, ut, s);
      assert ts == [ts[0]] + tt && us == [us[0]] + ut;
    }
  }

  /** A present identifier is never empty, so an empty one stands for none. */
  ghost predicate PlainId(id: Option<text>) {
    id.Some? ==> 0 < |id.value| && Short(id.value)
  }

  function TextOrEmpty(id: Option<text>): text {
    if id.Some? then id.value else []
  }

  lemma PeelId(x: Option<text>, r: seq<byte>, y: Option<text>, s: seq<byte>)
    requires PlainId(x) && PlainId(y) && Counted(4, TextOrEmpty(x)) + r == Counted(4, TextOrEmpty(y)) + s
    ensures x == y && r == s
  {
    PeelShort(TextOrEmpty(x), r, TextOrEmpty(y), s);
  }

  function KindBytes(kind: Option<byte>): seq<byte> {
    if kind.Some? then [1 as byte, kind.value] else [0]
  }

  lemma PeelKind(k: Option<byte>, r: seq<byte>, l: Option<byte>, s: seq<byte>)
    requires KindBytes(k) + r == KindBytes(l) + s
    ensures k == l && r == s
  {
    assert (KindBytes(k) + r)[0] == KindBytes(k)[0] && (KindBytes(l) + s)[0] == KindBytes(l)[0];
    Peel(KindBytes(k), r, KindBytes(l), s);
  }

  lemma PeelParty(k: Option<byte>, x: Option<text>, r: seq<byte>, l: Option<byte>, y: Option<text>, s: seq<byte>)
    requires PlainId(x) && PlainId(y) && Party(k, x) + r == Party(l, y) + s
    ensures k == l && x == y && r == s
  {
    var xt, yt := Counted(4, TextOrEmpty(x)), Counted(4, TextOrEmpty(y));
    assert Party(k, x) + r == KindBytes(k) + (xt + r);
    assert Party(l, y) + s == KindBytes(l) + (yt + s);
    PeelKind(k, xt + r, l, yt + s);
    PeelId(x, r, y, s);
  }

  lemma WhoInjective(f: Filter, g: Filter)
    requires PlainId(f.actorId) && PlainId(f.targetId) && PlainId(f.correlationId)
    requires PlainId(g.actorId) && PlainId(g.targetId) && PlainId(g.correlationId)
    requires WhoBytes(f) == WhoBytes(g)
    ensures SameWho(f, g)
  {
    var fc, gc := Counted(4, TextOrEmpty(f.correlationId)) + [OrderByte(f.order)],
        Counted(4, TextOrEmpty(g.correlationId)) + [OrderByte(g.order)];
    PeelParty(f.actorType, f.actorId, Party(f.targetType, f.targetId) + fc, g.actorType, g.actorId,
              Party(g.targetType, g.targetId) + gc);
    PeelParty(f.targetType, f.targetId, fc, g.targetType, g.targetId, gc);
    PeelId(f.correlationId, [OrderByte(f.order)], g.correlationId, [OrderByte(g.order)]);
  }

  lemma ValidatedShort(f: Filter)
    requires Hashed(f)
    ensures PlainId(f.actorId) && PlainId(f.targetId) && PlainId(f.correlationId)
    ensures AllShort(Sort(TextLe, f.eventTypes)) && |f.eventTypes| <= 20
  {
    var ts := Sort(TextLe, f.eventTypes);
    forall i | 0 <= i < |ts| ensures Short(ts[i]) {
      InMultiset(ts[i], ts);
      InMultiset(ts[i], f.eventTypes);
      var j :| 0 <= j < |f.eventTypes| && f.eventTypes[j] == ts[i];
      assert ValidEventType(f.eventTypes[j]);
    }
  }

  lemma ListsInjective(big: bool, f: Filter, g: Filter)
    requires Hashed(f) && Hashed(g) && ListBytes(big, f) == ListBytes(big, g)
    ensures Sort(ByteLe, f.producers) == Sort(ByteLe, g.producers)
    ensures Sort(TextLe, f.eventTypes) == Sort(TextLe, g.eventTypes)
    ensures Sort(ByteLe, f.severities) == Sort(ByteLe, g.severities) && WhoBytes(f) == WhoBytes(g)
  {
    ValidatedShort(f);
    ValidatedShort(g);
    var fp, gp := Sort(ByteLe, f.producers), Sort(ByteLe, g.producers);
    var ft, gt := Sort(TextLe, f.eventTypes), Sort(TextLe, g.eventTypes);
    var fs, gs := Sort(ByteLe, f.severities), Sort(ByteLe, g.severities);
    var fr, gr := Native(big, |fs|) + (fs + WhoBytes(f)), Native(big, |gs|) + (gs + WhoBytes(g));
    var fq, gq := Native(big, |ft|) + (Texts(ft) + fr), Native(big, |gt|) + (Texts(gt) + gr);
    PeelNative(big, |fp|, fp + fq, |gp|, gp + gq);
    Peel(fp, fq, gp, gq);
    PeelNative(big, |ft|, Texts(ft) + fr, |gt|, Texts(gt) + gr);
    PeelTexts(ft, fr, gt, gr);
    PeelNative(big, |fs|, fs + WhoBytes(f), |gs|, gs + WhoBytes(g));
    Peel(fs, WhoBytes(f), gs, WhoBytes(g));
  }

  lemma ListsCanonical(f: Filter, g: Filter)
    ensures Sort(ByteLe, f.producers) == Sort(ByteLe, g.producers) <==> multiset(f.producers) == multiset(g.producers)
    ensures Sort(TextLe, f.eventTypes) == Sort(TextLe, g.eventTypes) <==>
            multiset(f.eventTypes) == multiset(g.eventTypes)
    ensures Sort(ByteLe, f.severities) == Sort(ByteLe, g.severities) <==>
            multiset(f.severities) == multiset(g.severities)
  {
    ByteLeIsOrder();
    TextLeIsOrder();
    SortIsCanonical(ByteLe, f.producers, g.producers);
    SortIsCanonical(TextLe, f.eventTypes, g.eventTypes);
    SortIsCanonical(ByteLe, f.severities, g.severities);
  }

  lemma BoundsInjective(big: bool, f: Filter, g: Filter)
    requires ClockRange(f) && ClockRange(g) && FilterBytes(big, f) == FilterBytes(big, g)
    ensures MillisOrZero(f.startAt) == MillisOrZero(g.startAt) && MillisOrZero(f.endAt) == MillisOrZero(g.endAt)
    ensures ListBytes(big, f) == ListBytes(big, g)
  {
    PowerValues();
    var fs, gs := Unsigned(MillisOrZero(f.startAt)), Unsigned(MillisOrZero(g.startAt));
    var fe, ge := Unsigned(MillisOrZero(f.endAt)), Unsigned(MillisOrZero(g.endAt));
    PeelNumber(8, fs, BigEndian(8, fe) + ListBytes(big, f), gs, BigEndian(8, ge) + ListBytes(big, g));
    PeelNumber(8, fe, ListBytes(big, f), ge, ListBytes(big, g));
  }

  /** On validated filters equal streams are exactly the same query. */
  lemma FilterBytesIdentify(big: bool, f: Filter, g: Filter)
    requires Hashed(f) && Hashed(g)
    ensures FilterBytes(big, f) == FilterBytes(big, g) <==> SameQuery(f, g)
  {
    ListsCanonical(f, g);
    if FilterBytes(big, f) == FilterBytes(big, g) {
      BoundsInjective(big, f, g);
      ListsInjective(big, f, g);
      ValidatedShort(f);
      ValidatedShort(g);
      WhoInjective(f, g);
    }
  }

  lemma SameButBounds(f: Filter, g: Filter, h: Filter)
    requires ClockRange(g) && ClockRange(h)
    requires g == f.(startAt := g.startAt, endAt := g.endAt, pageSize := g.pageSize)
    requires h == f.(startAt := h.startAt, endAt := h.endAt, pageSize := h.pageSize)
    ensures SameQuery(g, h) <==>
            MillisOrZero(g.startAt) == MillisOrZero(h.startAt) && MillisOrZero(g.endAt) == MillisOrZero(h.endAt)
  {
    hide MillisOrZero;
  }

  /** A request with defaulted bounds, as it stands after validation at time `now`. */
  ghost predicate Defaulted(f: Filter, c: Config, now: int, g: Filter) {
    f.startAt.None? && Normalized(f, c, now) == Accepted(g) && Hashed(g)
  }

  lemma DefaultBounds(f: Filter, c: Config, now: int, g: Filter)
    requires LoadedConfig(c) && Defaulted(f, c, now, g)
    ensures g.startAt == Some(now - c.defaultWindowHours * TICKS_PER_HOUR)
    ensures g.endAt == Some(now + 5 * TICKS_PER_MINUTE)
    ensures g == f.(startAt := g.startAt, endAt := g.endAt, pageSize := g.pageSize)
  {
    NormalizedIsValidated(f, c, now, now);
  }

  /** With defaulted bounds the stream moves with the clock: the same request made later has the same
      stream exactly when both bounds, `now` less the window and `now` plus five minutes, fall in the
      same milliseconds again. */
  lemma DefaultBoundsMoveWithTheClock(big: bool, f: Filter, c: Config, now: int, g: Filter, later: int, h: Filter)
    requires LoadedConfig(c) && Defaulted(f, c, now, g) && Defaulted(f, c, later, h)
    ensures g.startAt == Some(now - c.defaultWindowHours * TICKS_PER_HOUR)
    ensures g.endAt == Some(now + 5 * TICKS_PER_MINUTE)
    ensures h.startAt == Some(later - c.defaultWindowHours * TICKS_PER_HOUR)
    ensures h.endAt == Some(later + 5 * TICKS_PER_MINUTE)
    ensures FilterBytes(big, g) == FilterBytes(big, h) <==>
            Millis(g.startAt.value) == Millis(h.startAt.value) && Millis(g.endAt.value) == Millis(h.endAt.value)
  {
    hide Normalized, FilterBytes, Millis, CheckFields, LoadedConfig, SameQuery, Validated;
    DefaultBounds(f, c, now, g);
    DefaultBounds(f, c, later, h);
    FilterBytesIdentify(big, g, h);
    SameButBounds(f, g, h);
  }

  // ---- Feeding the digest ----------------------------------------------------------------------

  method FeedTexts(stream: seq<byte>, ts: seq<text>) returns (r: seq<byte>)
    ensures r == stream + Texts(ts)
  {
    r := stream;
    ghost var goal := stream + Texts(ts);
    assert ts[0..] == ts;
    for i := 0 to |ts|
      invariant r + Texts(ts[i..]) == goal
    {
      assert ts[i..][0] == ts[i] && ts[i..][1..] == ts[i + 1..];
      r := Update(r, Counted(4, ts[i]), Texts(ts[i + 1..]), goal);
    }
  }

  method FeedWho(stream: seq<byte>, f: Filter) returns (r: seq<byte>)
    ensures r == stream + WhoBytes(f)
  {
    ghost var goal := stream + WhoBytes(f);
    var last := [OrderByte(f.order)];
    var correlation := Counted(4, TextOrEmpty(f.correlationId));
    ghost var afterActor := Party(f.targetType, f.targetId) + (correlation + last);
    r := Update(stream, Party(f.actorType, f.actorId), afterActor, goal);
    r := Update(r, Party(f.targetType, f.targetId), correlation + last, goal);
    r := Update(r, correlation, last, goal);
    r := Update(r, last, [], goal);
    assert r + [] == r;
  }

  method FeedTypes(stream: seq<byte>, ts: seq<text>, ghost rest: seq<byte>, ghost goal: seq<byte>)
    returns (r: seq<byte>)
    requires stream + (Texts(ts) + rest) == goal
    ensures r + rest == goal
  {
    r := FeedTexts(stream, ts);
    assert stream + Texts(ts) + rest == stream + (Texts(ts) + rest);
  }

  method FeedLists(stream: seq<byte>, big: bool, f: Filter) returns (r: seq<byte>)
    ensures r == stream + ListBytes(big, f)
  {
    hide Sort, WhoBytes, Texts, Native, BigEndian;
    var ps, ts, ss := Sort(ByteLe, f.producers), Sort(TextLe, f.eventTypes), Sort(ByteLe, f.severities);
    ghost var goal, who := stream + ListBytes(big, f), WhoBytes(f);
    ghost var afterTypes := Native(big, |ss|) + (ss + who);
    ghost var afterProducers := Native(big, |ts|) + (Texts(ts) + afterTypes);
    assert ListBytes(big, f) == Native(big, |ps|) + (ps + afterProducers);
    hide ListBytes;
    r := Update(stream, Native(big, |ps|), ps + afterProducers, goal);
    r := Update(r, ps, afterProducers, goal);
    r := Update(r, Native(big, |ts|), Texts(ts) + afterTypes, goal);
    r := FeedTypes(r, ts, afterTypes, goal);
    r := Update(r, Native(big, |ss|), ss + who, goal);
    r := Update(r, ss, who, goal);
    r := FeedWho(r, f);
  }

  /** The updates of compute_filter_hash, in order. */
  method FeedFilter(big: bool, f: Filter) returns (r: seq<byte>)
    requires ClockRange(f)
    ensures r == FilterBytes(big, f)
  {
    hide ListBytes, BigEndian;
    var start, end := BigEndian(8, Unsigned(MillisOrZero(f.startAt))), BigEndian(8, Unsigned(MillisOrZero(f.endAt)));
    ghost var goal := FilterBytes(big, f);
    assert [] + goal == goal;
    r := Update([], start, end + ListBytes(big, f), goal);
    r := Update(r, end, ListBytes(big, f), goal);
    r := FeedLists(r, big, f);
  }
}
