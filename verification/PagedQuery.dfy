/** Keyset pagination: the service's query and page
    (src/audit/query/audit_query_application_service.cpp, src/audit/query/audit_query_validator.cpp). */
module PagedQuery {
  import opened Types
  import opened Wire
  import opened Orders
  import opened AuditEvents
  import opened PageCursor
  import opened QueryFilter
  import opened SqlTemplate
  import opened SqlSyntax
  import opened SqlBuilder
  import opened SqlReading
  import opened SqlMeaning

  /** What the service is built over: the database, SHA-256, the byte order of the machine, and the
      configuration. */
  datatype Env = Env(db: Database, sha: seq<byte> -> seq<byte>, big: bool, config: Config)

  ghost predicate Sane(env: Env) {
    && TotalOrder(env.db.idLe) && LoadedConfig(env.config)
    && (forall x :: |env.sha(x)| == 32) && (forall b :: |env.db.names.producer(b)| < 0x1_0000)
  }

  // ---- Validation ------------------------------------------------------------------------------

  function FilterHash(env: Env, f: Filter): (h: seq<byte>)
    requires ClockRange(f) && |env.sha(FilterBytes(env.big, f))| == 32
    ensures |h| == 16 && h <= env.sha(FilterBytes(env.big, f))
  {
    env.sha(FilterBytes(env.big, f))[..16]
  }

  /** The decoded token, under the hash of the filter it came with. */
  ghost predicate CursorFor(env: Env, g: Filter, cursor: Option<Cursor>)
    requires Sane(env) && ClockRange(g)
  {
    if g.pageToken == "" then cursor.None? else cursor.Some? && Opens(g.pageToken, FilterHash(env, g), cursor.value)
  }

  ghost predicate TokenReads(env: Env, g: Filter)
    requires Sane(env) && ClockRange(g)
  {
    exists cursor :: CursorFor(env, g, cursor)
  }

  /** validate_and_normalize: the token is checked last, against the hash of the normalised filter. */
  ghost function Validation(env: Env, f: Filter, now: int): Verdict
    requires Sane(env)
  {
    var v := Normalized(f, env.config, now);
    if v.Accepted? && ClockRange(v.filter) && !TokenReads(env, v.filter) then InvalidPageToken else v
  }

  /** What passes is a validated filter that differs only in the defaults and whose token, if it has
      one, opens; it passes again, at any later time, unchanged. */
  lemma AcceptedStaysAccepted(env: Env, f: Filter, now: int, later: int)
    requires Sane(env) && Validation(env, f, now).Accepted? && ClockRange(Validation(env, f, now).filter)
    ensures var g := Validation(env, f, now).filter;
            && Validated(g) && g == f.(startAt := g.startAt, endAt := g.endAt, pageSize := g.pageSize)
            && (f.startAt.Some? ==> g.startAt == f.startAt && g.endAt == f.endAt)
            && (f.pageSize != 0 ==> g.pageSize == f.pageSize) && g.pageSize <= env.config.maxPageLimit
            && (g.pageToken != "" ==> exists c :: Opens(g.pageToken, FilterHash(env, g), c))
            && Validation(env, g, later) == Accepted(g)
  {
    hide Normalized, Validated, FilterHash, Opens;
    var g := Validation(env, f, now).filter;
    NormalizedIsValidated(f, env.config, now, later);
    var cursor :| CursorFor(env, g, cursor);
    assert g.pageToken != "" ==> Opens(g.pageToken, FilterHash(env, g), cursor.value);
  }

  // ---- The query -------------------------------------------------------------------------------

  /** The database answers the text of the builder, under the builder's parameters, with the rows
      `result`, columns as the row reader expects them. */
  ghost predicate Fetches(env: Env, g: Filter, cursor: Option<Cursor>, store: seq<Event>, ordered: seq<Event>,
                          result: seq<Event>)
    requires ClockRange(g) && WholeId(cursor)
  {
    && var query := Reading(SqlText(Template(ShapeOf(g, cursor))));
    && query.Some? && query.value.columns == Cols(IDENTITY + REST)
    && Returns(env.db, Bindings(env.db.names, g, cursor), query.value, store, ordered, result)
  }

  // ---- The page --------------------------------------------------------------------------------

  datatype Page = Page(events: seq<Event>, nextToken: string, hasMore: bool)

  /** The sort key: occurred_at to the millisecond, producer_service, event_type, event_id. */
  datatype Key = Key(at: int, producer: text, eventType: text, id: EventId)

  function KeyOf(env: Env, e: Event): Key {
    Key(Millis(e.occurredAt), env.db.names.producer(e.producer), e.eventType, e.id)
  }

  function CursorAt(f: Filter, k: Key, h: seq<byte>): Cursor {
    Cursor(k.at, k.producer, k.eventType, k.id, OrderByte(f.order), h)
  }

  /** The token opens under the hash as this cursor and as no other. */
  ghost predicate Marks(token: string, h: seq<byte>, c: Cursor) {
    token != "" && forall d :: Opens(token, h, d) <==> d == c
  }

  /** There is more exactly when the lookahead row came; it is not delivered; the token marks the last
      row that is, exactly when that row fits the cursor's layout. */
  ghost predicate PageFor(env: Env, f: Filter, hash: seq<byte>, raw: seq<Event>, page: Page)
    requires f.pageSize > 0
  {
    && (page.hasMore <==> |raw| == f.pageSize + 1)
    && page.events == (if page.hasMore then raw[..f.pageSize] else raw)
    && if page.hasMore then
         var last := raw[f.pageSize - 1];
         var c := Cursor(Millis(last.occurredAt), env.db.names.producer(last.producer), last.eventType, last.id,
                         if f.order.Descending? then 0 else 1, hash);
         Marks(page.nextToken, hash, c) <==> Representable(c)
       else page.nextToken == ""
  }

  lemma OwnTokenMarks(c: Cursor)
    requires Representable(c)
    ensures Marks(Token(c), c.filterHash, c)
  {
    forall d ensures Opens(Token(c), c.filterHash, d) <==> d == c {
      TokenRoundTrip(c, c.filterHash, d);
    }
    EmptyTokenOpensNothing(c.filterHash);
    assert Opens(Token(c), c.filterHash, c);
  }

  lemma EncodedMarks(c: Cursor, hash: seq<byte>)
    requires IsInt64(c.occurredAt) && c.filterHash == hash
    ensures Marks(Token(c), hash, c) <==> Representable(c)
  {
    if Representable(c) {
      OwnTokenMarks(c);
    }
    assert Opens(Token(c), hash, c) ==> Representable(c);
  }

  /** The result mapping of execute_query. */
  method MapPage(env: Env, f: Filter, hash: seq<byte>, raw: seq<Event>) returns (page: Page)
    requires f.pageSize > 0 && forall i :: 0 <= i < |raw| ==> IsInt64(raw[i].occurredAt)
    ensures PageFor(env, f, hash, raw, page)
  {
    hide Marks, Representable, Token;
    var rows := raw;
    var hasMore, nextToken := false, "";
    if |rows| == f.pageSize + 1 {
      hasMore := true;
      rows := rows[..|rows| - 1];
      var last := rows[|rows| - 1];
      var c := Cursor(Millis(last.occurredAt), env.db.names.producer(last.producer), last.eventType, last.id,
                      OrderByte(f.order), hash);
      nextToken := EncodeCursor(c);
      EncodedMarks(c, hash);
    }
    page := Page(rows, nextToken, hasMore);
  }

  // ---- A request -------------------------------------------------------------------------------

  /** execute_query on `f` returns `page`, the database having ordered the selected rows as `ordered`. */
  ghost predicate Executes(env: Env, store: seq<Event>, f: Filter, now: int, page: Page, cursor: Option<Cursor>,
                           ordered: seq<Event>, raw: seq<Event>)
    requires Sane(env)
  {
    && Validation(env, f, now).Accepted?
    && var g := Validation(env, f, now).filter;
    && ClockRange(g) && CursorFor(env, g, cursor) && WholeId(cursor) && g.pageSize > 0
    && Fetches(env, g, cursor, store, ordered, raw) && PageFor(env, g, FilterHash(env, g), raw, page)
  }

  ghost predicate Serves(env: Env, store: seq<Event>, f: Filter, now: int, page: Page)
    requires Sane(env)
  {
    exists cursor, ordered, raw :: Executes(env, store, f, now, page, cursor, ordered, raw)
  }

  /** Times and ids fit their types, and rows with one id agree in the sort key. */
  ghost predicate RowsOk(env: Env, store: seq<Event>) {
    && (forall i :: 0 <= i < |store| ==>
        IsInt64(store[i].occurredAt) && |store[i].eventType| < 0x1_0000 && KnownId(store[i].id))
    && (forall i, j :: 0 <= i < |store| && 0 <= j < |store| && store[i].id == store[j].id ==>
          KeyOf(env, store[i]) == KeyOf(env, store[j]))
  }

  /** The same query with explicit bounds; page size and token may differ. */
  ghost predicate SameRequest(f: Filter, f0: Filter) {
    f.startAt.Some? && f.endAt.Some? && f0 == f.(pageToken := f0.pageToken, pageSize := f0.pageSize)
  }

  /** One request of a client and the page it received. */
  datatype Exchange = Exchange(request: Filter, now: int, page: Page)

  /** A client follows the tokens from `token` on, with any page sizes. */
  ghost predicate Follows(env: Env, store: seq<Event>, f: Filter, token: string, xs: seq<Exchange>)
    requires Sane(env)
    decreases |xs|
  {
    xs == [] ||
    (Asked(env, store, f, token, xs[0]) &&
     (|xs| > 1 ==> xs[0].page.hasMore && Follows(env, store, f, xs[0].page.nextToken, xs[1..])))
  }

  ghost predicate Asked(env: Env, store: seq<Event>, f: Filter, token: string, x: Exchange)
    requires Sane(env)
  {
    SameRequest(f, x.request) && x.request.pageToken == token && Serves(env, store, x.request, x.now, x.page)
  }

  ghost function Delivered(xs: seq<Exchange>): seq<Event> {
    if xs == [] then [] else xs[0].page.events + Delivered(xs[1..])
  }
}
