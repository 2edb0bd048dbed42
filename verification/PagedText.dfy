/** The rows of a page arrive as TabSeparated text: the repository sends the built query and reads the
    answer (src/audit/repository/clickhouse_audit_event_repository.cpp). */
module PagedText {
  import opened Types
  import opened Wire
  import opened AuditEvents
  import opened PageCursor
  import opened QueryFilter
  import opened SqlBuilder
  import opened PagedQuery
  import opened QueryMeaning
  import opened PagedChain
  import Rows = EventRows

  /** `body` is the rows of `result` as lines of columns, their metadata maps in the order they were stored. */
  ghost predicate Spells(t: Rows.Tables, result: seq<Event>, rows: seq<Rows.Row>, body: text) {
    && Rows.AllSized(rows) && (forall i :: 0 <= i < |rows| ==> Rows.Ordered(rows[i]))
    && Rows.Events(rows) == result && body == Rows.Serialized(t, rows)
  }

  /** execute_query on `f` returns `page`, made of what is read from the text the database answers with. */
  ghost predicate ExecutesOnText(env: Env, t: Rows.Tables, store: seq<Event>, f: Filter, now: int, page: Page,
                                 cursor: Option<Cursor>, ordered: seq<Event>, result: seq<Event>,
                                 rows: seq<Rows.Row>, body: text)
    requires Sane(env)
  {
    && Validation(env, f, now).Accepted?
    && var g := Validation(env, f, now).filter;
    && ClockRange(g) && CursorFor(env, g, cursor) && WholeId(cursor) && g.pageSize > 0
    && Fetches(env, g, cursor, store, ordered, result) && Spells(t, result, rows, body)
    && PageFor(env, g, FilterHash(env, g), Rows.Deserialized(t, body), page)
  }

  ghost predicate ServesOnText(env: Env, t: Rows.Tables, store: seq<Event>, f: Filter, now: int, page: Page)
    requires Sane(env)
  {
    exists cursor, ordered, result, rows, body ::
      ExecutesOnText(env, t, store, f, now, page, cursor, ordered, result, rows, body)
  }

  /** Every stored row has times and values the tables cover and is one that survives the text. */
  ghost predicate Storable(t: Rows.Tables, store: seq<Event>) {
    forall e :: e in store ==> Rows.Covered(t, e) && Rows.Survives(e)
  }

  // ---- The answer is read back -----------------------------------------------------------------

  lemma FetchedIsStored(env: Env, g: Filter, cursor: Option<Cursor>, store: seq<Event>, ordered: seq<Event>,
                        result: seq<Event>, e: Event)
    requires Sane(env) && ClockRange(g) && WholeId(cursor) && g.pageSize < 0xFFFF_FFFF
    requires Fetches(env, g, cursor, store, ordered, result) && e in result
    ensures e in store
  {
    hide Fetches, Ordering, FirstById, Selected, CursorKey;
    FetchesMeans(env, g, cursor, store, ordered, result);
    assert e in FirstById(ordered, {});
    SelectedRow(env, g, CursorKey(cursor), store, ordered, e);
  }

  lemma {:induction false} EventAt(rows: seq<Rows.Row>, i: nat)
    requires i < |rows|
    ensures |Rows.Events(rows)| == |rows| && Rows.Events(rows)[i] == rows[i].event
  {
    if |rows| > 1 {
      EventAt(rows[1..], if i > 0 then i - 1 else 0);
    }
  }

  /** Stored rows come back from the text as they were. */
  lemma AnswerReadsBack(t: Rows.Tables, result: seq<Event>, rows: seq<Rows.Row>, body: text)
    requires Rows.Faithful(t) && Spells(t, result, rows, body) && Storable(t, result)
    ensures Rows.Deserialized(t, body) == result
  {
    hide Rows.Faithful, Rows.Covered, Rows.Survives, Rows.Ordered, Rows.Deserialized, Rows.Serialized, Rows.Events;
    forall i | 0 <= i < |rows|
      ensures Rows.Covered(t, rows[i].event) && Rows.Survives(rows[i].event)
    {
      EventAt(rows, i);
      assert rows[i].event in result;
    }
    Rows.BatchRoundTrip(t, rows);
  }

  /** Every sequence of storable rows has a text. */
  lemma {:induction false} AnswerExists(t: Rows.Tables, result: seq<Event>) returns (rows: seq<Rows.Row>)
    requires Storable(t, result)
    ensures Rows.AllSized(rows) && Spells(t, result, rows, Rows.Serialized(t, rows))
  {
    hide Rows.Covered, Rows.Columns;
    if result == [] {
      rows := [];
    } else {
      var row := RowOf(result[0]);
      var rest := AnswerExists(t, result[1..]);
      rows := [row] + rest;
      assert rows[1..] == rest && result == [result[0]] + result[1..];
    }
  }

  lemma {:induction false} KeyOrder(keys: set<text>) returns (order: seq<text>)
    ensures forall k :: k in order <==> k in keys
  {
    if keys == {} {
      order := [];
    } else {
      var k :| k in keys;
      var rest := KeyOrder(keys - {k});
      order := [k] + rest;
    }
  }

  lemma RowOf(e: Event) returns (row: Rows.Row)
    requires Rows.Survives(e)
    ensures row.event == e && Rows.Sized(row) && Rows.Ordered(row)
  {
    var order := KeyOrder(e.metadata.Keys);
    row := Rows.Row(e, order);
  }

  // ---- The same pages --------------------------------------------------------------------------

  lemma AcceptedFits(env: Env, f: Filter, now: int)
    requires Sane(env) && Validation(env, f, now).Accepted? && ClockRange(Validation(env, f, now).filter)
    ensures Validation(env, f, now).filter.pageSize < 0xFFFF_FFFF
  {
    hide Validation, Validated, FilterHash, Opens;
    AcceptedStaysAccepted(env, f, now, now);
  }

  lemma ResultIsStorable(env: Env, t: Rows.Tables, g: Filter, cursor: Option<Cursor>, store: seq<Event>,
                         ordered: seq<Event>, result: seq<Event>)
    requires Sane(env) && ClockRange(g) && WholeId(cursor) && g.pageSize < 0xFFFF_FFFF && Storable(t, store)
    requires Fetches(env, g, cursor, store, ordered, result)
    ensures Storable(t, result)
  {
    hide Sane, Fetches, Rows.Covered, Rows.Survives;
    forall e | e in result ensures Rows.Covered(t, e) && Rows.Survives(e) {
      FetchedIsStored(env, g, cursor, store, ordered, result, e);
    }
  }

  /** Over storable rows the page read from the text is the page of the rows themselves, for every request. */
  lemma TextServesTheSamePage(env: Env, t: Rows.Tables, store: seq<Event>, f: Filter, now: int, page: Page)
    requires Sane(env) && Rows.Faithful(t) && Storable(t, store)
    ensures ServesOnText(env, t, store, f, now, page) <==> Serves(env, store, f, now, page)
  {
    hide Sane, Rows.Faithful, Storable, Validation, CursorFor, WholeId, Fetches, Spells, PageFor, FilterHash,
         Rows.Deserialized, Rows.Serialized;
    if cursor, ordered, result, rows, body :|
      ExecutesOnText(env, t, store, f, now, page, cursor, ordered, result, rows, body) {
      AcceptedFits(env, f, now);
      ResultIsStorable(env, t, Validation(env, f, now).filter, cursor, store, ordered, result);
      AnswerReadsBack(t, result, rows, body);
      assert Executes(env, store, f, now, page, cursor, ordered, result);
    }
    if cursor, ordered, raw :| Executes(env, store, f, now, page, cursor, ordered, raw) {
      AcceptedFits(env, f, now);
      ResultIsStorable(env, t, Validation(env, f, now).filter, cursor, store, ordered, raw);
      var rows := AnswerExists(t, raw);
      var body := Rows.Serialized(t, rows);
      AnswerReadsBack(t, raw, rows, body);
      assert ExecutesOnText(env, t, store, f, now, page, cursor, ordered, raw, rows, body);
    }
  }

  // ---- The chain -------------------------------------------------------------------------------

  ghost predicate AskedOnText(env: Env, t: Rows.Tables, store: seq<Event>, f: Filter, token: string, x: Exchange)
    requires Sane(env)
  {
    SameRequest(f, x.request) && x.request.pageToken == token && ServesOnText(env, t, store, x.request, x.now, x.page)
  }

  /** A client follows the tokens, every page of it read from text. */
  ghost predicate FollowsOnText(env: Env, t: Rows.Tables, store: seq<Event>, f: Filter, token: string,
                                xs: seq<Exchange>)
    requires Sane(env)
    decreases |xs|
  {
    xs == [] ||
    (AskedOnText(env, t, store, f, token, xs[0]) &&
     (|xs| > 1 ==> xs[0].page.hasMore && FollowsOnText(env, t, store, f, xs[0].page.nextToken, xs[1..])))
  }

  lemma {:induction false} FollowsTheSame(env: Env, t: Rows.Tables, store: seq<Event>, f: Filter, token: string,
                                          xs: seq<Exchange>)
    requires Sane(env) && Rows.Faithful(t) && Storable(t, store)
    ensures FollowsOnText(env, t, store, f, token, xs) <==> Follows(env, store, f, token, xs)
    decreases |xs|
  {
    hide Sane, Rows.Faithful, Storable, ServesOnText, Serves, SameRequest;
    if xs != [] {
      TextServesTheSamePage(env, t, store, xs[0].request, xs[0].now, xs[0].page);
      if |xs| > 1 {
        FollowsTheSame(env, t, store, f, xs[0].page.nextToken, xs[1..]);
      }
    }
  }

  /** Following the tokens delivers every matching event once, in order, with every page read from text. */
  lemma FollowingTokensOnText(env: Env, t: Rows.Tables, f: Filter, store: seq<Event>, xs: seq<Exchange>)
    requires Sane(env) && Rows.Faithful(t) && Storable(t, store) && ClockRange(f) && RowsOk(env, store)
    requires xs != [] && FollowsOnText(env, t, store, f, "", xs)
    ensures DeliversOnce(env, f, store, xs)
  {
    hide Sane, Rows.Faithful, Storable, ClockRange, RowsOk, Follows, FollowsOnText, DeliversOnce;
    FollowsTheSame(env, t, store, f, "", xs);
    FollowingTokensDeliversEverythingOnce(env, f, store, xs);
  }
}
