/** Following the page tokens delivers every matching event once, in order. */
module PagedChain {
  import opened Types
  import opened Wire
  import opened Orders
  import opened AuditEvents
  import opened PageCursor
  import opened QueryFilter
  import opened SqlBuilder
  import opened SqlMeaning
  import opened PagedQuery
  import opened QueryMeaning

  // ---- One query -------------------------------------------------------------------------------

  ghost function KeySet(env: Env, es: seq<Event>): set<Key> {
    set e | e in es :: KeyOf(env, e)
  }

  lemma {:induction false} InKeys(env: Env, es: seq<Event>, k: Key)
    ensures k in Keys(env, es) <==> k in KeySet(env, es)
  {
    if es != [] {
      InKeys(env, es[1..], k);
      assert KeySet(env, es) == KeySet(env, es[1..]) + {KeyOf(env, es[0])};
    }
  }

  lemma {:induction false} SelectedExactly(env: Env, f: Filter, cursor: Option<Key>, store: seq<Event>, e: Event)
    requires ClockRange(f)
    ensures e in Selected(env, f, cursor, store) <==>
            e in store && Matches(env.db.names, f, e) && Behind(env, f.order, cursor, KeyOf(env, e))
  {
    if store != [] {
      SelectedExactly(env, f, cursor, store[1..], e);
      assert e in store <==> e == store[0] || e in store[1..];
    }
  }

  ghost predicate Consistent(env: Env, es: seq<Event>) {
    forall d, e :: d in es && e in es && d.id == e.id ==> KeyOf(env, d) == KeyOf(env, e)
  }

  ghost function UnseenKeys(env: Env, es: seq<Event>, seen: set<EventId>): set<Key> {
    set e | e in es && e.id !in seen :: KeyOf(env, e)
  }

  lemma UnseenStep(env: Env, es: seq<Event>, seen: set<EventId>)
    requires Consistent(env, es) && es != [] && es[0].id !in seen
    ensures UnseenKeys(env, es, seen) == {KeyOf(env, es[0])} + UnseenKeys(env, es[1..], seen + {es[0].id})
    ensures KeyOf(env, es[0]) !in UnseenKeys(env, es[1..], seen + {es[0].id})
  {
    var a, b := UnseenKeys(env, es, seen), {KeyOf(env, es[0])} + UnseenKeys(env, es[1..], seen + {es[0].id});
    forall k | k in a ensures k in b {
      var e :| e in es && e.id !in seen && KeyOf(env, e) == k;
      assert e == es[0] || e in es[1..];
    }
  }

  lemma NoKeys(env: Env, es: seq<Event>, seen: set<EventId>)
    requires es == []
    ensures UnseenKeys(env, es, seen) == {} && Keys(env, es) == []
  {
  }

  lemma UnseenSkip(env: Env, es: seq<Event>, seen: set<EventId>)
    requires es != [] && es[0].id in seen
    ensures UnseenKeys(env, es, seen) == UnseenKeys(env, es[1..], seen)
  {
    assert forall e :: e in es <==> e == es[0] || e in es[1..];
  }

  lemma KeysCons(env: Env, e: Event, es: seq<Event>)
    ensures Keys(env, [e] + es) == [KeyOf(env, e)] + Keys(env, es)
  {
    assert ([e] + es)[1..] == es;
  }

  lemma AddNew<T>(x: T, s: set<T>)
    requires x !in s
    ensures multiset({x} + s) == multiset{x} + multiset(s)
  {
  }

  lemma {:induction false} FirstByIdKeys(env: Env, es: seq<Event>, seen: set<EventId>)
    requires Consistent(env, es)
    ensures multiset(Keys(env, FirstById(es, seen))) == multiset(UnseenKeys(env, es, seen))
  {
    hide UnseenKeys, KeyOf, Keys;
    if es == [] {
      NoKeys(env, es, seen);
    } else if es[0].id in seen {
      FirstByIdKeys(env, es[1..], seen);
      UnseenSkip(env, es, seen);
    } else {
      var rest, more := FirstById(es[1..], seen + {es[0].id}), UnseenKeys(env, es[1..], seen + {es[0].id});
      FirstByIdKeys(env, es[1..], seen + {es[0].id});
      UnseenStep(env, es, seen);
      KeysCons(env, es[0], rest);
      AddNew(KeyOf(env, es[0]), more);
    }
  }

  lemma {:induction false} FirstByIdSubset(es: seq<Event>, seen: set<EventId>, e: Event)
    requires e in FirstById(es, seen)
    ensures e in es
  {
    if es[0].id in seen {
      FirstByIdSubset(es[1..], seen, e);
    } else if e != es[0] {
      FirstByIdSubset(es[1..], seen + {es[0].id}, e);
    }
  }

  lemma {:induction false} FirstByIdSorted(env: Env, le: (Key, Key) -> bool, es: seq<Event>, seen: set<EventId>)
    requires Sorted(le, Keys(env, es))
    ensures Sorted(le, Keys(env, FirstById(es, seen)))
  {
    if es != [] {
      assert Keys(env, es)[1..] == Keys(env, es[1..]);
      if es[0].id in seen {
        FirstByIdSorted(env, le, es[1..], seen);
      } else {
        var rest := FirstById(es[1..], seen + {es[0].id});
        FirstByIdSorted(env, le, es[1..], seen + {es[0].id});
        assert Keys(env, [es[0]] + rest) == [KeyOf(env, es[0])] + Keys(env, rest) by {
          assert ([es[0]] + rest)[1..] == rest;
        }
        forall k | k in Keys(env, rest) ensures le(KeyOf(env, es[0]), k) {
          InKeys(env, rest, k);
          var e :| e in rest && KeyOf(env, e) == k;
          FirstByIdSubset(es[1..], seen + {es[0].id}, e);
          InKeys(env, es[1..], k);
        }
      }
    }
  }

  /** The keys of the rows a query selects, in the sort order. */
  ghost function Listing(env: Env, f: Filter, cursor: Option<Key>, store: seq<Event>): seq<Key>
    requires ClockRange(f)
  {
    Arranged(OrderBy(env, f.order), KeySet(env, Selected(env, f, cursor, store)))
  }

  lemma SameRows(env: Env, es: seq<Event>, fs: seq<Event>)
    requires multiset(es) == multiset(fs)
    ensures KeySet(env, es) == KeySet(env, fs) && forall e :: e in es <==> e in fs
  {
    forall e ensures e in es <==> e in fs {
      InMultiset(e, es);
      InMultiset(e, fs);
    }
  }

  /** Whatever order ties come in, the deduplicated rows carry exactly the listed keys. */
  lemma AnswerListing(env: Env, f: Filter, cursor: Option<Key>, store: seq<Event>, ordered: seq<Event>)
    requires TotalOrder(env.db.idLe) && ClockRange(f) && RowsOk(env, store) && Ordering(env, f, cursor, store, ordered)
    ensures Keys(env, FirstById(ordered, {})) == Listing(env, f, cursor, store)
  {
    var sel, o := Selected(env, f, cursor, store), OrderBy(env, f.order);
    OrderByIsOrder(env, f.order);
    SameRows(env, ordered, sel);
    forall d, e | d in ordered && e in ordered && d.id == e.id ensures KeyOf(env, d) == KeyOf(env, e) {
      SelectedExactly(env, f, cursor, store, d);
      SelectedExactly(env, f, cursor, store, e);
      var i :| 0 <= i < |store| && store[i] == d;
      var j :| 0 <= j < |store| && store[j] == e;
      assert store[i].id == store[j].id;
    }
    FirstByIdKeys(env, ordered, {});
    assert UnseenKeys(env, ordered, {}) == KeySet(env, ordered);
    FirstByIdSorted(env, o, ordered, {});
    ArrangedUnique(o, KeySet(env, sel), Keys(env, FirstById(ordered, {})));
  }

  lemma BehindSelects(env: Env, f: Filter, c: Key, store: seq<Event>, k: Key)
    requires ClockRange(f)
    ensures k in KeySet(env, Selected(env, f, Some(c), store)) <==>
            k in KeySet(env, Selected(env, f, None, store)) && OrderBy(env, f.order)(c, k) && c != k
  {
    var all, some := Selected(env, f, None, store), Selected(env, f, Some(c), store);
    if k in KeySet(env, some) {
      var e :| e in some && KeyOf(env, e) == k;
      SelectedExactly(env, f, Some(c), store, e);
      SelectedExactly(env, f, None, store, e);
    }
    if k in KeySet(env, all) && OrderBy(env, f.order)(c, k) && c != k {
      var e :| e in all && KeyOf(env, e) == k;
      SelectedExactly(env, f, None, store, e);
      SelectedExactly(env, f, Some(c), store, e);
    }
  }

  /** The cursor at the i-th key resumes the listing right behind it. */
  lemma ListingResumes(env: Env, f: Filter, store: seq<Event>, i: nat)
    requires TotalOrder(env.db.idLe) && ClockRange(f) && 0 < i <= |Listing(env, f, None, store)|
    ensures var l := Listing(env, f, None, store);
            Listing(env, f, Some(l[i - 1]), store) == l[i..]
  {
    var o, c := OrderBy(env, f.order), Listing(env, f, None, store)[i - 1];
    OrderByIsOrder(env, f.order);
    var s, above := KeySet(env, Selected(env, f, None, store)), KeySet(env, Selected(env, f, Some(c), store));
    forall k ensures k in above <==> k in s && o(c, k) && k != c {
      BehindSelects(env, f, c, store, k);
    }
    ArrangedTail(o, s, i, above);
  }

  // ---- One page --------------------------------------------------------------------------------

  lemma SameBytes(env: Env, f: Filter, g: Filter)
    requires Sane(env) && ClockRange(f) && SameRequest(f, g)
    ensures ClockRange(g) && FilterHash(env, g) == FilterHash(env, f)
  {
    assert WhoBytes(g) == WhoBytes(f);
    assert ListBytes(env.big, g) == ListBytes(env.big, f);
  }

  lemma {:induction false} SameSelected(env: Env, f: Filter, g: Filter, cursor: Option<Key>, store: seq<Event>)
    requires ClockRange(f) && ClockRange(g) && SameRequest(f, g)
    ensures Selected(env, g, cursor, store) == Selected(env, f, cursor, store)
  {
    if store != [] {
      SameSelected(env, f, g, cursor, store[1..]);
      assert Matches(env.db.names, g, store[0]) <==> Matches(env.db.names, f, store[0]);
    }
  }

  lemma {:induction false} KeysPrefix(env: Env, es: seq<Event>, n: nat)
    requires n <= |es|
    ensures Keys(env, es[..n]) == Keys(env, es)[..n]
  {
    hide KeyOf;
    if n > 0 {
      KeysPrefix(env, es[1..], n - 1);
      assert es[..n][1..] == es[1..][..n - 1];
    }
  }

  lemma ListedRow(env: Env, f: Filter, store: seq<Event>, i: nat)
    requires Sane(env) && ClockRange(f) && RowsOk(env, store) && i < |Listing(env, f, None, store)|
    ensures var k := Listing(env, f, None, store)[i];
            (exists e :: e in store && Matches(env.db.names, f, e) && KeyOf(env, e) == k) && IsInt64(k.at) &&
              |k.eventType| < 0x1_0000 && KnownId(k.id)
  {
    var s, k := Selected(env, f, None, store), Listing(env, f, None, store)[i];
    InArranged(OrderBy(env, f.order), KeySet(env, s), k);
    var e :| e in s && KeyOf(env, e) == k;
    SelectedExactly(env, f, None, store, e);
    var j :| 0 <= j < |store| && store[j] == e;
  }

  lemma ListedRepresentable(env: Env, f: Filter, store: seq<Event>, i: nat)
    requires Sane(env) && ClockRange(f) && RowsOk(env, store) && i < |Listing(env, f, None, store)|
    ensures Representable(CursorAt(f, Listing(env, f, None, store)[i], FilterHash(env, f)))
  {
    ListedRow(env, f, store, i);
    var k := Listing(env, f, None, store)[i];
    var e :| e in store && Matches(env.db.names, f, e) && KeyOf(env, e) == k;
    assert |env.db.names.producer(e.producer)| < 0x1_0000;
  }

  /** `token` is where the listing stands after `i` keys: it opens as the cursor of the i-th key, and
      as nothing else. */
  ghost predicate Reached(env: Env, f: Filter, store: seq<Event>, i: nat, token: string)
    requires Sane(env) && ClockRange(f)
  {
    var l := Listing(env, f, None, store);
    i <= |l| &&
    if i == 0 then token == ""
    else Marks(token, FilterHash(env, f), CursorAt(f, l[i - 1], FilterHash(env, f)))
  }

  /** A token handed out for a query is never refused by that query, whatever page size it asks for. */
  lemma HandedOutTokenOpens(env: Env, f: Filter, g: Filter, store: seq<Event>, i: nat)
    requires Sane(env) && ClockRange(f) && SameRequest(f, g) && ClockRange(g)
    requires Reached(env, f, store, i, g.pageToken)
    ensures TokenReads(env, g)
  {
    SameBytes(env, f, g);
    if i == 0 {
      assert CursorFor(env, g, None);
    } else {
      var own := CursorAt(f, Listing(env, f, None, store)[i - 1], FilterHash(env, f));
      assert Opens(g.pageToken, FilterHash(env, g), own);
      assert CursorFor(env, g, Some(own));
    }
  }

  /** The rows a request selects are the listing from where its token stands. */
  lemma RequestListing(env: Env, f: Filter, g: Filter, store: seq<Event>, i: nat, cursor: Option<Cursor>)
    requires Sane(env) && ClockRange(f) && RowsOk(env, store) && SameRequest(f, g) && ClockRange(g)
    requires Reached(env, f, store, i, g.pageToken) && CursorFor(env, g, cursor)
    ensures Listing(env, g, CursorKey(cursor), store) == Listing(env, f, None, store)[i..]
  {
    SameBytes(env, f, g);
    SameSelected(env, f, g, CursorKey(cursor), store);
    if i == 0 {
      assert Listing(env, f, None, store)[0..] == Listing(env, f, None, store);
    } else {
      assert cursor == Some(CursorAt(f, Listing(env, f, None, store)[i - 1], FilterHash(env, f)));
      ListingResumes(env, f, store, i);
    }
  }

  /** The page holds the next keys of the listing, and says truly whether there are more. */
  ghost predicate Advances(env: Env, f: Filter, store: seq<Event>, i: nat, size: nat, page: Page)
    requires Sane(env) && ClockRange(f)
  {
    var l, n := Listing(env, f, None, store), |page.events|;
    && i + n <= |l| && Keys(env, page.events) == l[i..i + n] && n <= size
    && (page.hasMore <==> i + n < |l|)
    && (page.hasMore ==> n == size && Reached(env, f, store, i + n, page.nextToken))
    && (forall e :: e in page.events ==> e in store && Matches(env.db.names, f, e))
  }

  lemma SelectedRow(env: Env, g: Filter, cursor: Option<Key>, store: seq<Event>, ordered: seq<Event>, e: Event)
    requires ClockRange(g) && Ordering(env, g, cursor, store, ordered) && e in FirstById(ordered, {})
    ensures e in store && Matches(env.db.names, g, e)
  {
    FirstByIdSubset(ordered, {}, e);
    InMultiset(e, ordered);
    InMultiset(e, Selected(env, g, cursor, store));
    SelectedExactly(env, g, cursor, store, e);
  }

  lemma DeliveredRows(env: Env, f: Filter, g: Filter, cursor: Option<Key>, store: seq<Event>, ordered: seq<Event>,
                      e: Event)
    requires ClockRange(f) && SameRequest(f, g) && ClockRange(g) && Ordering(env, g, cursor, store, ordered)
    requires e in FirstById(ordered, {})
    ensures e in store && Matches(env.db.names, f, e)
  {
    SelectedRow(env, g, cursor, store, ordered, e);
  }

  /** The rows still to come: the listing from the i-th key on, all of them matching. */
  ghost predicate Remaining(env: Env, f: Filter, store: seq<Event>, i: nat, all: seq<Event>)
    requires ClockRange(f)
  {
    && i <= |Listing(env, f, None, store)| && Keys(env, all) == Listing(env, f, None, store)[i..]
    && (forall e :: e in all ==> e in store && Matches(env.db.names, f, e))
  }

  lemma FullPageKeys(env: Env, l: seq<Key>, i: nat, all: seq<Event>, n: nat)
    requires i <= |l| && Keys(env, all) == l[i..] && 0 < n < |all|
    ensures i + n < |l| && Keys(env, all[..n]) == l[i..i + n] && KeyOf(env, all[n - 1]) == l[i + n - 1]
  {
    KeysPrefix(env, all, n);
    KeyAt(env, all, n - 1);
  }

  lemma FullPageRows(env: Env, f: Filter, store: seq<Event>, i: nat, all: seq<Event>, n: nat)
    requires ClockRange(f) && Remaining(env, f, store, i, all) && 0 < n < |all|
    ensures var l := Listing(env, f, None, store);
            i + n < |l| && Keys(env, all[..n]) == l[i..i + n] && KeyOf(env, all[n - 1]) == l[i + n - 1]
    ensures forall e :: e in all[..n] ==> e in store && Matches(env.db.names, f, e)
  {
    hide Listing, Matches, Keys, KeyOf;
    FullPageKeys(env, Listing(env, f, None, store), i, all, n);
  }

  lemma TokenReaches(env: Env, f: Filter, g: Filter, store: seq<Event>, i: nat, token: string)
    requires Sane(env) && ClockRange(f) && RowsOk(env, store) && SameRequest(f, g) && ClockRange(g)
    requires 0 < i <= |Listing(env, f, None, store)|
    requires var c := CursorAt(g, Listing(env, f, None, store)[i - 1], FilterHash(env, g));
             Representable(c) ==> Marks(token, FilterHash(env, g), c)
    ensures Reached(env, f, store, i, token)
  {
    hide Listing, FilterHash, RowsOk, Sane, Marks, Representable;
    SameBytes(env, f, g);
    ListedRepresentable(env, f, store, i - 1);
  }

  lemma MorePages(env: Env, f: Filter, store: seq<Event>, i: nat, page: Page)
    requires Sane(env) && ClockRange(f) && page.hasMore
    requires var l, n := Listing(env, f, None, store), |page.events|;
             i + n < |l| && Keys(env, page.events) == l[i..i + n]
    requires Reached(env, f, store, i + |page.events|, page.nextToken)
    requires forall e :: e in page.events ==> e in store && Matches(env.db.names, f, e)
    ensures Advances(env, f, store, i, |page.events|, page)
  {
    hide Listing, Keys, Reached, Matches, Sane, ClockRange;
  }

  lemma FullPageAdvances(env: Env, f: Filter, g: Filter, store: seq<Event>, i: nat, all: seq<Event>, page: Page)
    requires Sane(env) && ClockRange(f) && RowsOk(env, store) && SameRequest(f, g) && ClockRange(g)
    requires Remaining(env, f, store, i, all) && 0 < g.pageSize < |all|
    requires page.events == all[..g.pageSize] && page.hasMore
    requires var c := CursorAt(g, KeyOf(env, all[g.pageSize - 1]), FilterHash(env, g));
             Representable(c) ==> Marks(page.nextToken, FilterHash(env, g), c)
    ensures Advances(env, f, store, i, g.pageSize, page)
  {
    hide *;
    FullPageRows(env, f, store, i, all, g.pageSize);
    TokenReaches(env, f, g, store, i + g.pageSize, page.nextToken);
    MorePages(env, f, store, i, page);
  }

  lemma LastPageAdvances(env: Env, f: Filter, store: seq<Event>, i: nat, all: seq<Event>, n: nat, page: Page)
    requires Sane(env) && ClockRange(f) && Remaining(env, f, store, i, all) && |all| <= n
    requires page.events == all && !page.hasMore
    ensures Advances(env, f, store, i, n, page)
  {
    hide Listing, Matches, Sane;
    var l := Listing(env, f, None, store);
    assert l[i..] == l[i..i + |all|];
  }

  lemma PageAdvances(env: Env, f: Filter, g: Filter, store: seq<Event>, i: nat, all: seq<Event>, page: Page)
    requires Sane(env) && ClockRange(f) && RowsOk(env, store) && SameRequest(f, g) && ClockRange(g) && g.pageSize > 0
    requires Remaining(env, f, store, i, all) && PageFor(env, g, FilterHash(env, g), Limited(all, g.pageSize + 1), page)
    ensures Advances(env, f, store, i, g.pageSize, page)
  {
    hide Sane, RowsOk, Remaining, FilterHash, Marks, Representable, Advances;
    var n := g.pageSize;
    if |all| > n {
      assert Limited(all, n + 1)[..n] == all[..n] && Limited(all, n + 1)[n - 1] == all[n - 1];
      FullPageAdvances(env, f, g, store, i, all, page);
    } else {
      LastPageAdvances(env, f, store, i, all, n, page);
    }
  }

  lemma RequestRemaining(env: Env, f: Filter, g: Filter, store: seq<Event>, i: nat, cursor: Option<Cursor>,
                         ordered: seq<Event>)
    requires Sane(env) && ClockRange(f) && RowsOk(env, store) && SameRequest(f, g) && ClockRange(g)
    requires Reached(env, f, store, i, g.pageToken) && CursorFor(env, g, cursor)
    requires Ordering(env, g, CursorKey(cursor), store, ordered)
    ensures Remaining(env, f, store, i, FirstById(ordered, {}))
  {
    var all := FirstById(ordered, {});
    RequestListing(env, f, g, store, i, cursor);
    AnswerListing(env, g, CursorKey(cursor), store, ordered);
    forall e | e in all ensures e in store && Matches(env.db.names, f, e) {
      DeliveredRows(env, f, g, CursorKey(cursor), store, ordered, e);
    }
  }

  /** A served page continues the listing from where the request's token stands. */
  lemma ServedPageAdvances(env: Env, f: Filter, token: string, store: seq<Event>, i: nat, x: Exchange)
    requires Sane(env) && ClockRange(f) && RowsOk(env, store)
    requires Reached(env, f, store, i, token) && Asked(env, store, f, token, x)
    ensures Validation(env, x.request, x.now).Accepted?
    ensures var n := Validation(env, x.request, x.now).filter.pageSize;
            n > 0 && (x.request.pageSize > 0 ==> n == x.request.pageSize) && Advances(env, f, store, i, n, x.page)
  {
    hide Fetches, Ordering, FirstById, Limited, PageFor, Reached, Advances, RowsOk, FilterHash, CursorKey, Validated;
    var cursor, ordered, raw :| Executes(env, store, x.request, x.now, x.page, cursor, ordered, raw);
    var g := Validation(env, x.request, x.now).filter;
    AcceptedStaysAccepted(env, x.request, x.now, x.now);
    FetchesMeans(env, g, cursor, store, ordered, raw);
    RequestRemaining(env, f, g, store, i, cursor, ordered);
    PageAdvances(env, f, g, store, i, FirstById(ordered, {}), x.page);
  }

  // ---- Every request is served -----------------------------------------------------------------

  ghost function RowOrder(env: Env, o: SortOrder): (Event, Event) -> bool {
    var le := OrderBy(env, o);
    (d, e) => le(KeyOf(env, d), KeyOf(env, e))
  }

  lemma {:induction false} RowsSorted(env: Env, o: SortOrder, es: seq<Event>)
    requires Sorted(RowOrder(env, o), es)
    ensures Sorted(OrderBy(env, o), Keys(env, es))
  {
    hide OrderBy, KeyOf;
    if es != [] {
      var keys, le := Keys(env, es), OrderBy(env, o);
      RowsSorted(env, o, es[1..]);
      assert keys[1..] == Keys(env, es[1..]) && keys[0] == KeyOf(env, es[0]);
      forall k | k in Keys(env, es[1..]) ensures le(keys[0], k) {
        InKeys(env, es[1..], k);
        var e :| e in es[1..] && KeyOf(env, e) == k;
        assert RowOrder(env, o)(es[0], e);
      }
    }
  }

  lemma RowOrderIsPreorder(env: Env, o: SortOrder)
    requires TotalOrder(env.db.idLe)
    ensures TotalPreorder(RowOrder(env, o))
  {
    hide OrderBy, KeyOf;
    var le, keys := RowOrder(env, o), OrderBy(env, o);
    OrderByIsOrder(env, o);
    forall d, e ensures le(d, e) || le(e, d) {
      assert keys(KeyOf(env, d), KeyOf(env, e)) || keys(KeyOf(env, e), KeyOf(env, d));
    }
    forall c, d, e | le(c, d) && le(d, e) ensures le(c, e) {
      assert keys(KeyOf(env, c), KeyOf(env, d)) && keys(KeyOf(env, d), KeyOf(env, e));
    }
  }

  lemma OrderingExists(env: Env, f: Filter, cursor: Option<Key>, store: seq<Event>) returns (ordered: seq<Event>)
    requires TotalOrder(env.db.idLe) && ClockRange(f)
    ensures Ordering(env, f, cursor, store, ordered)
  {
    hide RowOrder, Selected;
    var le := RowOrder(env, f.order);
    RowOrderIsPreorder(env, f.order);
    ordered := Sort(le, Selected(env, f, cursor, store));
    SortSorts(le, Selected(env, f, cursor, store));
    RowsSorted(env, f.order, ordered);
  }

  lemma PageExists(env: Env, f: Filter, hash: seq<byte>, raw: seq<Event>) returns (page: Page)
    requires f.pageSize > 0
    ensures PageFor(env, f, hash, raw, page)
  {
    if |raw| == f.pageSize + 1 {
      var c := CursorAt(f, KeyOf(env, raw[f.pageSize - 1]), hash);
      page := Page(raw[..f.pageSize], "", true);
      if Representable(c) {
        OwnTokenMarks(c);
        page := page.(nextToken := Token(c));
      }
    } else {
      page := Page(raw, "", false);
    }
  }

  lemma CursorIsWhole(env: Env, g: Filter, cursor: Option<Cursor>)
    requires Sane(env) && ClockRange(g) && CursorFor(env, g, cursor)
    ensures WholeId(cursor)
  {
  }

  lemma RequestAccepted(env: Env, f: Filter, request: Filter, now: int, store: seq<Event>, i: nat)
    requires Sane(env) && ClockRange(f) && SameRequest(f, request) && Reached(env, f, store, i, request.pageToken)
    requires Normalized(request, env.config, now).Accepted?
    ensures var g := Normalized(request, env.config, now).filter;
            && Validation(env, request, now) == Accepted(g) && ClockRange(g) && 0 < g.pageSize < 0xFFFF_FFFF
            && exists cursor :: CursorFor(env, g, cursor)
  {
    hide Normalized, Listing, Reached;
    var g := Normalized(request, env.config, now).filter;
    NormalizedIsValidated(request, env.config, now, now);
    assert SameRequest(f, g) && ClockRange(g) && 0 < g.pageSize < 0xFFFF_FFFF;
    HandedOutTokenOpens(env, f, g, store, i);
  }

  lemma FilterIsServed(env: Env, g: Filter, store: seq<Event>, cursor: Option<Cursor>)
    returns (ordered: seq<Event>, raw: seq<Event>, page: Page)
    requires Sane(env) && ClockRange(g) && 0 < g.pageSize < 0xFFFF_FFFF && WholeId(cursor)
    ensures Fetches(env, g, cursor, store, ordered, raw) && PageFor(env, g, FilterHash(env, g), raw, page)
  {
    hide Ordering, FirstById, Limited, CursorKey, Fetches, PageFor, WholeId, FilterHash;
    ordered := OrderingExists(env, g, CursorKey(cursor), store);
    raw := Limited(FirstById(ordered, {}), g.pageSize + 1);
    FetchesMeans(env, g, cursor, store, ordered, raw);
    page := PageExists(env, g, FilterHash(env, g), raw);
  }

  /** A request that asks for the same listing with a token it handed out, and is otherwise valid, is
      accepted and served. */
  lemma ReachedRequestIsServed(env: Env, f: Filter, request: Filter, now: int, store: seq<Event>, i: nat)
    returns (page: Page)
    requires Sane(env) && ClockRange(f) && SameRequest(f, request) && Reached(env, f, store, i, request.pageToken)
    requires Normalized(request, env.config, now).Accepted?
    ensures Serves(env, store, request, now, page)
  {
    hide Normalized, Validation, Reached, FilterHash, Fetches, PageFor, CursorFor, WholeId, Sane;
    RequestAccepted(env, f, request, now, store, i);
    var g := Normalized(request, env.config, now).filter;
    var cursor :| CursorFor(env, g, cursor);
    CursorIsWhole(env, g, cursor);
    var ordered, raw;
    ordered, raw, page := FilterIsServed(env, g, store, cursor);
    assert Executes(env, store, request, now, page, cursor, ordered, raw);
  }

  // ---- The chain -------------------------------------------------------------------------------

  lemma {:induction false} KeysAppend(env: Env, a: seq<Event>, b: seq<Event>)
    ensures Keys(env, a + b) == Keys(env, a) + Keys(env, b)
  {
    hide KeyOf;
    if a == [] {
      assert a + b == b;
    } else {
      KeysAppend(env, a[1..], b);
      assert (a + b)[1..] == a[1..] + b;
    }
  }

  /** The events delivered are the list from the i-th key on, and the last page knows whether it ends. */
  ghost predicate Covers(env: Env, l: seq<Key>, i: nat, all: seq<Event>, hasMore: bool) {
    i + |all| <= |l| && Keys(env, all) == l[i..i + |all|] && (hasMore <==> i + |all| < |l|)
  }

  ghost predicate AllMatch(env: Env, f: Filter, store: seq<Event>, all: seq<Event>)
    requires ClockRange(f)
  {
    forall e :: e in all ==> e in store && Matches(env.db.names, f, e)
  }

  lemma CoversAppend(env: Env, l: seq<Key>, i: nat, a: seq<Event>, b: seq<Event>, hasMore: bool)
    requires Covers(env, l, i, a, true) && Covers(env, l, i + |a|, b, hasMore)
    ensures Covers(env, l, i, a + b, hasMore)
  {
    KeysAppend(env, a, b);
    assert l[i..i + |a|] + l[i + |a|..i + |a| + |b|] == l[i..i + |a| + |b|];
  }

  lemma FirstExchange(env: Env, f: Filter, store: seq<Event>, l: seq<Key>, i: nat, token: string, x: Exchange)
    requires Sane(env) && ClockRange(f) && RowsOk(env, store) && l == Listing(env, f, None, store)
    requires Reached(env, f, store, i, token) && Asked(env, store, f, token, x)
    ensures Covers(env, l, i, x.page.events, x.page.hasMore) && AllMatch(env, f, store, x.page.events)
    ensures x.page.hasMore ==> x.page.events != [] && Reached(env, f, store, i + |x.page.events|, x.page.nextToken)
  {
    hide Sane, RowsOk, Reached, Asked, Validation, Listing, Matches;
    ServedPageAdvances(env, f, token, store, i, x);
  }

  /** What a chain of exchanges from the i-th key on has achieved. */
  ghost predicate Progress(env: Env, f: Filter, store: seq<Event>, l: seq<Key>, i: nat, xs: seq<Exchange>)
    requires ClockRange(f) && xs != []
  {
    && Covers(env, l, i, Delivered(xs), xs[|xs| - 1].page.hasMore) && AllMatch(env, f, store, Delivered(xs))
    && |xs| <= |Delivered(xs)| + 1
    && (forall p :: 0 <= p < |xs| && xs[p].page.hasMore ==> xs[p].page.events != [])
  }

  lemma ProgressOne(env: Env, f: Filter, store: seq<Event>, l: seq<Key>, i: nat, x: Exchange)
    requires ClockRange(f) && Covers(env, l, i, x.page.events, x.page.hasMore) && AllMatch(env, f, store, x.page.events)
    requires x.page.hasMore ==> x.page.events != []
    ensures Progress(env, f, store, l, i, [x])
  {
    assert [x][1..] == [] && x.page.events + [] == x.page.events;
  }

  lemma ProgressMore(env: Env, f: Filter, store: seq<Event>, l: seq<Key>, i: nat, x: Exchange, xs: seq<Exchange>)
    requires ClockRange(f) && Covers(env, l, i, x.page.events, true) && AllMatch(env, f, store, x.page.events)
    requires xs != [] && x.page.events != [] && Progress(env, f, store, l, i + |x.page.events|, xs)
    ensures Progress(env, f, store, l, i, [x] + xs)
  {
    var ys := [x] + xs;
    assert ys[1..] == xs;
    assert Delivered(ys) == x.page.events + Delivered(xs);
    CoversAppend(env, l, i, x.page.events, Delivered(xs), xs[|xs| - 1].page.hasMore);
    forall p | 0 <= p < |ys| && ys[p].page.hasMore ensures ys[p].page.events != [] {
      assert p > 0 ==> ys[p] == xs[p - 1];
    }
  }

  lemma FollowsStep(env: Env, f: Filter, store: seq<Event>, token: string, xs: seq<Exchange>)
    requires Sane(env) && RowsOk(env, store) && xs != [] && Follows(env, store, f, token, xs)
    ensures Asked(env, store, f, token, xs[0])
    ensures |xs| > 1 ==> xs[0].page.hasMore && Follows(env, store, f, xs[0].page.nextToken, xs[1..])
  {
  }

  lemma {:induction false} ChainAdvances(env: Env, f: Filter, store: seq<Event>, l: seq<Key>, i: nat, token: string,
                                         xs: seq<Exchange>)
    requires Sane(env) && ClockRange(f) && RowsOk(env, store) && xs != [] && l == Listing(env, f, None, store)
    requires Reached(env, f, store, i, token) && Follows(env, store, f, token, xs)
    ensures Progress(env, f, store, l, i, xs)
    decreases |xs|
  {
    hide *;
    var x := xs[0];
    FollowsStep(env, f, store, token, xs);
    FirstExchange(env, f, store, l, i, token, x);
    if |xs| == 1 {
      ProgressOne(env, f, store, l, i, x);
      assert xs == [x];
    } else {
      ChainAdvances(env, f, store, l, i + |x.page.events|, x.page.nextToken, xs[1..]);
      ProgressMore(env, f, store, l, i, x, xs[1..]);
      assert xs == [x] + xs[1..];
    }
  }

  lemma SameButToken(env: Env, f: Filter, token: string, now: int)
    requires f.startAt.Some? && f.endAt.Some? && Normalized(f, env.config, now).Accepted?
    ensures var request := f.(pageToken := token);
            SameRequest(f, request) && Normalized(request, env.config, now).Accepted?
  {
  }

  lemma NextExchange(env: Env, f: Filter, store: seq<Event>, now: int, i: nat, token: string) returns (x: Exchange)
    requires Sane(env) && ClockRange(f) && f.startAt.Some? && f.endAt.Some?
    requires Normalized(f, env.config, now).Accepted? && Reached(env, f, store, i, token)
    ensures Asked(env, store, f, token, x)
  {
    hide Sane, Normalized, Reached, Serves;
    var request := f.(pageToken := token);
    SameButToken(env, f, token, now);
    var page := ReachedRequestIsServed(env, f, request, now, store, i);
    x := Exchange(request, now, page);
  }

  lemma FollowsOne(env: Env, f: Filter, store: seq<Event>, token: string, x: Exchange)
    requires Sane(env) && Asked(env, store, f, token, x)
    ensures Follows(env, store, f, token, [x])
  {
    hide Sane, Asked;
  }

  lemma FollowsMore(env: Env, f: Filter, store: seq<Event>, token: string, x: Exchange, xs: seq<Exchange>)
    requires Sane(env) && Asked(env, store, f, token, x) && x.page.hasMore
    requires Follows(env, store, f, x.page.nextToken, xs)
    ensures Follows(env, store, f, token, [x] + xs)
  {
    hide Sane, Asked;
    assert ([x] + xs)[1..] == xs;
  }

  /** From wherever the listing stands, a client can follow the tokens to its end. */
  lemma {:induction false} EveryListingCanBeFollowed(env: Env, f: Filter, store: seq<Event>, now: int, i: nat,
                                                     token: string)
    returns (xs: seq<Exchange>)
    requires Sane(env) && ClockRange(f) && RowsOk(env, store) && f.startAt.Some? && f.endAt.Some?
    requires Normalized(f, env.config, now).Accepted? && Reached(env, f, store, i, token)
    ensures xs != [] && Follows(env, store, f, token, xs) && !xs[|xs| - 1].page.hasMore
    decreases |Listing(env, f, None, store)| - i
  {
    hide *;
    var x := NextExchange(env, f, store, now, i, token);
    FirstExchange(env, f, store, Listing(env, f, None, store), i, token, x);
    CoversBound(env, Listing(env, f, None, store), i, x.page.events, x.page.hasMore);
    if x.page.hasMore {
      var more := EveryListingCanBeFollowed(env, f, store, now, i + |x.page.events|, x.page.nextToken);
      FollowsMore(env, f, store, token, x, more);
      xs := [x] + more;
    } else {
      FollowsOne(env, f, store, token, x);
      xs := [x];
    }
  }

  lemma CoversBound(env: Env, l: seq<Key>, i: nat, all: seq<Event>, hasMore: bool)
    requires Covers(env, l, i, all, hasMore)
    ensures i + |all| <= |l| && (hasMore ==> i + |all| < |l|)
  {
  }

  lemma ListingFacts(env: Env, f: Filter, store: seq<Event>)
    requires Sane(env) && ClockRange(f)
    ensures Sorted(OrderBy(env, f.order), Listing(env, f, None, store))
    ensures forall i, j :: 0 <= i < j < |Listing(env, f, None, store)| ==>
            Listing(env, f, None, store)[i] != Listing(env, f, None, store)[j]
  {
    var s := KeySet(env, Selected(env, f, None, store));
    var l := Listing(env, f, None, store);
    OrderByIsOrder(env, f.order);
    SortSorts(OrderBy(env, f.order), Listed(s));
    forall i, j | 0 <= i < j < |l| ensures l[i] != l[j] {
      OnlyOnce(l, j, l[j]);
      assert l[j..][0] == l[j] && l[..j][i] == l[i];
    }
  }

  /** At every point of a chain of exchanges the events delivered so far match, are in the sort order, have
      distinct ids and agree with the start of the full listing; every page that promises more is
      non-empty; the last page says there is no more exactly when every matching id has been delivered;
      and there are no more pages than matching ids, plus one. */
  ghost predicate DeliversOnce(env: Env, f: Filter, store: seq<Event>, xs: seq<Exchange>)
    requires ClockRange(f) && xs != []
  {
    && var all, l := Delivered(xs), Listing(env, f, None, store);
    && (forall e :: e in all ==> e in store && Matches(env.db.names, f, e))
    && Sorted(OrderBy(env, f.order), Keys(env, all))
    && (forall i, j :: 0 <= i < j < |all| ==> all[i].id != all[j].id)
    && Keys(env, all) <= l && |xs| <= |l| + 1
    && (forall p :: 0 <= p < |xs| && xs[p].page.hasMore ==> xs[p].page.events != [])
    && (!xs[|xs| - 1].page.hasMore <==>
        forall e :: e in store && Matches(env.db.names, f, e) ==> KeyOf(env, e) in Keys(env, all))
  }

  /** Following the tokens with any page sizes delivers every matching event once, in order. */
  lemma FollowingTokensDeliversEverythingOnce(env: Env, f: Filter, store: seq<Event>, xs: seq<Exchange>)
    requires Sane(env) && ClockRange(f) && RowsOk(env, store) && xs != [] && Follows(env, store, f, "", xs)
    ensures DeliversOnce(env, f, store, xs)
  {
    hide Sane, RowsOk, ClockRange, Follows, Delivered, Listing, Matches, OrderBy, KeyOf, Sorted;
    var all, l := Delivered(xs), Listing(env, f, None, store);
    ChainAdvances(env, f, store, l, 0, "", xs);
    assert Keys(env, all) == l[..|all|];
    ListingFacts(env, f, store);
    DistinctIds(env, f, store, all);
    SortedPrefix(OrderBy(env, f.order), l, |all|);
    Complete(env, f, store, |all|);
  }

  lemma DistinctIds(env: Env, f: Filter, store: seq<Event>, all: seq<Event>)
    requires Sane(env) && ClockRange(f) && RowsOk(env, store) && Keys(env, all) <= Listing(env, f, None, store)
    requires forall e :: e in all ==> e in store
    ensures forall i, j :: 0 <= i < j < |all| ==> all[i].id != all[j].id
  {
    ListingFacts(env, f, store);
    forall i, j | 0 <= i < j < |all| ensures all[i].id != all[j].id {
      KeyAt(env, all, i);
      KeyAt(env, all, j);
      var d, e := all[i], all[j];
      assert d in store && e in store;
    }
  }

  lemma {:induction false} SortedPrefix<T>(le: (T, T) -> bool, l: seq<T>, n: nat)
    requires Sorted(le, l) && n <= |l|
    ensures Sorted(le, l[..n])
  {
    if n > 0 {
      SortedPrefix(le, l[1..], n - 1);
      assert l[..n][1..] == l[1..][..n - 1];
    }
  }

  /** A prefix of the listing holds every matching key exactly when it is the whole listing. */
  lemma Complete(env: Env, f: Filter, store: seq<Event>, n: nat)
    requires Sane(env) && ClockRange(f) && RowsOk(env, store) && n <= |Listing(env, f, None, store)|
    ensures n == |Listing(env, f, None, store)| <==>
            forall e :: e in store && Matches(env.db.names, f, e) ==> KeyOf(env, e) in Listing(env, f, None, store)[..n]
  {
    var l := Listing(env, f, None, store);
    if n == |l| {
      forall e | e in store && Matches(env.db.names, f, e) ensures KeyOf(env, e) in l[..n] {
        SelectedExactly(env, f, None, store, e);
        InArranged(OrderBy(env, f.order), KeySet(env, Selected(env, f, None, store)), KeyOf(env, e));
        assert l[..n] == l;
      }
    } else {
      ListedRow(env, f, store, n);
      ListingFacts(env, f, store);
      assert l[n] !in l[..n];
    }
  }
}
