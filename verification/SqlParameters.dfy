/** The parameters of a query: no group of them overwrites another. */
module SqlParameters {
  import opened Types
  import opened Splitting
  import opened AuditEvents
  import opened QueryFilter
  import opened PageCursor
  import opened SqlBuilder

  type Params = map<string, Value>

  /** Every parameter of `m` is there, with its value. */
  ghost predicate Includes(all: Params, m: Params) {
    forall k :: k in m ==> k in all && all[k] == m[k]
  }

  /** Which group a name belongs to, by its first two letters. */
  function GroupOf(name: string): nat {
    if |name| < 2 then 9
    else if (name[0] == 's' && name[1] == 't') || (name[0] == 'e' && name[1] == 'n') then 0
    else if name[0] == 'p' then 1
    else if name[0] == 'e' then 2
    else if name[0] == 's' then 3
    else if name[0] == 'a' then 4
    else if name[0] == 't' then 5
    else if name[0] == 'c' && name[1] == 'o' then 6
    else if name[0] == 'c' then 7
    else if name[0] == 'l' then 8
    else 9
  }

  ghost predicate Belongs(m: Params, group: nat) {
    forall k :: k in m ==> GroupOf(k) == group
  }

  function Merge(ms: seq<Params>): Params {
    if ms == [] then map[] else Merge(ms[..|ms| - 1]) + ms[|ms| - 1]
  }

  lemma MergeSnoc(ms: seq<Params>, m: Params)
    ensures Merge(ms + [m]) == Merge(ms) + m
  {
    assert (ms + [m])[..|ms|] == ms;
  }

  ghost predicate Apart(ms: seq<Params>) {
    forall i, j :: 0 <= i < j < |ms| ==> ms[i].Keys !! ms[j].Keys
  }

  lemma {:induction false} MergeKeeps(ms: seq<Params>, i: nat)
    requires Apart(ms) && i < |ms|
    ensures Includes(Merge(ms), ms[i])
  {
    var last := |ms| - 1;
    if i < last {
      MergeKeeps(ms[..last], i);
      assert ms[..last][i] == ms[i];
      assert ms[i].Keys !! ms[last].Keys;
    }
  }

  lemma {:induction false} ListBelongs(key: string, vs: seq<Value>)
    requires |key| >= 2
    ensures Belongs(ListBindings(key, vs), GroupOf(key))
  {
    if vs != [] {
      var last := |vs| - 1;
      ListBelongs(key, vs[..last]);
      assert (key + Decimal(last))[0] == key[0] && (key + Decimal(last))[1] == key[1];
    }
  }

  function Groups(names: EnumNames, f: Filter, cursor: Option<Cursor>): seq<Params>
    requires ClockRange(f) && WholeId(cursor)
  {
    [WindowBindings(f), ListBindings("producer_", Shown(names.producer, f.producers)),
     ListBindings("event_type_", Given(f.eventTypes)), ListBindings("severity_", Shown(names.severity, f.severities)),
     ActorBindings(names, f), TargetBindings(names, f),
     CorrelationBindings(f), CursorBindings(cursor), LimitBindings(f)]
  }

  lemma ListsBelong(names: EnumNames, f: Filter)
    ensures Belongs(ListBindings("producer_", Shown(names.producer, f.producers)), 1)
    ensures Belongs(ListBindings("event_type_", Given(f.eventTypes)), 2)
    ensures Belongs(ListBindings("severity_", Shown(names.severity, f.severities)), 3)
  {
    hide Belongs;
    ListBelongs("producer_", Shown(names.producer, f.producers));
    ListBelongs("event_type_", Given(f.eventTypes));
    ListBelongs("severity_", Shown(names.severity, f.severities));
  }

  lemma WindowBelongs(f: Filter)
    requires ClockRange(f)
    ensures Belongs(WindowBindings(f), 0) && Belongs(LimitBindings(f), 8)
  {
    hide MillisOrZero;
  }

  lemma PartiesBelong(names: EnumNames, f: Filter)
    ensures Belongs(ActorBindings(names, f), 4) && Belongs(TargetBindings(names, f), 5)
    ensures Belongs(CorrelationBindings(f), 6)
  {
  }

  lemma CursorBelongs(cursor: Option<Cursor>)
    requires WholeId(cursor)
    ensures Belongs(CursorBindings(cursor), 7)
  {
  }

  lemma BelongApart(ms: seq<Params>)
    requires forall i :: 0 <= i < |ms| ==> Belongs(ms[i], i)
    ensures Apart(ms)
  {
    hide GroupOf;
    forall i, j | 0 <= i < j < |ms| ensures ms[i].Keys !! ms[j].Keys {
      assert forall k :: k in ms[i] ==> GroupOf(k) == i && k !in ms[j];
    }
  }

  /** No two groups of parameters share a name. */
  lemma GroupsApart(names: EnumNames, f: Filter, cursor: Option<Cursor>)
    requires ClockRange(f) && WholeId(cursor)
    ensures Apart(Groups(names, f, cursor))
  {
    hide Belongs, Apart, WindowBindings, ListBindings, ActorBindings, TargetBindings, CorrelationBindings,
         CursorBindings, LimitBindings;
    ListsBelong(names, f);
    WindowBelongs(f);
    PartiesBelong(names, f);
    CursorBelongs(cursor);
    BelongApart(Groups(names, f, cursor));
  }

  lemma MergeNine(a: Params, b: Params, c: Params, d: Params, e: Params, f: Params, g: Params, h: Params, i: Params)
    ensures Merge([a, b, c, d, e, f, g, h, i]) == a + b + c + d + e + f + g + h + i
  {
    hide Merge;
    MergeSnoc([a, b, c, d, e, f, g, h], i);
    MergeSnoc([a, b, c, d, e, f, g], h);
    MergeSnoc([a, b, c, d, e, f], g);
    MergeSnoc([a, b, c, d, e], f);
    MergeSnoc([a, b, c, d], e);
    MergeSnoc([a, b, c], d);
    MergeSnoc([a, b], c);
    MergeSnoc([a], b);
    MergeOne(a);
    assert [a, b, c, d, e, f, g, h, i] == [a, b, c, d, e, f, g, h] + [i] &&
           [a, b, c, d, e, f, g, h] == [a, b, c, d, e, f, g] + [h];
    assert [a, b, c, d, e, f, g] == [a, b, c, d, e, f] + [g] && [a, b, c, d, e, f] == [a, b, c, d, e] + [f];
    assert [a, b, c, d, e] == [a, b, c, d] + [e] && [a, b, c, d] == [a, b, c] + [d] && [a, b, c] == [a, b] + [c] &&
           [a, b] == [a] + [b];
  }

  lemma MergeOne(a: Params)
    ensures Merge([a]) == a
  {
    assert [a][..0] == [];
  }

  lemma BindingsAreMerged(names: EnumNames, f: Filter, cursor: Option<Cursor>)
    requires ClockRange(f) && WholeId(cursor)
    ensures Bindings(names, f, cursor) == Merge(Groups(names, f, cursor))
  {
    hide WindowBindings, ListBindings, ActorBindings, TargetBindings, CorrelationBindings, CursorBindings,
         LimitBindings, Merge;
    var gs := Groups(names, f, cursor);
    MergeNine(gs[0], gs[1], gs[2], gs[3], gs[4], gs[5], gs[6], gs[7], gs[8]);
  }

  /** Every group of parameters reaches the query unchanged. */
  lemma GroupsReachTheQuery(names: EnumNames, f: Filter, cursor: Option<Cursor>)
    requires ClockRange(f) && WholeId(cursor)
    ensures forall i :: 0 <= i < 9 ==> Includes(Bindings(names, f, cursor), Groups(names, f, cursor)[i])
  {
    hide Bindings, Merge, Apart, Includes;
    GroupsApart(names, f, cursor);
    BindingsAreMerged(names, f, cursor);
    hide Groups;
    forall i | 0 <= i < 9 ensures Includes(Bindings(names, f, cursor), Groups(names, f, cursor)[i]) {
      MergeKeeps(Groups(names, f, cursor), i);
    }
  }
}
