/** The cache inside the protocol: in every interleaving each shard is a run of the reference cache, so an
    event that was acknowledged is not written again while it is remembered. */
module IngestionMemory {
  import opened Types
  import opened DedupSpec
  import opened IngestionProtocol
  import opened IngestionSafety
  import Ref = DedupReference

  function Limits(w: Cache): Ref.Config {
    Ref.Config(w.ttl, w.capacity)
  }

  /** The operation a step performs on shard `h`, if any: what is presented, committed or rolled back is
      the item in question, at the time its call began. */
  ghost function OpOn(w: Cache, s: State, step: Step, h: nat): Option<Ref.Op>
    requires Enabled(w, s, step)
  {
    if step.AcquireNext? && step.valid then
      var c := s.calls[step.call];
      var item := c.items[c.pc.next];
      if w.hash(item.id) % w.shards == h then Some(Ref.TryAcquire(item.id, item.fp, c.now)) else None
    else if step.AckLock? then
      var c := s.calls[step.call];
      var item := c.owned[c.pc.next].item;
      if w.hash(item.id) % w.shards != h then None
      else if c.outcome == Some(Committed) then Some(Ref.MarkCommitted(item.id, item.receivedAt, c.now))
      else Some(Ref.RollbackInFlight(item.id))
    else if step.Sweep? && step.shard == h then Some(Ref.Sweep(step.now))
    else None
  }

  /** The reference cache after the first `k` steps, as far as shard `h` is concerned. */
  ghost function Reference(w: Cache, run: seq<State>, steps: seq<Step>, h: nat, k: nat): Ref.Ref
    requires IsRun(w, run, steps) && k < |run|
  {
    if k == 0 then Ref.Ref(map[], map[], 0)
    else
      var r, op := Reference(w, run, steps, h, k - 1), OpOn(w, run[k - 1], steps[k - 1], h);
      if op.None? then r else Ref.RefStep(r, op.value, |run[k - 1].promises|, Limits(w)).0
  }

  /** A step changes a shard as its operation says, and a shard it does not operate on not at all. */
  lemma StepOnShard(w: Cache, s: State, step: Step, h: nat)
    requires Enabled(w, s, step) && |s.shards| == w.shards && h < w.shards
    ensures |Apply(w, s, step).shards| == w.shards
    ensures var op := OpOn(w, s, step, h);
            Apply(w, s, step).shards[h] ==
            if op.None? then s.shards[h] else Ref.Step(s.shards[h], op.value, |s.promises|, Limits(w)).0
  {
    hide Acquire, Commit, Rollback, EvictExpired, Report, Decide, Await, Start;
  }

  /** In every interleaving each shard is what the reference cache says it is. */
  lemma {:induction false} ShardsRefineReference(w: Cache, run: seq<State>, steps: seq<Step>, h: nat, k: nat)
    requires IsRun(w, run, steps) && k < |run| && h < w.shards
    ensures |run[k].shards| == w.shards
    ensures Ref.Refines(run[k].shards[h], Reference(w, run, steps, h, k), w.capacity)
  {
    hide Apply, OpOn, Ref.Refines, Ref.RefStep, Ref.Step;
    if k == 0 {
      EmptyRefines(w.capacity);
    } else {
      ShardsRefineReference(w, run, steps, h, k - 1);
      var s, op := run[k - 1], OpOn(w, run[k - 1], steps[k - 1], h);
      StepOnShard(w, s, steps[k - 1], h);
      if op.Some? {
        Ref.StepRefines(s.shards[h], Reference(w, run, steps, h, k - 1), op.value, |s.promises|, Limits(w));
      }
    }
  }

  lemma EmptyRefines(capacity: nat)
    ensures Ref.Refines(EMPTY, Ref.Ref(map[], map[], 0), capacity)
  {
  }

  // ---- An acknowledged event is remembered -----------------------------------------------------

  /** The ids other than `id` that the steps from `a` to `k` present to shard `h` or commit there. */
  ghost function Touched(w: Cache, run: seq<State>, steps: seq<Step>, h: nat, id: EventId, a: nat, k: nat): set<EventId>
    requires IsRun(w, run, steps) && a <= k < |run|
    decreases k
  {
    if k == a then {}
    else
      var op := OpOn(w, run[k - 1], steps[k - 1], h);
      Touched(w, run, steps, h, id, a, k - 1) +
      if op.Some? && (op.value.TryAcquire? || op.value.MarkCommitted?) && op.value.id != id then {op.value.id} else {}
  }

  /** None of the steps from `a` to `k` looks at the entry of `id` at or after its expiry. */
  ghost predicate NotYetExpired(w: Cache, run: seq<State>, steps: seq<Step>, h: nat, id: EventId, expiry: int,
                                a: nat, k: nat)
    requires IsRun(w, run, steps) && a <= k < |run|
  {
    forall b :: a <= b < k ==>
      var op := OpOn(w, run[b], steps[b], h);
      op.Some? && (op.value.Sweep? || (op.value.TryAcquire? && op.value.id == id)) ==> op.value.now < expiry
  }

  /** The record of `e` is there, and what was used after `since` besides it is among `touched`. */
  ghost predicate Recalls(m: map<EventId, Ref.Record>, e: Entry, since: nat, touched: set<EventId>) {
    && e.id in m && m[e.id] == Ref.Record(e.fp, e.receivedAt, e.expiresAt, m[e.id].tick) && m[e.id].tick >= since
    && forall k :: k in m && k != e.id && m[k].tick > since ==> k in touched
  }

  ghost predicate Remembers(r: Ref.Ref, e: Entry, since: nat, touched: set<EventId>) {
    e.id !in r.inFlight && since < r.clock && Recalls(r.committed, e, since, touched)
  }

  lemma SubsetSize<T>(a: set<T>, b: set<T>)
    requires a <= b
    ensures |a| <= |b|
  {
    var c := b - a;
    assert b == a + c;
  }

  /** Eviction spares an id when fewer than `capacity` others were used since. */
  lemma EvictSpares(m: map<EventId, Ref.Record>, capacity: nat, id: EventId, since: nat, touched: set<EventId>)
    requires id in m && m[id].tick >= since && |touched| < capacity && id !in touched
    requires forall k :: k in m && k != id && m[k].tick > since ==> k in touched
    ensures id in Ref.Evict(m, capacity)
  {
    if Ref.Oldest(m, id) {
      assert m.Keys - {id} <= touched;
      SubsetSize(m.Keys - {id}, touched);
      assert |m.Keys - {id}| == |m.Keys| - 1;
      assert |m| == |m.Keys|;
    }
  }

  lemma EvictKeeps(m: map<EventId, Ref.Record>, capacity: nat, k: EventId)
    requires k in Ref.Evict(m, capacity)
    ensures k in m && Ref.Evict(m, capacity)[k] == m[k]
  {
  }

  lemma EvictRecalls(m: map<EventId, Ref.Record>, capacity: nat, e: Entry, since: nat, touched: set<EventId>)
    requires Recalls(m, e, since, touched) && |touched| < capacity && e.id !in touched
    ensures Recalls(Ref.Evict(m, capacity), e, since, touched)
  {
    hide Ref.Evict;
    EvictSpares(m, capacity, e.id, since, touched);
    forall k | k in Ref.Evict(m, capacity) ensures k in m && Ref.Evict(m, capacity)[k] == m[k] {
      EvictKeeps(m, capacity, k);
    }
  }

  lemma OpRemembers(r: Ref.Ref, op: Ref.Op, ticket: nat, c: Ref.Config, e: Entry, since: nat, touched: set<EventId>)
    requires Remembers(r, e, since, touched) && |touched| < c.capacity && e.id !in touched
    requires op.Sweep? || (op.TryAcquire? && op.id == e.id) ==> op.now < e.expiresAt
    requires (op.TryAcquire? || op.MarkCommitted?) && op.id != e.id ==> op.id in touched
    ensures Remembers(Ref.RefStep(r, op, ticket, c).0, e, since, touched)
  {
    hide Ref.Evict;
    match op
    case MarkCommitted(id, receivedAt, now) =>
      if id in r.inFlight {
        var m := r.committed[id := Ref.Record(r.inFlight[id].fp, receivedAt, now + c.ttl, r.clock)];
        EvictRecalls(m, c.capacity, e, since, touched);
      }
    case _ =>
  }

  lemma MoreTouched(r: Ref.Ref, e: Entry, since: nat, touched: set<EventId>, more: set<EventId>)
    requires Remembers(r, e, since, touched) && touched <= more
    ensures Remembers(r, e, since, more)
  {
  }

  /** The entry that the step at `a` commits. */
  ghost predicate Commits(w: Cache, run: seq<State>, steps: seq<Step>, h: nat, a: nat, e: Entry)
    requires IsRun(w, run, steps)
  {
    && a < |steps| && h < w.shards
    && OpOn(w, run[a], steps[a], h) == Some(Ref.MarkCommitted(e.id, e.receivedAt, e.expiresAt - w.ttl))
    && |run[a].shards| == w.shards && e.id in run[a].shards[h].inFlight && run[a].shards[h].inFlight[e.id].fp == e.fp
  }

  /** Acknowledging a committed write commits its event to the shard its hash names. */
  lemma AcknowledgedIsRemembered(w: Cache, run: seq<State>, steps: seq<Step>, a: nat, i: nat)
    requires IsRun(w, run, steps) && a < |steps| && steps[a] == AckLock(i) && Enabled(w, run[a], steps[a])
    requires run[a].calls[i].outcome == Some(Committed)
    ensures var c := run[a].calls[i];
            var item := c.owned[c.pc.next].item;
            Commits(w, run, steps, w.hash(item.id) % w.shards, a,
                    Entry(item.id, item.fp, item.receivedAt, c.now + w.ttl))
  {
    hide HeldOk, StoreOk;
    RunKeepsInv(w, run, steps, a);
    var c := run[a].calls[i];
    assert CallOk(run[a], i, c);
    assert SlotOk(w, run[a], c.owned[c.pc.next].promise);
  }

  lemma MarkRemembers(s: Shard, r: Ref.Ref, e: Entry, ticket: nat, c: Ref.Config)
    requires Ref.Refines(s, r, c.capacity) && c.capacity > 0
    requires e.id in s.inFlight && s.inFlight[e.id].fp == e.fp
    ensures Remembers(Ref.RefStep(r, Ref.MarkCommitted(e.id, e.receivedAt, e.expiresAt - c.ttl), ticket, c).0,
                      e, r.clock, {})
  {
    hide Ref.Evict, Ref.Lists;
    var m := r.committed[e.id := Ref.Record(e.fp, e.receivedAt, e.expiresAt, r.clock)];
    Ref.ListsSize(s.lru, r.committed, r.clock);
    EvictRecalls(m, c.capacity, e, r.clock, {});
  }

  lemma CommitRemembers(w: Cache, run: seq<State>, steps: seq<Step>, h: nat, a: nat, e: Entry)
    requires IsRun(w, run, steps) && Commits(w, run, steps, h, a, e) && w.capacity > 0
    ensures Remembers(Reference(w, run, steps, h, a + 1), e, Reference(w, run, steps, h, a).clock, {})
  {
    hide OpOn, Remembers, Ref.Refines, Ref.RefStep;
    ShardsRefineReference(w, run, steps, h, a);
    MarkRemembers(run[a].shards[h], Reference(w, run, steps, h, a), e, |run[a].promises|, Limits(w));
  }

  lemma {:induction false} StaysRemembered(w: Cache, run: seq<State>, steps: seq<Step>, h: nat, a: nat, k: nat,
                                           e: Entry)
    requires IsRun(w, run, steps) && Commits(w, run, steps, h, a, e) && a < k < |run|
    requires |Touched(w, run, steps, h, e.id, a + 1, k)| < w.capacity
    requires NotYetExpired(w, run, steps, h, e.id, e.expiresAt, a + 1, k)
    ensures Remembers(Reference(w, run, steps, h, k), e, Reference(w, run, steps, h, a).clock,
                      Touched(w, run, steps, h, e.id, a + 1, k))
  {
    hide IsRun, OpOn, Remembers, Ref.RefStep, Commits;
    if k == a + 1 {
      CommitRemembers(w, run, steps, h, a, e);
    } else {
      RunLength(w, run, steps);
      var t, t' := Touched(w, run, steps, h, e.id, a + 1, k - 1), Touched(w, run, steps, h, e.id, a + 1, k);
      var r, since := Reference(w, run, steps, h, k - 1), Reference(w, run, steps, h, a).clock;
      SubsetSize(t, t');
      StaysRemembered(w, run, steps, h, a, k - 1, e);
      MoreTouched(r, e, since, t, t');
      NeverTouchesItself(w, run, steps, h, e.id, a + 1, k);
      var op := OpOn(w, run[k - 1], steps[k - 1], h);
      if op.Some? {
        OpRemembers(r, op.value, |run[k - 1].promises|, Limits(w), e, since, t');
      }
    }
  }

  lemma RunLength(w: Cache, run: seq<State>, steps: seq<Step>)
    requires IsRun(w, run, steps)
    ensures |run| == |steps| + 1 && forall k :: 0 <= k < |steps| ==> Enabled(w, run[k], steps[k])
  {
  }

  lemma {:induction false} NeverTouchesItself(w: Cache, run: seq<State>, steps: seq<Step>, h: nat, id: EventId, a: nat,
                                              k: nat)
    requires IsRun(w, run, steps) && a <= k < |run|
    ensures id !in Touched(w, run, steps, h, id, a, k)
    decreases k
  {
    hide OpOn;
    if k > a {
      NeverTouchesItself(w, run, steps, h, id, a, k - 1);
    }
  }

  /** Idempotence: once an event is committed to the cache, presenting the same id and payload again before
      the entry expires, while fewer than `capacity` other ids of the shard came by, is answered as a
      success with the time of receipt of the first, and the event is not written again. */
  lemma RememberedEventIsNotWrittenAgain(w: Cache, run: seq<State>, steps: seq<Step>, a: nat, k: nat, e: Entry, i: nat)
    requires IsRun(w, run, steps) && a < k < |steps| && Commits(w, run, steps, w.hash(e.id) % w.shards, a, e)
    requires |Touched(w, run, steps, w.hash(e.id) % w.shards, e.id, a + 1, k)| < w.capacity
    requires NotYetExpired(w, run, steps, w.hash(e.id) % w.shards, e.id, e.expiresAt, a + 1, k)
    requires steps[k] == AcquireNext(i, true) && Enabled(w, run[k], steps[k])
    requires var c := run[k].calls[i];
             c.items[c.pc.next].id == e.id && c.items[c.pc.next].fp == e.fp && c.now < e.expiresAt
    ensures |run[k].shards| == w.shards && i in run[k + 1].calls
    ensures var c, c' := run[k].calls[i], run[k + 1].calls[i];
            && Acquire(run[k].shards[w.hash(e.id) % w.shards], e.id, e.fp, c.now, |run[k].promises|).1 ==
               AlreadyCommitted(e.receivedAt)
            && c'.owned == c.owned && c'.waits == c.waits
            && c'.results == c.results + [ItemResult(e.id, e.fp, true, DuplicateCommitted, Some(e.receivedAt), "")]
  {
    hide Acquire, Ref.Refines, Ref.Evict, Commits;
    var h := w.hash(e.id) % w.shards;
    StaysRemembered(w, run, steps, h, a, k, e);
    ShardsRefineReference(w, run, steps, h, k);
    var s, c := run[k], run[k].calls[i];
    AnsweredFromMemory(s.shards[h], Reference(w, run, steps, h, k), e, Reference(w, run, steps, h, a).clock,
                       Touched(w, run, steps, h, e.id, a + 1, k), c.now, |s.promises|, Limits(w));
    assert Enabled(w, s, steps[k]) && run[k + 1] == Apply(w, s, steps[k]);
  }

  lemma AnsweredFromMemory(s: Shard, r: Ref.Ref, e: Entry, since: nat, touched: set<EventId>, now: int, ticket: nat,
                           c: Ref.Config)
    requires Ref.Refines(s, r, c.capacity) && Remembers(r, e, since, touched) && now < e.expiresAt
    ensures Acquire(s, e.id, e.fp, now, ticket).1 == AlreadyCommitted(e.receivedAt)
  {
    hide Acquire, Ref.Refines;
    Ref.StepRefines(s, r, Ref.TryAcquire(e.id, e.fp, now), ticket, c);
  }
}
