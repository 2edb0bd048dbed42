/** A reference cache without a list: a map with use ticks whose victim is the least recent one.
    Every run of the shard is simulated by it, reply for reply. */
module DedupReference {
  import opened Types
  import opened DedupSpec

  datatype Op =
    | TryAcquire(id: EventId, fp: Fingerprint, now: int)
    | MarkCommitted(id: EventId, receivedAt: int, now: int)
    | RollbackInFlight(id: EventId)
    | Sweep(now: int)

  datatype Reply = Decided(decision: Decision) | Released(promise: Option<nat>) | Swept

  datatype Config = Config(ttl: int, capacity: nat)

  function Step(s: Shard, op: Op, ticket: nat, c: Config): (Shard, Reply) {
    match op
    case TryAcquire(id, fp, now) =>
      var (s', d) := Acquire(s, id, fp, now, ticket);
      (s', Decided(d))
    case MarkCommitted(id, receivedAt, now) =>
      var (s', p) := Commit(s, id, receivedAt, now, c.ttl, c.capacity);
      (s', Released(p))
    case RollbackInFlight(id) =>
      var (s', p) := Rollback(s, id);
      (s', Released(p))
    case Sweep(now) => (EvictExpired(s, now), Swept)
  }

  /** The shard after a run; the promise of the operation at position `i` is `i` itself. */
  function StateAfter(ops: seq<Op>, c: Config): Shard {
    if ops == [] then EMPTY
    else Step(StateAfter(ops[..|ops| - 1], c), ops[|ops| - 1], |ops| - 1, c).0
  }

  function ReplyAt(ops: seq<Op>, i: nat, c: Config): Reply
    requires i < |ops|
  {
    Step(StateAfter(ops[..i], c), ops[i], i, c).1
  }

  /** A committed id with the tick of its last use. */
  datatype Record = Record(fp: Fingerprint, receivedAt: int, expiresAt: int, tick: nat)

  datatype Ref = Ref(inFlight: map<EventId, InFlight>, committed: map<EventId, Record>, clock: nat)

  ghost predicate Oldest(m: map<EventId, Record>, v: EventId) {
    v in m && forall k :: k in m && k != v ==> m[v].tick < m[k].tick
  }

  /** Over capacity, the least recently used id goes. */
  ghost function Evict(m: map<EventId, Record>, capacity: nat): map<EventId, Record> {
    if |m| <= capacity || !exists v :: Oldest(m, v) then m
    else
      var v :| Oldest(m, v);
      m - {v}
  }

  ghost function RefReserve(r: Ref, id: EventId, fp: Fingerprint, ticket: nat): (Ref, Reply) {
    if id !in r.inFlight then
      (r.(inFlight := r.inFlight[id := InFlight(fp, ticket)]), Decided(AcquiredNewInFlight(ticket)))
    else if r.inFlight[id].fp == fp then (r, Decided(CoalescedInFlight(r.inFlight[id].promise)))
    else (r, Decided(PayloadConflict))
  }

  ghost function RefAcquire(r: Ref, id: EventId, fp: Fingerprint, now: int, ticket: nat): (Ref, Reply) {
    if id !in r.committed || r.committed[id].expiresAt <= now then
      RefReserve(r.(committed := r.committed - {id}), id, fp, ticket)
    else if r.committed[id].fp == fp then
      (r.(committed := r.committed[id := r.committed[id].(tick := r.clock)], clock := r.clock + 1),
       Decided(AlreadyCommitted(r.committed[id].receivedAt)))
    else (r, Decided(PayloadConflict))
  }

  ghost function RefCommit(r: Ref, id: EventId, receivedAt: int, now: int, c: Config): (Ref, Reply) {
    if id !in r.inFlight then (r, Released(None))
    else
      var e := Record(r.inFlight[id].fp, receivedAt, now + c.ttl, r.clock);
      (Ref(r.inFlight - {id}, Evict(r.committed[id := e], c.capacity), r.clock + 1),
       Released(Some(r.inFlight[id].promise)))
  }

  ghost function NotExpired(m: map<EventId, Record>, now: int): map<EventId, Record> {
    map k | k in m && now < m[k].expiresAt :: m[k]
  }

  ghost function RefStep(r: Ref, op: Op, ticket: nat, c: Config): (Ref, Reply) {
    match op
    case TryAcquire(id, fp, now) => RefAcquire(r, id, fp, now, ticket)
    case MarkCommitted(id, receivedAt, now) => RefCommit(r, id, receivedAt, now, c)
    case RollbackInFlight(id) =>
      if id !in r.inFlight then (r, Released(None))
      else (r.(inFlight := r.inFlight - {id}), Released(Some(r.inFlight[id].promise)))
    case Sweep(now) => (r.(committed := NotExpired(r.committed, now)), Swept)
  }

  ghost function RefAfter(ops: seq<Op>, c: Config): Ref {
    if ops == [] then Ref(map[], map[], 0)
    else RefStep(RefAfter(ops[..|ops| - 1], c), ops[|ops| - 1], |ops| - 1, c).0
  }

  ghost predicate Matches(e: Entry, r: Record) {
    r.fp == e.fp && r.receivedAt == e.receivedAt && r.expiresAt == e.expiresAt
  }

  /** The list holds exactly the map's entries, each once, in descending order of last use. */
  ghost predicate Lists(lru: seq<Entry>, m: map<EventId, Record>, bound: nat) {
    if lru == [] then m == map[]
    else
      var id := lru[0].id;
      id in m && Matches(lru[0], m[id]) && m[id].tick < bound && Lists(lru[1..], m - {id}, m[id].tick)
  }

  /** The refinement relation, with what every operation keeps: the list and the map agree,
      no id is both in flight and committed, and the capacity is respected. */
  ghost predicate Refines(s: Shard, r: Ref, capacity: nat) {
    && s.inFlight == r.inFlight
    && Lists(s.lru, r.committed, r.clock)
    && r.inFlight.Keys !! r.committed.Keys
    && |s.lru| <= capacity
  }

  lemma {:induction false} ListsWeaker(lru: seq<Entry>, m: map<EventId, Record>, bound: nat, bound': nat)
    requires Lists(lru, m, bound) && bound <= bound'
    ensures Lists(lru, m, bound')
  {
  }

  lemma {:induction false} ListsSize(lru: seq<Entry>, m: map<EventId, Record>, bound: nat)
    requires Lists(lru, m, bound)
    ensures |m| == |lru|
    ensures forall k :: k in m ==> m[k].tick < bound
  {
    if lru != [] {
      var id := lru[0].id;
      ListsSize(lru[1..], m - {id}, m[id].tick);
      assert m == (m - {id})[id := m[id]];
    }
  }

  lemma {:induction false} LookupAgrees(lru: seq<Entry>, m: map<EventId, Record>, bound: nat, id: EventId)
    requires Lists(lru, m, bound)
    ensures Lookup(lru, id).Some? <==> id in m
    ensures id in m ==> Matches(Lookup(lru, id).value, m[id])
  {
    if lru != [] && lru[0].id != id {
      LookupAgrees(lru[1..], m - {lru[0].id}, m[lru[0].id].tick, id);
    }
  }

  lemma {:induction false} UnlinkAgrees(lru: seq<Entry>, m: map<EventId, Record>, bound: nat, id: EventId)
    requires Lists(lru, m, bound)
    ensures Lists(Without(lru, id), m - {id}, bound)
    ensures |Without(lru, id)| == if id in m then |lru| - 1 else |lru|
  {
    if lru != [] {
      var h := lru[0].id;
      UnlinkAgrees(lru[1..], m - {h}, m[h].tick, id);
      if h == id {
        assert (m - {h}) - {id} == m - {id};
        ListsWeaker(Without(lru[1..], id), m - {id}, m[h].tick, bound);
      } else {
        assert (m - {h}) - {id} == (m - {id}) - {h};
        assert Without(lru, id)[1..] == Without(lru[1..], id);
      }
    }
  }

  lemma PushAgrees(lru: seq<Entry>, m: map<EventId, Record>, clock: nat, e: Entry)
    requires Lists(lru, m - {e.id}, clock)
    ensures Lists([e] + lru, m[e.id := Record(e.fp, e.receivedAt, e.expiresAt, clock)], clock + 1)
  {
    var m' := m[e.id := Record(e.fp, e.receivedAt, e.expiresAt, clock)];
    assert ([e] + lru)[1..] == lru;
    assert m' - {e.id} == m - {e.id};
  }

  lemma {:induction false} SweepAgrees(lru: seq<Entry>, m: map<EventId, Record>, bound: nat, now: int)
    requires Lists(lru, m, bound)
    ensures Lists(Unexpired(lru, now), NotExpired(m, now), bound)
    ensures |Unexpired(lru, now)| <= |lru|
  {
    if lru == [] {
      assert NotExpired(m, now) == map[];
    } else {
      var h := lru[0].id;
      SweepAgrees(lru[1..], m - {h}, m[h].tick, now);
      if now >= lru[0].expiresAt {
        assert NotExpired(m - {h}, now) == NotExpired(m, now);
        ListsWeaker(Unexpired(lru[1..], now), NotExpired(m, now), m[h].tick, bound);
      } else {
        assert NotExpired(m - {h}, now) == NotExpired(m, now) - {h};
        assert Unexpired(lru, now)[1..] == Unexpired(lru[1..], now);
      }
    }
  }

  /** The list's tail is the least recently used id. */
  lemma {:induction false} TailIsOldest(lru: seq<Entry>, m: map<EventId, Record>, bound: nat)
    requires Lists(lru, m, bound) && lru != []
    ensures var n := |lru| - 1;
            Oldest(m, lru[n].id) && Lists(lru[..n], m - {lru[n].id}, bound)
  {
    var n, h := |lru| - 1, lru[0].id;
    if n == 0 {
      assert m == map[h := m[h]];
      assert m - {h} == map[];
    } else {
      var v := lru[n].id;
      assert lru[1..][n - 1] == lru[n];
      TailIsOldest(lru[1..], m - {h}, m[h].tick);
      ListsSize(lru[1..], m - {h}, m[h].tick);
      assert forall k :: k in m && k != v ==> k == h || k in m - {h};
      assert (m - {h}) - {v} == (m - {v}) - {h};
      assert lru[..n][1..] == lru[1..][..n - 1];
    }
  }

  /** Dropping the list's tail is evicting the least recently used id. */
  lemma TruncateIsEvict(lru: seq<Entry>, m: map<EventId, Record>, bound: nat, capacity: nat)
    requires Lists(lru, m, bound) && |lru| <= capacity + 1
    ensures Lists(Truncated(lru, capacity), Evict(m, capacity), bound)
    ensures |lru| > capacity ==> Oldest(m, lru[capacity].id) && Evict(m, capacity) == m - {lru[capacity].id}
    ensures |lru| <= capacity ==> Evict(m, capacity) == m
  {
    ListsSize(lru, m, bound);
    if |lru| > capacity {
      TailIsOldest(lru, m, bound);
      assert forall u :: Oldest(m, u) ==> u == lru[capacity].id;
    }
  }

  lemma AcquireRefines(s: Shard, r: Ref, id: EventId, fp: Fingerprint, now: int, ticket: nat, capacity: nat)
    requires Refines(s, r, capacity)
    ensures Decided(Acquire(s, id, fp, now, ticket).1) == RefAcquire(r, id, fp, now, ticket).1
    ensures Refines(Acquire(s, id, fp, now, ticket).0, RefAcquire(r, id, fp, now, ticket).0, capacity)
  {
    LookupAgrees(s.lru, r.committed, r.clock, id);
    UnlinkAgrees(s.lru, r.committed, r.clock, id);
    if id in r.committed {
      var e := Lookup(s.lru, id).value;
      if now < e.expiresAt && e.fp == fp {
        PushAgrees(Without(s.lru, id), r.committed, r.clock, e);
      }
    } else {
      assert r.committed - {id} == r.committed;
    }
  }

  lemma CommitAgrees(lru: seq<Entry>, m: map<EventId, Record>, clock: nat, e: Entry, capacity: nat)
    requires Lists(lru, m, clock) && |lru| <= capacity
    ensures var l := Truncated([e] + Without(lru, e.id), capacity);
            && Lists(l, Evict(m[e.id := Record(e.fp, e.receivedAt, e.expiresAt, clock)], capacity), clock + 1)
            && |l| <= capacity
  {
    UnlinkAgrees(lru, m, clock, e.id);
    PushAgrees(Without(lru, e.id), m, clock, e);
    TruncateIsEvict([e] + Without(lru, e.id), m[e.id := Record(e.fp, e.receivedAt, e.expiresAt, clock)], clock + 1,
                    capacity);
  }

  lemma CommitRefines(s: Shard, r: Ref, id: EventId, receivedAt: int, now: int, c: Config)
    requires Refines(s, r, c.capacity)
    ensures Released(Commit(s, id, receivedAt, now, c.ttl, c.capacity).1) == RefCommit(r, id, receivedAt, now, c).1
    ensures Refines(Commit(s, id, receivedAt, now, c.ttl, c.capacity).0, RefCommit(r, id, receivedAt, now, c).0,
                    c.capacity)
  {
    hide Lists, Evict, Truncated, Without;
    if id in s.inFlight {
      var e := Entry(id, s.inFlight[id].fp, receivedAt, now + c.ttl);
      CommitAgrees(s.lru, r.committed, r.clock, e, c.capacity);
      EvictKeepsDisjoint(r, id, Record(e.fp, e.receivedAt, e.expiresAt, r.clock), c.capacity);
    }
  }

  lemma EvictKeepsDisjoint(r: Ref, id: EventId, e: Record, capacity: nat)
    requires r.inFlight.Keys !! r.committed.Keys
    ensures (r.inFlight - {id}).Keys !! Evict(r.committed[id := e], capacity).Keys
  {
  }

  /** What a missing id says about an eviction. */
  lemma EvictedWasOldest(m: map<EventId, Record>, capacity: nat, victim: EventId)
    requires victim in m && victim !in Evict(m, capacity)
    ensures |m| > capacity && Oldest(m, victim) && Evict(m, capacity) == m - {victim}
    ensures |Evict(m, capacity)| == |m| - 1
  {
    assert (m - {victim}).Keys == m.Keys - {victim};
  }

  /** One operation: same reply, and the relation is kept. */
  lemma StepRefines(s: Shard, r: Ref, op: Op, ticket: nat, c: Config)
    requires Refines(s, r, c.capacity)
    ensures Step(s, op, ticket, c).1 == RefStep(r, op, ticket, c).1
    ensures Refines(Step(s, op, ticket, c).0, RefStep(r, op, ticket, c).0, c.capacity)
  {
    match op
    case TryAcquire(id, fp, now) => AcquireRefines(s, r, id, fp, now, ticket, c.capacity);
    case MarkCommitted(id, receivedAt, now) => CommitRefines(s, r, id, receivedAt, now, c);
    case RollbackInFlight(id) =>
    case Sweep(now) => SweepAgrees(s.lru, r.committed, r.clock, now);
  }

  /** Every run from the empty shard is simulated by the reference cache. */
  lemma {:induction false} ShardRefinesReference(ops: seq<Op>, c: Config)
    ensures Refines(StateAfter(ops, c), RefAfter(ops, c), c.capacity)
  {
    if ops != [] {
      var k := |ops| - 1;
      ShardRefinesReference(ops[..k], c);
      StepRefines(StateAfter(ops[..k], c), RefAfter(ops[..k], c), ops[k], k, c);
    }
  }

  /** ... and answers what the reference cache answers. */
  lemma RepliesAgree(ops: seq<Op>, c: Config, i: nat)
    requires i < |ops|
    ensures ReplyAt(ops, i, c) == RefStep(RefAfter(ops[..i], c), ops[i], i, c).1
  {
    ShardRefinesReference(ops[..i], c);
    StepRefines(StateAfter(ops[..i], c), RefAfter(ops[..i], c), ops[i], i, c);
  }

  /** Capacity eviction: in every run, an id leaves on another id's commit only when `capacity`
      other ids have been used since its own last use. */
  lemma EvictedAfterCapacityNewerUses(ops: seq<Op>, c: Config, op: Op, victim: EventId)
    requires op.MarkCommitted? && victim != op.id
    requires Lookup(StateAfter(ops, c).lru, victim).Some?
    requires Lookup(Step(StateAfter(ops, c), op, |ops|, c).0.lru, victim).None?
    ensures var r, r' := RefAfter(ops, c), RefStep(RefAfter(ops, c), op, |ops|, c).0;
            && |r'.committed| == c.capacity
            && victim in r.committed
            && forall k :: k in r'.committed ==> k != victim && r'.committed[k].tick > r.committed[victim].tick
  {
    ShardRefinesReference(ops, c);
    EvictionOnCommit(StateAfter(ops, c), RefAfter(ops, c), op, |ops|, c, victim);
  }

  lemma EvictionOnCommit(s: Shard, r: Ref, op: Op, ticket: nat, c: Config, victim: EventId)
    requires Refines(s, r, c.capacity) && op.MarkCommitted? && victim != op.id
    requires Lookup(s.lru, victim).Some? && Lookup(Step(s, op, ticket, c).0.lru, victim).None?
    ensures var r' := RefCommit(r, op.id, op.receivedAt, op.now, c).0;
            && |r'.committed| == c.capacity
            && victim in r.committed
            && forall k :: k in r'.committed ==> k != victim && r'.committed[k].tick > r.committed[victim].tick
  {
    CommitRefines(s, r, op.id, op.receivedAt, op.now, c);
    var r' := RefCommit(r, op.id, op.receivedAt, op.now, c).0;
    LookupAgrees(s.lru, r.committed, r.clock, victim);
    LookupAgrees(Step(s, op, ticket, c).0.lru, r'.committed, r'.clock, victim);
    ListsSize(s.lru, r.committed, r.clock);
    RefEvictionOnCommit(r, op.id, op.receivedAt, op.now, c, victim);
  }

  lemma RefEvictionOnCommit(r: Ref, id: EventId, receivedAt: int, now: int, c: Config, victim: EventId)
    requires r.inFlight.Keys !! r.committed.Keys && |r.committed| <= c.capacity
    requires forall k :: k in r.committed ==> r.committed[k].tick < r.clock
    requires victim in r.committed && victim != id && victim !in RefCommit(r, id, receivedAt, now, c).0.committed
    ensures var r' := RefCommit(r, id, receivedAt, now, c).0;
            && |r'.committed| == c.capacity
            && forall k :: k in r'.committed ==> k != victim && r'.committed[k].tick > r.committed[victim].tick
  {
    var m := r.committed[id := Record(r.inFlight[id].fp, receivedAt, now + c.ttl, r.clock)];
    EvictedWasOldest(m, c.capacity, victim);
    assert m.Keys == r.committed.Keys + {id};
  }

  /** Op `k` reserved `id` with payload `fp`. */
  ghost predicate ReservedBy(ops: seq<Op>, c: Config, id: EventId, fp: Fingerprint, k: nat) {
    && k < |ops|
    && ops[k].TryAcquire? && ops[k].id == id && ops[k].fp == fp
    && ReplyAt(ops, k, c) == Decided(AcquiredNewInFlight(k))
  }

  /** Op `j` committed the entry, releasing the promise that op `k` had reserved for it. */
  ghost predicate CommittedBy(ops: seq<Op>, c: Config, e: Entry, j: nat, k: nat) {
    && k < j < |ops|
    && ops[j] == MarkCommitted(e.id, e.receivedAt, e.expiresAt - c.ttl)
    && ReplyAt(ops, j, c) == Released(Some(k))
    && ReservedBy(ops, c, e.id, e.fp, k)
  }

  ghost predicate WasCommitted(ops: seq<Op>, c: Config, e: Entry) {
    exists j: nat, k: nat :: CommittedBy(ops, c, e, j, k)
  }

  ghost predicate Explained(ops: seq<Op>, c: Config, s: Shard) {
    && (forall id :: id in s.inFlight ==> ReservedBy(ops, c, id, s.inFlight[id].fp, s.inFlight[id].promise))
    && (forall e :: e in s.lru ==> WasCommitted(ops, c, e))
  }

  lemma PrefixReply(ops: seq<Op>, c: Config, n: nat, i: nat)
    requires i < n <= |ops|
    ensures ReplyAt(ops[..n], i, c) == ReplyAt(ops, i, c)
  {
    assert ops[..n][..i] == ops[..i];
  }

  lemma PrefixReserved(ops: seq<Op>, c: Config, n: nat, id: EventId, fp: Fingerprint, k: nat)
    requires n <= |ops| && ReservedBy(ops[..n], c, id, fp, k)
    ensures ReservedBy(ops, c, id, fp, k)
  {
    PrefixReply(ops, c, n, k);
  }

  lemma PrefixCommitted(ops: seq<Op>, c: Config, n: nat, e: Entry)
    requires n <= |ops| && WasCommitted(ops[..n], c, e)
    ensures WasCommitted(ops, c, e)
  {
    var j: nat, k: nat :| CommittedBy(ops[..n], c, e, j, k);
    PrefixReply(ops, c, n, j);
    PrefixReserved(ops, c, n, e.id, e.fp, k);
    assert CommittedBy(ops, c, e, j, k);
  }

  /** An entry of the list after one operation was there before, or is the one just committed. */
  lemma EntryOrigin(s: Shard, op: Op, ticket: nat, c: Config, e: Entry)
    requires e in Step(s, op, ticket, c).0.lru
    ensures e in s.lru
            || (op.MarkCommitted? && op.id in s.inFlight
                && e == Entry(op.id, s.inFlight[op.id].fp, op.receivedAt, op.now + c.ttl))
  {
    match op
    case TryAcquire(id, fp, now) => WithoutSelects(s.lru, id, e);
    case MarkCommitted(id, receivedAt, now) => WithoutSelects(s.lru, id, e);
    case RollbackInFlight(id) =>
    case Sweep(now) => UnexpiredSelects(s.lru, now, e);
  }

  /** A reservation after one operation was there before, or is the one just made. */
  lemma ReservationOrigin(s: Shard, op: Op, ticket: nat, c: Config, id: EventId)
    requires id in Step(s, op, ticket, c).0.inFlight
    ensures (id in s.inFlight && s.inFlight[id] == Step(s, op, ticket, c).0.inFlight[id])
            || (op.TryAcquire? && op.id == id && Step(s, op, ticket, c).0.inFlight[id] == InFlight(op.fp, ticket)
                && Step(s, op, ticket, c).1 == Decided(AcquiredNewInFlight(ticket)))
  {
  }

  lemma ReservationExplained(ops: seq<Op>, c: Config, id: EventId)
    requires ops != [] && Explained(ops[..|ops| - 1], c, StateAfter(ops[..|ops| - 1], c))
    requires id in StateAfter(ops, c).inFlight
    ensures var f := StateAfter(ops, c).inFlight[id];
            ReservedBy(ops, c, id, f.fp, f.promise)
  {
    hide Step, WasCommitted;
    var n := |ops| - 1;
    var s, s' := StateAfter(ops[..n], c), StateAfter(ops, c);
    ReservationOrigin(s, ops[n], n, c, id);
    if id in s.inFlight && s.inFlight[id] == s'.inFlight[id] {
      PrefixReserved(ops, c, n, id, s.inFlight[id].fp, s.inFlight[id].promise);
    }
  }

  lemma EntryExplained(ops: seq<Op>, c: Config, e: Entry)
    requires ops != [] && Explained(ops[..|ops| - 1], c, StateAfter(ops[..|ops| - 1], c)) && e in StateAfter(ops, c).lru
    ensures WasCommitted(ops, c, e)
  {
    var n := |ops| - 1;
    var s := StateAfter(ops[..n], c);
    EntryOrigin(s, ops[n], n, c, e);
    if e in s.lru {
      PrefixCommitted(ops, c, n, e);
    } else {
      var f := s.inFlight[e.id];
      PrefixReserved(ops, c, n, e.id, f.fp, f.promise);
      assert CommittedBy(ops, c, e, n, f.promise);
    }
  }

  /** Where everything in a shard came from. */
  lemma {:induction false} Provenance(ops: seq<Op>, c: Config)
    ensures Explained(ops, c, StateAfter(ops, c))
  {
    hide ReservedBy, WasCommitted, Step;
    if ops != [] {
      Provenance(ops[..|ops| - 1], c);
      forall id | id in StateAfter(ops, c).inFlight
        ensures var f := StateAfter(ops, c).inFlight[id];
                ReservedBy(ops, c, id, f.fp, f.promise)
      {
        ReservationExplained(ops, c, id);
      }
      forall e | e in StateAfter(ops, c).lru ensures WasCommitted(ops, c, e) {
        EntryExplained(ops, c, e);
      }
    }
  }

  /** In every run, a hit is answered from a commit of that id and payload, strictly before its expiry. */
  lemma AnsweredCommittedWasCommitted(ops: seq<Op>, c: Config, i: nat)
    requires i < |ops| && ops[i].TryAcquire?
    requires ReplyAt(ops, i, c).Decided? && ReplyAt(ops, i, c).decision.AlreadyCommitted?
    ensures exists e ::
              && WasCommitted(ops[..i], c, e)
              && e.id == ops[i].id && e.fp == ops[i].fp
              && e.receivedAt == ReplyAt(ops, i, c).decision.receivedAt
              && ops[i].now < e.expiresAt
  {
    Provenance(ops[..i], c);
    var e := Lookup(StateAfter(ops[..i], c).lru, ops[i].id).value;
    assert WasCommitted(ops[..i], c, e);
  }
}
