/** BoundedDeduplicationCache: shards chosen by hash, capacity split among them, promises fulfilled
    after the shard's lock is released. */
module ShardedCache {
  import opened Types
  import opened DedupSpec
  import opened DedupCache
  import opened Bits
  import Ref = DedupReference

  lemma {:induction false} Pow2Grows(j: nat, k: nat)
    requires j <= k
    ensures Pow2(j) <= Pow2(k)
  {
    if j < k {
      Pow2Grows(j, k - 1);
    }
  }

  /** `r` is the least power of two that is not below `n`. */
  ghost predicate LeastPowerOfTwo(n: nat, r: nat) {
    n <= r && exists k: nat :: r == Pow2(k) && forall j: nat :: n <= Pow2(j) ==> r <= Pow2(j)
  }

  /** std::bit_ceil, by doubling. */
  function BitCeil(n: nat, p: nat := 1): (r: nat)
    requires p >= 1
    decreases n - p
  {
    if p >= n then p else BitCeil(n, 2 * p)
  }

  lemma {:induction false} BitCeilIsLeast(n: nat, k: nat)
    requires k > 0 ==> Pow2(k - 1) < n
    ensures LeastPowerOfTwo(n, BitCeil(n, Pow2(k)))
    decreases n - Pow2(k)
  {
    if Pow2(k) >= n {
      forall j: nat | n <= Pow2(j) ensures Pow2(k) <= Pow2(j) {
        if j < k {
          Pow2Grows(j, k - 1);
        } else {
          Pow2Grows(k, j);
        }
      }
    } else {
      assert Pow2(k + 1) == 2 * Pow2(k);
      BitCeilIsLeast(n, k + 1);
    }
  }

  /** The split of `capacity` among the shards, in 32-bit arithmetic. */
  function ShardCapacity(capacity: nat, shards: nat): nat
    requires shards > 0
  {
    var c := ((if capacity == 0 then 1 else capacity) + shards - 1) % UINT32 / shards;
    if c < 1 then 1 else c
  }

  lemma CapacityBound(capacity: nat, shards: nat)
    requires shards > 0
    ensures shards * ShardCapacity(capacity, shards) < (if capacity == 0 then 1 else capacity) + shards
  {
    var t := (if capacity == 0 then 1 else capacity) + shards - 1;
    var q := t % UINT32 / shards;
    assert shards * q <= t % UINT32 <= t;
  }

  /** What the 32-bit sum leaves, shared out and rounded down, but never below one. */
  ghost predicate Share(capacity: nat, shards: nat, share: nat) {
    var u := ((if capacity == 0 then 1 else capacity) + shards - 1) % UINT32;
    (u < shards && share == 1) || shards * share <= u < shards * share + shards
  }

  lemma ShardCapacityIsShare(capacity: nat, shards: nat)
    requires shards > 0
    ensures Share(capacity, shards, ShardCapacity(capacity, shards))
  {
    FloorShare(((if capacity == 0 then 1 else capacity) + shards - 1) % UINT32, shards);
  }

  lemma FloorShare(u: nat, n: nat)
    requires n > 0
    ensures n * (u / n) <= u < n * (u / n) + n && (u / n < 1 ==> u < n)
  {
    assert u == n * (u / n) + u % n;
  }

  lemma {:induction false} SmallerShare(n: nat, s: nat, share: nat)
    requires s < share
    ensures n * s <= n * share - n
    decreases share
  {
    NextShare(n, share);
    if s < share - 1 {
      SmallerShare(n, s, share - 1);
    }
  }

  lemma NextShare(n: nat, share: nat)
    requires share > 0
    ensures n * share == n * (share - 1) + n
  {
  }

  /** The shards together reach the capacity exactly when the 32-bit sum does not wrap; then the share is
      the least that does. */
  lemma ShareReachesCapacity(capacity: nat, shards: nat, share: nat)
    requires 0 < shards <= 0x8000_0000 && capacity < UINT32 && Share(capacity, shards, share)
    ensures var total := if capacity == 0 then 1 else capacity;
            && (total <= shards * share <==> total + shards <= UINT32)
            && (total + shards <= UINT32 ==> forall s: nat :: total <= shards * s ==> share <= s)
  {
    var total := if capacity == 0 then 1 else capacity;
    forall s: nat | total + shards <= UINT32 && s < share ensures shards * s < total {
      SmallerShare(shards, s, share);
    }
  }

  lemma ShareCoversCapacity(capacity: nat, shards: nat, share: nat)
    requires shards > 0 && capacity + shards <= UINT32 && Share(capacity, shards, share)
    ensures capacity <= shards * share
  {
  }

  /** A shard value some run of the reference cache explains: list and map agree, in-flight and
      committed are disjoint, and the capacity is respected. */
  ghost predicate Sound(s: Shard, capacity: nat) {
    exists r :: Ref.Refines(s, r, capacity)
  }

  ghost predicate AtHome(s: Shard, home: EventId -> nat, i: nat) {
    && (forall id :: id in s.inFlight ==> home(id) == i)
    && (forall e :: e in s.lru ==> home(e.id) == i)
  }

  lemma EmptyIsSound(capacity: nat)
    ensures Sound(EMPTY, capacity)
  {
    assert Ref.Refines(EMPTY, Ref.Ref(map[], map[], 0), capacity);
  }

  lemma SoundIsBounded(s: Shard, capacity: nat)
    requires Sound(s, capacity)
    ensures |s.lru| <= capacity
    ensures forall e :: e in s.lru ==> e.id !in s.inFlight
  {
    var r :| Ref.Refines(s, r, capacity);
    forall e | e in s.lru ensures e.id !in s.inFlight {
      EntryIsKeyed(s.lru, r.committed, r.clock, e);
    }
  }

  lemma {:induction false} EntryIsKeyed(lru: seq<Entry>, m: map<EventId, Ref.Record>, bound: nat, e: Entry)
    requires Ref.Lists(lru, m, bound) && e in lru
    ensures e.id in m
  {
    if lru[0] != e {
      assert lru == [lru[0]] + lru[1..];
      EntryIsKeyed(lru[1..], m - {lru[0].id}, m[lru[0].id].tick, e);
    }
  }

  /** Every operation on the id's own shard keeps the shard sound and the ids at home. */
  lemma StepKeepsShard(s: Shard, op: Ref.Op, ticket: nat, c: Ref.Config, home: EventId -> nat, i: nat)
    requires Sound(s, c.capacity) && AtHome(s, home, i)
    requires !op.Sweep? ==> home(op.id) == i
    ensures var s' := Ref.Step(s, op, ticket, c).0;
            Sound(s', c.capacity) && AtHome(s', home, i)
  {
    var r :| Ref.Refines(s, r, c.capacity);
    Ref.StepRefines(s, r, op, ticket, c);
    var s' := Ref.Step(s, op, ticket, c).0;
    forall e | e in s'.lru ensures home(e.id) == i {
      Ref.EntryOrigin(s, op, ticket, c, e);
    }
  }

  /** The committed entries of the first `n` shards. */
  ghost function CommittedIn(ss: seq<Shard>, n: nat): nat
    requires n <= |ss|
  {
    if n == 0 then 0 else CommittedIn(ss, n - 1) + |ss[n - 1].lru|
  }

  lemma {:induction false} CommittedInPrefix(ss: seq<Shard>, tt: seq<Shard>, n: nat)
    requires n <= |ss| && n <= |tt| && forall i :: 0 <= i < n ==> ss[i] == tt[i]
    ensures CommittedIn(ss, n) == CommittedIn(tt, n)
  {
    if n > 0 {
      CommittedInPrefix(ss, tt, n - 1);
    }
  }

  lemma {:induction false} CommittedBound(ss: seq<Shard>, n: nat, capacity: nat)
    requires n <= |ss| && forall i :: 0 <= i < |ss| ==> |ss[i].lru| <= capacity
    ensures CommittedIn(ss, n) <= n * capacity
  {
    if n > 0 {
      CommittedBound(ss, n - 1, capacity);
      assert n * capacity == (n - 1) * capacity + capacity;
    }
  }

  /** The first `n` shards have been swept, `evicted` entries are gone. */
  ghost predicate Swept(ss: seq<Shard>, tt: seq<Shard>, n: nat, now: int, evicted: nat) {
    && n <= |ss| == |tt|
    && (forall j :: 0 <= j < n ==> tt[j] == DedupSpec.EvictExpired(ss[j], now))
    && (forall j :: n <= j < |ss| ==> tt[j] == ss[j])
    && evicted == CommittedIn(ss, n) - CommittedIn(tt, n)
  }

  lemma NothingSwept(ss: seq<Shard>, now: int)
    ensures Swept(ss, ss, 0, now, 0)
  {
  }

  lemma SweptMore(ss: seq<Shard>, tt: seq<Shard>, n: nat, now: int, evicted: nat, more: nat)
    requires Swept(ss, tt, n, now, evicted) && n < |ss|
    requires more == |tt[n].lru| - |DedupSpec.EvictExpired(tt[n], now).lru|
    ensures Swept(ss, tt[n := DedupSpec.EvictExpired(tt[n], now)], n + 1, now, evicted + more)
  {
    hide DedupSpec.EvictExpired;
    CommittedInPrefix(tt, tt[n := DedupSpec.EvictExpired(tt[n], now)], n);
  }

  // ---- Promises are used once ------------------------------------------------------------------

  /** Promises in flight or fulfilled have been handed out, those in flight are not yet fulfilled, and
      no two reservations share one. */
  ghost predicate Unspent(ss: seq<Shard>, acks: map<nat, Ack>, next: nat) {
    && (forall p :: p in acks ==> p < next)
    && (forall i, a :: 0 <= i < |ss| && a in ss[i].inFlight ==>
        ss[i].inFlight[a].promise < next && ss[i].inFlight[a].promise !in acks)
    && (forall i, a, j, b ::
          0 <= i < |ss| && 0 <= j < |ss| && a in ss[i].inFlight && b in ss[j].inFlight && (i, a) != (j, b) ==>
          ss[i].inFlight[a].promise != ss[j].inFlight[b].promise)
  }

  ghost predicate NeverUsed(ss: seq<Shard>, acks: map<nat, Ack>, p: nat) {
    p !in acks && forall i, a :: 0 <= i < |ss| && a in ss[i].inFlight ==> ss[i].inFlight[a].promise != p
  }

  lemma AcquireReserves(s: Shard, id: EventId, fp: Fingerprint, now: int, next: nat)
    ensures var (s', d) := Acquire(s, id, fp, now, next);
            && (s'.inFlight == s.inFlight || (id !in s.inFlight && s'.inFlight == s.inFlight[id := InFlight(fp, next)]))
            && (d.AcquiredNewInFlight? ==> d.promise == next)
  {
  }

  lemma AcquireUnspent(ss: seq<Shard>, acks: map<nat, Ack>, next: nat, k: nat, id: EventId, fp: Fingerprint, now: int)
    requires Unspent(ss, acks, next) && k < |ss|
    ensures Unspent(ss[k := Acquire(ss[k], id, fp, now, next).0], acks, next + 1)
    ensures var d := Acquire(ss[k], id, fp, now, next).1;
            d.AcquiredNewInFlight? ==> NeverUsed(ss, acks, d.promise)
  {
    hide Acquire;
    AcquireReserves(ss[k], id, fp, now, next);
  }

  /** Releasing a reservation and fulfilling its promise: the promise was still empty. */
  lemma ReleaseUnspent(ss: seq<Shard>, acks: map<nat, Ack>, next: nat, k: nat, id: EventId, s': Shard, ack: Ack)
    requires Unspent(ss, acks, next) && k < |ss| && id in ss[k].inFlight && s'.inFlight == ss[k].inFlight - {id}
    ensures var p := ss[k].inFlight[id].promise;
            p !in acks && Unspent(ss[k := s'], acks[p := ack], next)
  {
  }

  lemma SameInFlightUnspent(ss: seq<Shard>, acks: map<nat, Ack>, next: nat, k: nat, s': Shard)
    requires Unspent(ss, acks, next) && k < |ss| && s'.inFlight == ss[k].inFlight
    ensures Unspent(ss[k := s'], acks, next)
  {
  }

  /** What every operation keeps: each shard is sound and holds only its own ids, and promises are unspent. */
  ghost predicate Inv(ss: seq<Shard>, c: Ref.Config, home: EventId -> nat, acks: map<nat, Ack>, next: nat) {
    && (forall i :: 0 <= i < |ss| ==> Sound(ss[i], c.capacity) && AtHome(ss[i], home, i))
    && Unspent(ss, acks, next)
  }

  lemma StepKeepsShards(ss: seq<Shard>, op: Ref.Op, ticket: nat, c: Ref.Config, home: EventId -> nat, k: nat,
                        acks: map<nat, Ack>, acks': map<nat, Ack>, next: nat, next': nat)
    requires Inv(ss, c, home, acks, next) && k < |ss| && (!op.Sweep? ==> home(op.id) == k)
    requires Unspent(ss[k := Ref.Step(ss[k], op, ticket, c).0], acks', next')
    ensures Inv(ss[k := Ref.Step(ss[k], op, ticket, c).0], c, home, acks', next')
  {
    hide Sound, AtHome, Unspent, Ref.Step;
    StepKeepsShard(ss[k], op, ticket, c, home, k);
  }

  lemma AcquireKeepsInv(ss: seq<Shard>, c: Ref.Config, home: EventId -> nat, acks: map<nat, Ack>, next: nat,
                        id: EventId, fp: Fingerprint, now: int)
    requires Inv(ss, c, home, acks, next) && home(id) < |ss|
    ensures Inv(ss[home(id) := Acquire(ss[home(id)], id, fp, now, next).0], c, home, acks, next + 1)
    ensures var d := Acquire(ss[home(id)], id, fp, now, next).1;
            d.AcquiredNewInFlight? ==> NeverUsed(ss, acks, d.promise)
  {
    AcquireUnspent(ss, acks, next, home(id), id, fp, now);
    StepKeepsShards(ss, Ref.TryAcquire(id, fp, now), next, c, home, home(id), acks, acks, next, next + 1);
  }

  lemma ReleaseKeepsInv(ss: seq<Shard>, op: Ref.Op, c: Ref.Config, home: EventId -> nat, acks: map<nat, Ack>, next: nat,
                        ack: Ack)
    requires Inv(ss, c, home, acks, next) && (op.MarkCommitted? || op.RollbackInFlight?) && home(op.id) < |ss|
    ensures var s := ss[home(op.id)];
            var s' := Ref.Step(s, op, 0, c).0;
            if op.id in s.inFlight then
              s.inFlight[op.id].promise !in acks &&
                Inv(ss[home(op.id) := s'], c, home, acks[s.inFlight[op.id].promise := ack], next)
            else Inv(ss[home(op.id) := s'], c, home, acks, next)
  {
    var k := home(op.id);
    var s' := Ref.Step(ss[k], op, 0, c).0;
    if op.id in ss[k].inFlight {
      ReleaseUnspent(ss, acks, next, k, op.id, s', ack);
      StepKeepsShards(ss, op, 0, c, home, k, acks, acks[ss[k].inFlight[op.id].promise := ack], next, next);
    } else {
      SameInFlightUnspent(ss, acks, next, k, s');
      StepKeepsShards(ss, op, 0, c, home, k, acks, acks, next, next);
    }
  }

  lemma SweepKeepsInv(ss: seq<Shard>, c: Ref.Config, home: EventId -> nat, acks: map<nat, Ack>, next: nat, k: nat,
                      now: int)
    requires Inv(ss, c, home, acks, next) && k < |ss|
    ensures Inv(ss[k := DedupSpec.EvictExpired(ss[k], now)], c, home, acks, next)
  {
    SameInFlightUnspent(ss, acks, next, k, DedupSpec.EvictExpired(ss[k], now));
    StepKeepsShards(ss, Ref.Sweep(now), 0, c, home, k, acks, acks, next, next);
  }

  lemma EmptyInv(ss: seq<Shard>, c: Ref.Config, home: EventId -> nat)
    requires forall i :: 0 <= i < |ss| ==> ss[i] == EMPTY
    ensures Inv(ss, c, home, map[], 0)
  {
    hide Sound;
    EmptyIsSound(c.capacity);
  }

  class BoundedDeduplicationCache {
    const ttl: int
    const capacity: nat
    const numShards: nat
    const shardCapacity: nat
    const hash: EventId -> nat
    const shards: seq<CacheShard>
    var nextPromise: nat
    var acks: map<nat, Ack>

    /** `hash & mask` with a power-of-two shard count. */
    function Home(id: EventId): (i: nat)
      requires numShards > 0
      ensures i < numShards
    {
      hash(id) % numShards
    }

    /** The shard is the number spelled by the low bits of the hash. */
    lemma HomeIsMasked(id: EventId, k: nat)
      requires numShards == Pow2(k)
      ensures Home(id) == Number(Word(k, hash(id)))
    {
      LowBits(k, hash(id));
    }

    ghost function Homes(): EventId -> nat
      requires numShards > 0
    {
      id => Home(id)
    }

    ghost function Config(): Ref.Config {
      Ref.Config(ttl, shardCapacity)
    }

    ghost function States(): (ss: seq<Shard>)
      reads shards
    {
      seq(|shards|, i requires 0 <= i < |shards| reads shards => shards[i].State())
    }

    ghost predicate Valid()
      reads this, shards
    {
      && numShards > 0 && |shards| == numShards
      && shardCapacity == ShardCapacity(capacity, numShards)
      && (forall i, j :: 0 <= i < j < |shards| ==> shards[i] != shards[j])
      && (forall i :: 0 <= i < |shards| ==> shards[i].Valid())
      && Inv(States(), Config(), Homes(), acks, nextPromise)
    }

    /** Only one shard was touched. */
    twostate lemma OneShard(k: nat)
      requires k < |shards| && forall i :: 0 <= i < |shards| && i != k ==> unchanged(shards[i])
      ensures States() == old(States())[k := shards[k].State()]
    {
    }

    constructor (capacity: nat, ttl: int, numShards: nat, hash: EventId -> nat)
      ensures Valid() && this.capacity == capacity && this.ttl == ttl && this.hash == hash
      ensures forall i :: 0 <= i < |shards| ==> fresh(shards[i]) && shards[i].State() == EMPTY
      ensures LeastPowerOfTwo(if numShards == 0 then 1 else numShards, this.numShards)
      ensures Share(capacity, this.numShards, this.shardCapacity)
      ensures capacity + this.numShards <= UINT32 ==> capacity <= this.numShards * this.shardCapacity
      ensures acks == map[] && nextPromise == 0
    {
      hide LeastPowerOfTwo, Inv, EMPTY, Share;
      this.capacity, this.ttl, this.hash := capacity, ttl, hash;
      var n := BitCeil(if numShards == 0 then 1 else numShards);
      BitCeilIsLeast(if numShards == 0 then 1 else numShards, 0);
      this.numShards := n;
      this.shardCapacity := ShardCapacity(capacity, n);
      ShardCapacityIsShare(capacity, n);
      if capacity + n <= UINT32 {
        ShareCoversCapacity(capacity, n, ShardCapacity(capacity, n));
      }
      acks, nextPromise := map[], 0;
      var made: seq<CacheShard> := [];
      for i := 0 to n
        invariant |made| == i
        invariant forall k :: 0 <= k < i ==> fresh(made[k]) && made[k].Valid() && made[k].State() == EMPTY
        invariant forall j, k :: 0 <= j < k < i ==> made[j] != made[k]
      {
        var s := new CacheShard();
        made := made + [s];
      }
      shards := made;
      new;
      EmptyInv(States(), Config(), Homes());
    }

    method TryAcquire(id: EventId, fp: Fingerprint, now: int) returns (d: Decision)
      requires Valid()
      modifies this, shards[Home(id)]
      ensures Valid() && acks == old(acks) && nextPromise == old(nextPromise) + 1
      ensures var (s', d') := Acquire(old(States())[Home(id)], id, fp, now, old(nextPromise));
              States() == old(States())[Home(id) := s'] && d == d'
      ensures d.AcquiredNewInFlight? ==> NeverUsed(old(States()), acks, d.promise)
    {
      hide Inv, Acquire, NeverUsed, ShardCapacity;
      AcquireKeepsInv(States(), Config(), Homes(), acks, nextPromise, id, fp, now);
      d := shards[Home(id)].TryAcquire(id, fp, now, nextPromise);
      nextPromise := nextPromise + 1;
      OneShard(Home(id));
    }

    /** promise.set_value: the first value stays, a second one is swallowed. */
    method Fulfil(promise: Option<nat>, ack: Ack)
      modifies this`acks
      ensures acks ==
              if promise.Some? && promise.value !in old(acks) then old(acks)[promise.value := ack] else old(acks)
    {
      if promise.Some? && promise.value !in acks {
        acks := acks[promise.value := ack];
      }
    }

    method MarkCommitted(id: EventId, receivedAt: int, now: int) returns (ghost promise: Option<nat>)
      requires Valid()
      modifies this`acks, shards[Home(id)]
      ensures Valid()
      ensures var (s', p) := Commit(old(States())[Home(id)], id, receivedAt, now, ttl, shardCapacity);
              States() == old(States())[Home(id) := s'] && promise == p
      ensures promise.Some? ==> promise.value !in old(acks)
      ensures acks ==
              if promise.Some? then old(acks)[promise.value := Ack(DuplicateCoalesced, id, receivedAt, "", "")]
              else old(acks)
    {
      hide Inv, Without, Truncated;
      var ack := Ack(DuplicateCoalesced, id, receivedAt, "", "");
      ReleaseKeepsInv(States(), Ref.MarkCommitted(id, receivedAt, now), Config(), Homes(), acks, nextPromise, ack);
      var p := shards[Home(id)].MarkCommitted(id, receivedAt, now, ttl, shardCapacity);
      Fulfil(p, ack);
      promise := p;
      OneShard(Home(id));
    }

    method RollbackInFlight(id: EventId, failure: Ack) returns (ghost promise: Option<nat>)
      requires Valid()
      modifies this`acks, shards[Home(id)]
      ensures Valid()
      ensures var (s', p) := Rollback(old(States())[Home(id)], id);
              States() == old(States())[Home(id) := s'] && promise == p
      ensures promise.Some? ==> promise.value !in old(acks)
      ensures acks == if promise.Some? then old(acks)[promise.value := failure] else old(acks)
    {
      hide Inv;
      ReleaseKeepsInv(States(), Ref.RollbackInFlight(id), Config(), Homes(), acks, nextPromise, failure);
      var p := shards[Home(id)].RollbackInFlight(id);
      Fulfil(p, failure);
      promise := p;
      OneShard(Home(id));
    }

    method SweepShard(i: nat, now: int) returns (evicted: nat)
      requires Valid() && i < numShards
      modifies shards[i]
      ensures Valid()
      ensures States() == old(States())[i := DedupSpec.EvictExpired(old(States())[i], now)]
      ensures evicted == |old(States())[i].lru| - |States()[i].lru|
    {
      hide Inv, DedupSpec.EvictExpired;
      SweepKeepsInv(States(), Config(), Homes(), acks, nextPromise, i, now);
      evicted := shards[i].EvictExpired(now);
      OneShard(i);
    }

    method EvictExpired(now: int) returns (evicted: nat)
      requires Valid()
      modifies shards
      ensures Valid()
      ensures forall i :: 0 <= i < numShards ==> States()[i] == DedupSpec.EvictExpired(old(States())[i], now)
      ensures evicted == CommittedIn(old(States()), numShards) - CommittedIn(States(), numShards)
    {
      hide Inv, DedupSpec.EvictExpired, ShardCapacity, CommittedIn;
      evicted := 0;
      ghost var before := States();
      NothingSwept(before, now);
      for i := 0 to numShards
        invariant Valid() && Swept(before, States(), i, now, evicted)
      {
        ghost var mid := States();
        var n := SweepShard(i, now);
        SweptMore(before, mid, i, now, evicted, n);
        evicted := evicted + n;
      }
    }

    /** However the ids hash, the committed entries stay below capacity + shards. */
    method CommittedCount() returns (total: nat)
      requires Valid()
      ensures total == CommittedIn(States(), numShards)
      ensures total <= numShards * shardCapacity < (if capacity == 0 then 1 else capacity) + numShards
    {
      hide Inv, ShardCapacity, Linked;
      WithinCapacity();
      total := 0;
      for i := 0 to numShards
        invariant total == CommittedIn(States(), i)
      {
        LinkedSize(shards[i].order, shards[i].node, shards[i].index, shards[i].lru);
        total := total + |shards[i].index|;
      }
    }

    lemma WithinCapacity()
      requires Valid()
      ensures CommittedIn(States(), numShards) <= numShards * shardCapacity
      ensures numShards * shardCapacity < (if capacity == 0 then 1 else capacity) + numShards
    {
      forall i | 0 <= i < numShards ensures |States()[i].lru| <= shardCapacity {
        SoundIsBounded(States()[i], shardCapacity);
      }
      CommittedBound(States(), numShards, shardCapacity);
      CapacityBound(capacity, numShards);
    }
  }
}
