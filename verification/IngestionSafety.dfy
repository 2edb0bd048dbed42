/** What every step of the ingestion protocol keeps, and what follows for whole runs. */
module IngestionSafety {
  import opened Types
  import opened DedupSpec
  import opened IngestionProtocol

  ghost predicate Sized(w: Cache, s: State) {
    |s.shards| == w.shards
  }

  /** The reservation of an id, if it is in flight. */
  ghost function Held(w: Cache, s: State, id: EventId): Option<InFlight>
    requires Sized(w, s)
  {
    var m := s.shards[Home(w, id)].inFlight;
    if id in m then Some(m[id]) else None
  }

  /** How many of its promises a call has fulfilled, and how many reservations it has given up. */
  ghost function Fulfilled(c: Call): nat {
    match c.pc
    case Acquiring(_) => 0
    case Writing => 0
    case Acking(j) => j
    case Fulfilling(j, _) => j
    case Waiting(_) => |c.owned|
    case Returned => |c.owned|
    case Unwound => if c.guarded then |c.owned| else 0
  }

  ghost function Released(c: Call): nat {
    Fulfilled(c) + if c.pc.Fulfilling? then 1 else 0
  }

  ghost predicate OwnedOk(s: State, i: nat, c: Call) {
    forall x :: 0 <= x < |c.owned| ==>
      && c.owned[x].promise < |s.promises|
      && s.promises[c.owned[x].promise] == Slot(i, c.owned[x].item, x)
  }

  ghost predicate WaitsOk(s: State, c: Call) {
    forall x :: 0 <= x < |c.waits| ==>
      && c.waits[x].promise < |s.promises|
      && s.promises[c.waits[x].promise].item.id == c.waits[x].item.id
      && s.promises[c.waits[x].promise].item.fp == c.waits[x].item.fp
  }

  ghost predicate PcOk(c: Call) {
    && (c.guarded ==> |c.items| <= 1) && (c.pc.Acquiring? ==> |c.owned| <= c.pc.next)
    && (c.pc.Acking? ==> c.pc.next <= |c.owned|)
    && (c.pc.Fulfilling? ==> c.pc.next < |c.owned| && c.pc.promise == c.owned[c.pc.next].promise)
    && (Released(c) > 0 || c.pc.Acking? ==> c.outcome.Some?)
    && (c.pc.Acquiring? || c.pc.Writing? ==> c.outcome.None?)
    && (c.outcome == Some(Threw) ==> c.guarded && (c.pc.Acking? || c.pc.Fulfilling? || c.pc.Unwound?))
  }

  /** What a committed write of an item leaves behind: the id, the payload and the time of receipt. */
  function Stored(item: Item): (EventId, Fingerprint, int) {
    (item.id, item.fp, item.receivedAt)
  }

  /** A success reports on an event that is durable with that payload and time of receipt. */
  ghost predicate Backed(s: State, r: ItemResult) {
    r.receivedAt.Some? && (r.id, r.fp, r.receivedAt.value) in s.durable
  }

  ghost predicate OutcomeOk(s: State, c: Call) {
    c.outcome == Some(Committed) ==>
      forall x :: 0 <= x < |c.owned| ==> Stored(c.owned[x].item) in s.durable
  }

  /** Acknowledged implies durable, for one call. */
  ghost predicate ResultsOk(s: State, c: Call) {
    forall x :: 0 <= x < |c.results| && c.results[x].success ==> Backed(s, c.results[x])
  }

  ghost predicate CallOk(s: State, i: nat, c: Call) {
    OwnedOk(s, i, c) && WaitsOk(s, c) && PcOk(c) && OutcomeOk(s, c) && ResultsOk(s, c)
  }

  ghost predicate SlotOk(w: Cache, s: State, p: nat)
    requires Sized(w, s) && p < |s.promises|
  {
    var Slot(i, item, pos) := s.promises[p];
    && i in s.calls
    && pos < |s.calls[i].owned| && s.calls[i].owned[pos] == Owned(p, item)
    && (p in s.acks <==> pos < Fulfilled(s.calls[i]))
    && (p in s.acks ==> s.calls[i].outcome.Some? && s.acks[p] == AckFor(s.calls[i].outcome.value, item))
    && (Held(w, s, item.id) == Some(InFlight(item.fp, p)) <==> pos >= Released(s.calls[i]))
  }

  ghost predicate HeldOk(w: Cache, s: State, id: EventId)
    requires Sized(w, s)
  {
    var f := Held(w, s, id);
    f.Some? ==>
      && f.value.promise < |s.promises|
      && s.promises[f.value.promise].item.id == id && s.promises[f.value.promise].item.fp == f.value.fp
  }

  ghost predicate StoreOk(s: State, h: nat)
    requires h < |s.shards|
  {
    forall e :: e in s.shards[h].lru ==> (e.id, e.fp, e.receivedAt) in s.durable
  }

  ghost predicate Inv(w: Cache, s: State) {
    && Sized(w, s)
    && (forall i :: i in s.calls ==> CallOk(s, i, s.calls[i]))
    && (forall p: nat :: p < |s.promises| ==> SlotOk(w, s, p))
    && (forall p :: p in s.acks ==> p < |s.promises|)
    && (forall id :: HeldOk(w, s, id))
    && (forall h: nat :: h < |s.shards| ==> StoreOk(s, h))
  }

  // ---- Steps that only touch the call's own variables ------------------------------------------

  /** `s'` is `s` with call `i` replaced, nothing shared changed but the durable set. */
  ghost predicate Local(s: State, s': State, i: nat, c': Call) {
    && s' == s.(calls := s.calls[i := c'], durable := s'.durable)
    && s.durable <= s'.durable
    && (if i in s.calls then
          var c := s.calls[i];
          && c'.owned == c.owned && Fulfilled(c') == Fulfilled(c) && Released(c') == Released(c)
          && (c'.outcome == c.outcome || Fulfilled(c) == 0)
        else c'.owned == [])
  }

  lemma LocalSlot(w: Cache, s: State, s': State, i: nat, c': Call, p: nat)
    requires Sized(w, s) && Local(s, s', i, c') && p < |s.promises| && SlotOk(w, s, p)
    ensures SlotOk(w, s', p)
  {
    assert Held(w, s', s.promises[p].item.id) == Held(w, s, s.promises[p].item.id);
  }

  lemma CallFrame(s: State, s': State, i: nat, c: Call)
    requires CallOk(s, i, c) && s.durable <= s'.durable && s.promises <= s'.promises
    ensures CallOk(s', i, c)
  {
  }

  lemma LocalKeepsInv(w: Cache, s: State, s': State, i: nat, c': Call)
    requires Inv(w, s) && Local(s, s', i, c') && CallOk(s', i, c')
    ensures Inv(w, s')
  {
    forall k | k in s'.calls ensures CallOk(s', k, s'.calls[k]) {
      if k != i {
        CallFrame(s, s', k, s.calls[k]);
      }
    }
    forall p: nat | p < |s'.promises| ensures SlotOk(w, s', p) {
      LocalSlot(w, s, s', i, c', p);
    }
    forall id ensures HeldOk(w, s', id) {
      assert HeldOk(w, s, id);
    }
    forall h: nat | h < |s'.shards| ensures StoreOk(s', h) {
      assert StoreOk(s, h);
    }
  }

  // ---- Steps that drop or reorder committed entries --------------------------------------------

  ghost predicate Trimmed(s: State, s': State) {
    && s' == s.(shards := s'.shards) && |s'.shards| == |s.shards|
    && forall h: nat :: h < |s.shards| ==>
         && s'.shards[h].inFlight == s.shards[h].inFlight
         && forall e :: e in s'.shards[h].lru ==> e in s.shards[h].lru
  }

  lemma TrimKeepsInv(w: Cache, s: State, s': State)
    requires Inv(w, s) && Trimmed(s, s')
    ensures Inv(w, s')
  {
    forall k | k in s'.calls ensures CallOk(s', k, s'.calls[k]) {
      CallFrame(s, s', k, s.calls[k]);
    }
    forall p: nat | p < |s'.promises| ensures SlotOk(w, s', p) {
      assert SlotOk(w, s, p);
      assert Held(w, s', s.promises[p].item.id) == Held(w, s, s.promises[p].item.id);
    }
    forall id ensures HeldOk(w, s', id) {
      assert HeldOk(w, s, id) && Held(w, s', id) == Held(w, s, id);
    }
    forall h: nat | h < |s'.shards| ensures StoreOk(s', h) {
      assert StoreOk(s, h);
    }
  }

  lemma SweepKeepsInv(w: Cache, s: State, k: nat, now: int)
    requires Inv(w, s) && k < |s.shards|
    ensures Inv(w, s.(shards := s.shards[k := EvictExpired(s.shards[k], now)]))
  {
    var s' := s.(shards := s.shards[k := EvictExpired(s.shards[k], now)]);
    forall e | e in s'.shards[k].lru ensures e in s.shards[k].lru {
      UnexpiredSelects(s.shards[k].lru, now, e);
    }
    TrimKeepsInv(w, s, s');
  }

  // ---- try_acquire -----------------------------------------------------------------------------

  lemma AcquireEffect(sh: Shard, id: EventId, fp: Fingerprint, now: int, t: nat)
    ensures var (sh', d) := Acquire(sh, id, fp, now, t);
            && (forall e :: e in sh'.lru ==> e in sh.lru)
            && (sh'.inFlight == if d.AcquiredNewInFlight? then sh.inFlight[id := InFlight(fp, t)] else sh.inFlight)
            && (d.AcquiredNewInFlight? ==> d.promise == t && id !in sh.inFlight)
            && (d.CoalescedInFlight? ==> id in sh.inFlight && sh.inFlight[id] == InFlight(fp, d.promise))
            && (d.AlreadyCommitted? ==> exists e :: e in sh.lru && e.id == id && e.fp == fp)
  {
    var (sh', d) := Acquire(sh, id, fp, now, t);
    forall e | e in sh'.lru ensures e in sh.lru {
      WithoutSelects(sh.lru, id, e);
    }
  }

  /** A new reservation: one id becomes held, one slot and one owned item are added. */
  ghost predicate Reserves(w: Cache, s: State, s': State, i: nat, item: Item)
    requires Sized(w, s) && i in s.calls
  {
    var c, h, p := s.calls[i], Home(w, item.id), |s.promises|;
    && i in s'.calls
    && s'.calls == s.calls[i := c.(pc := s'.calls[i].pc, owned := c.owned + [Owned(p, item)])]
    && s'.calls[i].pc.Acquiring? && c.pc.Acquiring? && s'.calls[i].pc.next == c.pc.next + 1
    && s'.promises == s.promises + [Slot(i, item, |c.owned|)]
    && s'.shards == s.shards[h := s.shards[h].(inFlight := s.shards[h].inFlight[item.id := InFlight(item.fp, p)])]
    && s'.acks == s.acks && s'.durable == s.durable
  }

  lemma ReserveHeld(w: Cache, s: State, s': State, i: nat, item: Item, id: EventId)
    requires Sized(w, s) && i in s.calls && Reserves(w, s, s', i, item)
    ensures Sized(w, s')
    ensures Held(w, s', id) == if id == item.id then Some(InFlight(item.fp, |s.promises|)) else Held(w, s, id)
  {
  }

  lemma ReserveSlot(w: Cache, s: State, s': State, i: nat, item: Item, p: nat)
    requires Sized(w, s) && i in s.calls && s.calls[i].pc.Acquiring? && Reserves(w, s, s', i, item)
    requires Held(w, s, item.id).None? && p < |s.promises| && SlotOk(w, s, p)
    ensures Sized(w, s') && SlotOk(w, s', p)
  {
    ReserveHeld(w, s, s', i, item, s.promises[p].item.id);
  }

  lemma ReserveCall(w: Cache, s: State, s': State, i: nat, item: Item)
    requires Inv(w, s) && i in s.calls && s.calls[i].pc.Acquiring? && Reserves(w, s, s', i, item)
    requires s.calls[i].outcome.None?
    ensures CallOk(s', i, s'.calls[i])
  {
    CallFrame(s, s', i, s.calls[i]);
  }

  lemma ReserveKeepsInv(w: Cache, s: State, s': State, i: nat, item: Item)
    requires Inv(w, s) && i in s.calls && s.calls[i].pc.Acquiring? && Reserves(w, s, s', i, item)
    requires Held(w, s, item.id).None? && s.calls[i].outcome.None?
    ensures Inv(w, s')
  {
    ReserveCall(w, s, s', i, item);
    forall k | k in s'.calls ensures CallOk(s', k, s'.calls[k]) {
      if k != i {
        CallFrame(s, s', k, s.calls[k]);
      }
    }
    forall p: nat | p < |s'.promises| ensures SlotOk(w, s', p) {
      if p < |s.promises| {
        ReserveSlot(w, s, s', i, item, p);
      } else {
        ReserveHeld(w, s, s', i, item, item.id);
      }
    }
    forall id ensures HeldOk(w, s', id) {
      ReserveHeld(w, s, s', i, item, id);
      assert HeldOk(w, s, id);
    }
    forall h: nat | h < |s'.shards| ensures StoreOk(s', h) {
      assert StoreOk(s, h);
    }
  }

  // ---- mark_committed / rollback_in_flight, locked part ----------------------------------------

  /** The reservation of owned[j] is given up; a committed entry may appear for it. */
  ghost predicate Releases(w: Cache, s: State, s': State, i: nat)
    requires Sized(w, s) && i in s.calls && s.calls[i].pc.Acking? && s.calls[i].pc.next < |s.calls[i].owned|
  {
    var c := s.calls[i];
    var j := c.pc.next;
    var Owned(p, item) := c.owned[j];
    var h := Home(w, item.id);
    && s' == s.(calls := s.calls[i := c.(pc := Fulfilling(j, p))], shards := s'.shards)
    && |s'.shards| == |s.shards|
    && s'.shards == s.shards[h := s'.shards[h]]
    && s'.shards[h].inFlight == s.shards[h].inFlight - {item.id}
    && (forall e :: e in s'.shards[h].lru ==>
        || e in s.shards[h].lru
        || ((e.id, e.fp, e.receivedAt) == Stored(item) && c.outcome == Some(Committed)))
  }

  lemma ReleaseHeld(w: Cache, s: State, s': State, i: nat, id: EventId)
    requires Sized(w, s) && i in s.calls && s.calls[i].pc.Acking? && s.calls[i].pc.next < |s.calls[i].owned|
    requires Releases(w, s, s', i)
    ensures Sized(w, s')
    ensures Held(w, s', id) == if id == s.calls[i].owned[s.calls[i].pc.next].item.id then None else Held(w, s, id)
  {
  }

  lemma ReleaseSlot(w: Cache, s: State, s': State, i: nat, p: nat)
    requires Sized(w, s) && i in s.calls && s.calls[i].pc.Acking? && s.calls[i].pc.next < |s.calls[i].owned|
    requires Releases(w, s, s', i) && CallOk(s, i, s.calls[i])
    requires SlotOk(w, s, s.calls[i].owned[s.calls[i].pc.next].promise)
    requires p < |s.promises| && SlotOk(w, s, p)
    ensures Sized(w, s') && SlotOk(w, s', p)
  {
    var c := s.calls[i];
    ReleaseHeld(w, s, s', i, s.promises[p].item.id);
    var q := c.owned[c.pc.next];
    assert Held(w, s, q.item.id) == Some(InFlight(q.item.fp, q.promise));
  }

  lemma ReleaseStore(w: Cache, s: State, s': State, i: nat, h: nat)
    requires Inv(w, s) && i in s.calls && s.calls[i].pc.Acking? && s.calls[i].pc.next < |s.calls[i].owned|
    requires Releases(w, s, s', i) && h < |s'.shards|
    ensures StoreOk(s', h)
  {
    assert CallOk(s, i, s.calls[i]);
    assert StoreOk(s, h);
  }

  lemma ReleaseKeepsInv(w: Cache, s: State, s': State, i: nat)
    requires Inv(w, s) && i in s.calls && s.calls[i].pc.Acking? && s.calls[i].pc.next < |s.calls[i].owned|
    requires s.calls[i].outcome.Some? && Releases(w, s, s', i)
    ensures Inv(w, s')
  {
    assert CallOk(s, i, s.calls[i]);
    CallFrame(s, s', i, s.calls[i]);
    forall k | k in s'.calls ensures CallOk(s', k, s'.calls[k]) {
      if k != i {
        CallFrame(s, s', k, s.calls[k]);
      }
    }
    forall p: nat | p < |s'.promises| ensures SlotOk(w, s', p) {
      assert SlotOk(w, s, s.calls[i].owned[s.calls[i].pc.next].promise);
      ReleaseSlot(w, s, s', i, p);
    }
    forall id ensures HeldOk(w, s', id) {
      ReleaseHeld(w, s, s', i, id);
      assert HeldOk(w, s, id);
    }
    forall h: nat | h < |s'.shards| ensures StoreOk(s', h) {
      ReleaseStore(w, s, s', i, h);
    }
  }

  // ---- set_value -------------------------------------------------------------------------------

  lemma FulfilSlot(w: Cache, s: State, i: nat, p: nat)
    requires Inv(w, s) && Enabled(w, s, AckFulfil(i)) && p < |s.promises|
    ensures SlotOk(w, DoAckFulfil(w, s, i), p)
  {
    hide HeldOk, StoreOk, WaitsOk, OutcomeOk, ResultsOk;
    var c, s' := s.calls[i], DoAckFulfil(w, s, i);
    assert CallOk(s, i, c);
    assert SlotOk(w, s, p) && SlotOk(w, s, c.pc.promise);
    assert Held(w, s', s.promises[p].item.id) == Held(w, s, s.promises[p].item.id);
  }

  lemma FulfilKeepsInv(w: Cache, s: State, i: nat)
    requires Inv(w, s) && Enabled(w, s, AckFulfil(i))
    ensures Inv(w, DoAckFulfil(w, s, i))
  {
    var c, s' := s.calls[i], DoAckFulfil(w, s, i);
    assert CallOk(s, i, c);
    CallFrame(s, s', i, c);
    forall k | k in s'.calls ensures CallOk(s', k, s'.calls[k]) {
      if k != i {
        CallFrame(s, s', k, s.calls[k]);
      }
    }
    forall p: nat | p < |s'.promises| ensures SlotOk(w, s', p) {
      FulfilSlot(w, s, i, p);
    }
    forall id ensures HeldOk(w, s', id) {
      assert HeldOk(w, s, id);
    }
    forall h: nat | h < |s'.shards| ensures StoreOk(s', h) {
      assert StoreOk(s, h);
    }
  }

  // ---- Each step -------------------------------------------------------------------------------

  lemma {:induction false} RejectAllShape(c: Call, n: nat)
    requires n <= |c.items| && c.results == []
    ensures var r := RejectAll(c, n);
            && r.pc == c.pc && r.owned == c.owned && r.waits == c.waits && r.outcome == c.outcome
            && r.guarded == c.guarded
            && r.items == c.items
            && forall x :: 0 <= x < |r.results| ==> !r.results[x].success
  {
    if n > 0 {
      RejectAllShape(c, n - 1);
    }
  }

  lemma BeginKeepsInv(w: Cache, s: State, i: nat, guarded: bool, items: seq<Item>, now: int)
    requires Inv(w, s) && i !in s.calls && (guarded ==> |items| == 1)
    ensures Inv(w, SetCall(s, i, Start(guarded, items, now)))
  {
    var c := Call(guarded, items, now, Acquiring(0), [], [], None, [], 0, 0, []);
    RejectAllShape(c, |items|);
    LocalKeepsInv(w, s, SetCall(s, i, Start(guarded, items, now)), i, Start(guarded, items, now));
  }

  /** Adding one result keeps a call in order when success comes with durability. */
  lemma ResultKeepsCall(s: State, i: nat, c: Call, c': Call, r: ItemResult)
    requires CallOk(s, i, c) && (r.success ==> Backed(s, r))
    requires c'.owned == c.owned && c'.waits == c.waits && c'.outcome == c.outcome && c'.results == c.results + [r]
    requires PcOk(c')
    ensures CallOk(s, i, c')
  {
  }

  lemma AcquireNewKeepsInv(w: Cache, s: State, i: nat)
    requires Inv(w, s) && Enabled(w, s, AcquireNext(i, true))
    requires var c := s.calls[i];
             var item := c.items[c.pc.next];
             Acquire(s.shards[Home(w, item.id)], item.id, item.fp, c.now, |s.promises|).1.AcquiredNewInFlight?
    ensures Inv(w, DoAcquire(w, s, i, true))
  {
    var c, s' := s.calls[i], DoAcquire(w, s, i, true);
    var item := c.items[c.pc.next];
    var h := Home(w, item.id);
    var shard := Acquire(s.shards[h], item.id, item.fp, c.now, |s.promises|).0;
    AcquireEffect(s.shards[h], item.id, item.fp, c.now, |s.promises|);
    var s1 := s.(shards := s.shards[h := s.shards[h].(lru := shard.lru)]);
    TrimKeepsInv(w, s, s1);
    assert CallOk(s1, i, c);
    ReserveKeepsInv(w, s1, s', i, item);
  }

  lemma InvalidKeepsInv(w: Cache, s: State, i: nat)
    requires Inv(w, s) && Enabled(w, s, AcquireNext(i, false))
    ensures Inv(w, DoAcquire(w, s, i, false))
  {
    hide SlotOk, HeldOk, StoreOk;
    var c, s' := s.calls[i], DoAcquire(w, s, i, false);
    var item := c.items[c.pc.next];
    assert CallOk(s, i, c);
    var r := ItemResult(item.id, item.fp, false, ValidationRejected, None, "INVALID_ARGUMENT");
    ResultKeepsCall(s', i, c, s'.calls[i], r);
    LocalKeepsInv(w, s, s', i, s'.calls[i]);
  }

  /** An answer that reserves nothing: at most committed entries go, and the call notes the answer. */
  lemma AnsweredKeepsInv(w: Cache, s: State, i: nat)
    requires Inv(w, s) && Enabled(w, s, AcquireNext(i, true))
    requires var c := s.calls[i];
             var item := c.items[c.pc.next];
             !Acquire(s.shards[Home(w, item.id)], item.id, item.fp, c.now, |s.promises|).1.AcquiredNewInFlight?
    ensures Inv(w, DoAcquire(w, s, i, true))
  {
    hide SlotOk, HeldOk, StoreOk, Acquire;
    var c, s' := s.calls[i], DoAcquire(w, s, i, true);
    var item := c.items[c.pc.next];
    var h := Home(w, item.id);
    var (shard, d) := Acquire(s.shards[h], item.id, item.fp, c.now, |s.promises|);
    AcquireEffect(s.shards[h], item.id, item.fp, c.now, |s.promises|);
    var s1 := s.(shards := s.shards[h := shard]);
    TrimKeepsInv(w, s, s1);
    DecideKeepsCall(w, s, i, item, d, shard);
    LocalKeepsInv(w, s1, s', i, s'.calls[i]);
  }

  lemma AcquireKeepsInv(w: Cache, s: State, i: nat, valid: bool)
    requires Inv(w, s) && Enabled(w, s, AcquireNext(i, valid))
    ensures Inv(w, DoAcquire(w, s, i, valid))
  {
    hide Inv, DoAcquire;
    var c := s.calls[i];
    var item := c.items[c.pc.next];
    if !valid {
      InvalidKeepsInv(w, s, i);
    } else if Acquire(s.shards[Home(w, item.id)], item.id, item.fp, c.now, |s.promises|).1.AcquiredNewInFlight? {
      AcquireNewKeepsInv(w, s, i);
    } else {
      AnsweredKeepsInv(w, s, i);
    }
  }

  lemma DecideKeepsCall(w: Cache, s: State, i: nat, item: Item, d: Decision, shard: Shard)
    requires Inv(w, s) && i in s.calls && s.calls[i].pc.Acquiring? && !d.AcquiredNewInFlight?
    requires (shard, d) == Acquire(s.shards[Home(w, item.id)], item.id, item.fp, s.calls[i].now, |s.promises|)
    ensures var c := s.calls[i];
            CallOk(s, i, Decide(c.(pc := Acquiring(c.pc.next + 1)), item, d))
  {
    var c, h := s.calls[i], Home(w, item.id);
    AcquireEffect(s.shards[h], item.id, item.fp, c.now, |s.promises|);
    assert CallOk(s, i, c);
    if d.AlreadyCommitted? {
      assert StoreOk(s, h);
    } else if d.CoalescedInFlight? {
      assert HeldOk(w, s, item.id);
    }
  }

  lemma AcquireThrowsKeepsInv(w: Cache, s: State, i: nat)
    requires Inv(w, s) && Enabled(w, s, AcquireThrows(i))
    ensures Inv(w, Apply(w, s, AcquireThrows(i)))
  {
    var c, s' := s.calls[i], Apply(w, s, AcquireThrows(i));
    assert CallOk(s, i, c);
    CallFrame(s, s', i, c);
    LocalKeepsInv(w, s, s', i, s'.calls[i]);
  }

  lemma WriteKeepsInv(w: Cache, s: State, i: nat, r: Outcome)
    requires Inv(w, s) && Enabled(w, s, WriteReturns(i, r))
    ensures Inv(w, DoWriteReturns(s, i, r))
  {
    var c, s' := s.calls[i], DoWriteReturns(s, i, r);
    CallFrame(s, s', i, c);
    LocalKeepsInv(w, s, s', i, s'.calls[i]);
  }

  lemma ThrowKeepsInv(w: Cache, s: State, i: nat)
    requires Inv(w, s) && Enabled(w, s, WriteThrows(i))
    ensures Inv(w, DoWriteThrows(s, i))
  {
    var c, s' := s.calls[i], DoWriteThrows(s, i);
    CallFrame(s, s', i, c);
    LocalKeepsInv(w, s, s', i, s'.calls[i]);
  }

  lemma ReleaseEffect(sh: Shard, item: Item, now: int, ttl: int, capacity: nat)
    requires item.id in sh.inFlight && sh.inFlight[item.id].fp == item.fp
    ensures var (sh', p) := Commit(sh, item.id, item.receivedAt, now, ttl, capacity);
            && sh'.inFlight == sh.inFlight - {item.id} && p == Some(sh.inFlight[item.id].promise)
            && forall e :: e in sh'.lru ==> e in sh.lru || (e.id, e.fp, e.receivedAt) == Stored(item)
  {
    var (sh', p) := Commit(sh, item.id, item.receivedAt, now, ttl, capacity);
    forall e | e in sh'.lru ensures e in sh.lru || (e.id, e.fp, e.receivedAt) == Stored(item) {
      WithoutSelects(sh.lru, item.id, e);
    }
  }

  lemma AckLockReleases(w: Cache, s: State, i: nat)
    requires Inv(w, s) && Enabled(w, s, AckLock(i))
    ensures Releases(w, s, DoAckLock(w, s, i), i)
  {
    hide Commit, Stored, HeldOk, StoreOk;
    var c := s.calls[i];
    var o := c.owned[c.pc.next];
    assert CallOk(s, i, c);
    assert SlotOk(w, s, o.promise);
    assert Held(w, s, o.item.id) == Some(InFlight(o.item.fp, o.promise));
    ReleaseEffect(s.shards[Home(w, o.item.id)], o.item, c.now, w.ttl, w.capacity);
  }

  lemma {:induction false} ReportKeepsCall(s: State, i: nat, c: Call, o: Outcome, n: nat)
    requires n <= |c.owned| && CallOk(s, i, c) && c.outcome == Some(o) && c.pc.Acking?
    ensures CallOk(s, i, Report(c, o, n))
    ensures Report(c, o, n).(results := c.results, accepted := c.accepted, rejected := c.rejected,
                             rejectedIds := c.rejectedIds) == c
  {
    if n > 0 {
      ReportKeepsCall(s, i, c, o, n - 1);
      var item := c.owned[n - 1].item;
      var r := Report(c, o, n);
      ResultKeepsCall(s, i, Report(c, o, n - 1), r, r.results[|r.results| - 1]);
    }
  }

  lemma DoneKeepsInv(w: Cache, s: State, i: nat)
    requires Inv(w, s) && Enabled(w, s, AckDone(i))
    ensures Inv(w, Apply(w, s, AckDone(i)))
  {
    hide SlotOk, HeldOk, StoreOk, Report;
    var c, s' := s.calls[i], Apply(w, s, AckDone(i));
    assert CallOk(s, i, c);
    ReportKeepsCall(s, i, c, c.outcome.value, |c.owned|);
    CallFrame(s, s', i, Report(c, c.outcome.value, |c.owned|));
    LocalKeepsInv(w, s, s', i, s'.calls[i]);
  }

  /** A waiter that reads success reads it from an owner whose write of that id and payload committed. */
  lemma AckMeansDurable(w: Cache, s: State, i: nat, x: Owned)
    requires Inv(w, s) && i in s.calls && x in s.calls[i].waits && x.promise in s.acks && IsOk(s.acks[x.promise])
    ensures (x.item.id, x.item.fp, s.acks[x.promise].receivedAt) in s.durable
  {
    assert CallOk(s, i, s.calls[i]);
    assert SlotOk(w, s, x.promise);
    var Slot(k, item, pos) := s.promises[x.promise];
    assert CallOk(s, k, s.calls[k]);
  }

  lemma InvCall(w: Cache, s: State, i: nat)
    requires Inv(w, s) && i in s.calls
    ensures CallOk(s, i, s.calls[i])
  {
  }

  lemma WaitKeepsInv(w: Cache, s: State, step: Step)
    requires Inv(w, s) && Enabled(w, s, step) && (step.WaitReady? || step.WaitTimeout?)
    ensures Inv(w, Apply(w, s, step))
  {
    hide Inv, Acquire, Commit, Rollback, EvictExpired, Start, Decide;
    var i := step.call;
    var c, s' := s.calls[i], Apply(w, s, step);
    InvCall(w, s, i);
    var x := c.waits[c.pc.next];
    if step.WaitReady? && IsOk(s.acks[x.promise]) {
      AckMeansDurable(w, s, i, x);
    }
    ResultKeepsCall(s, i, c, s'.calls[i], s'.calls[i].results[|c.results|]);
    LocalKeepsInv(w, s, s', i, s'.calls[i]);
  }

  lemma FinishKeepsInv(w: Cache, s: State, i: nat)
    requires Inv(w, s) && Enabled(w, s, Finish(i))
    ensures Inv(w, Apply(w, s, Finish(i)))
  {
    var c, s' := s.calls[i], Apply(w, s, Finish(i));
    assert CallOk(s, i, c);
    CallFrame(s, s', i, c);
    LocalKeepsInv(w, s, s', i, s'.calls[i]);
  }

  /** Every step of every call keeps the invariant. */
  lemma StepKeepsInv(w: Cache, s: State, step: Step)
    requires Inv(w, s) && Enabled(w, s, step)
    ensures Inv(w, Apply(w, s, step))
  {
    match step
    case Begin(i, guarded, items, now) => BeginKeepsInv(w, s, i, guarded, items, now);
    case AcquireNext(i, valid) => AcquireKeepsInv(w, s, i, valid);
    case AcquireThrows(i) => AcquireThrowsKeepsInv(w, s, i);
    case WriteReturns(i, r) => WriteKeepsInv(w, s, i, r);
    case WriteThrows(i) => ThrowKeepsInv(w, s, i);
    case AckLock(i) =>
      AckLockReleases(w, s, i);
      ReleaseKeepsInv(w, s, DoAckLock(w, s, i), i);
    case AckFulfil(i) => FulfilKeepsInv(w, s, i);
    case AckDone(i) => DoneKeepsInv(w, s, i);
    case WaitReady(i) => WaitKeepsInv(w, s, step);
    case WaitTimeout(i) => WaitKeepsInv(w, s, step);
    case Finish(i) => FinishKeepsInv(w, s, i);
    case Sweep(k, now) => SweepKeepsInv(w, s, k, now);
  }

  lemma {:induction false} RunKeepsInv(w: Cache, run: seq<State>, steps: seq<Step>, k: nat)
    requires IsRun(w, run, steps) && k < |run|
    ensures Inv(w, run[k])
  {
    if k > 0 {
      RunKeepsInv(w, run, steps, k - 1);
      StepKeepsInv(w, run[k - 1], steps[k - 1]);
    }
  }

  // ---- What follows for every run --------------------------------------------------------------

  /** A success result, whether new, already committed or coalesced, is backed by a write of that id
      and payload for which the repository had already returned Committed. */
  lemma AcknowledgedIsDurable(w: Cache, run: seq<State>, steps: seq<Step>, k: nat, i: nat, x: nat)
    requires IsRun(w, run, steps) && k < |run| && i in run[k].calls
    requires x < |run[k].calls[i].results| && run[k].calls[i].results[x].success
    ensures exists j: nat ::
              && j < k && steps[j].WriteReturns? && steps[j].result.Committed?
              && Wrote(run[j], steps[j].call, run[k].calls[i].results[x])
  {
    RunKeepsInv(w, run, steps, k);
    assert CallOk(run[k], i, run[k].calls[i]);
    DurableWasWritten(w, run, steps, k, run[k].calls[i].results[x]);
  }

  /** Call `c` is writing the event that `r` reports on. */
  ghost predicate Wrote(s: State, c: nat, r: ItemResult) {
    c in s.calls &&
    exists o :: o in s.calls[c].owned && o.item.id == r.id && o.item.fp == r.fp &&
                r.receivedAt == Some(o.item.receivedAt)
  }

  lemma {:induction false} DurableWasWritten(w: Cache, run: seq<State>, steps: seq<Step>, k: nat, r: ItemResult)
    requires IsRun(w, run, steps) && k < |run| && Backed(run[k], r)
    ensures exists j: nat ::
              j < k && steps[j].WriteReturns? && steps[j].result.Committed? && Wrote(run[j], steps[j].call, r)
  {
    assert k > 0;
    if Backed(run[k - 1], r) {
      DurableWasWritten(w, run, steps, k - 1, r);
    } else {
      DurableGrows(w, run[k - 1], steps[k - 1], r);
    }
  }

  lemma DurableGrows(w: Cache, s: State, step: Step, r: ItemResult)
    requires Enabled(w, s, step) && Backed(Apply(w, s, step), r)
    ensures Backed(s, r) || (step.WriteReturns? && step.result.Committed? && Wrote(s, step.call, r))
  {
  }

  /** At any time an id in flight is reserved by exactly one position of exactly one call. */
  lemma OneOwner(w: Cache, run: seq<State>, steps: seq<Step>, k: nat, i: nat, x: nat, j: nat, y: nat)
    requires IsRun(w, run, steps) && k < |run|
    requires i in run[k].calls && j in run[k].calls
    requires Released(run[k].calls[i]) <= x < |run[k].calls[i].owned|
    requires Released(run[k].calls[j]) <= y < |run[k].calls[j].owned|
    requires run[k].calls[i].owned[x].item.id == run[k].calls[j].owned[y].item.id
    ensures i == j && x == y
  {
    RunKeepsInv(w, run, steps, k);
    var s := run[k];
    assert CallOk(s, i, s.calls[i]) && CallOk(s, j, s.calls[j]);
    assert SlotOk(w, s, s.calls[i].owned[x].promise) && SlotOk(w, s, s.calls[j].owned[y].promise);
  }

  /** So no write holds an id twice. */
  lemma WrittenIdsAreDistinct(w: Cache, run: seq<State>, steps: seq<Step>, k: nat, i: nat, x: nat, y: nat)
    requires IsRun(w, run, steps) && k < |run| && i in run[k].calls && run[k].calls[i].pc.Writing?
    requires x < y < |run[k].calls[i].owned|
    ensures run[k].calls[i].owned[x].item.id != run[k].calls[i].owned[y].item.id
  {
    if run[k].calls[i].owned[x].item.id == run[k].calls[i].owned[y].item.id {
      OneOwner(w, run, steps, k, i, x, i, y);
    }
  }

  /** Every set_value finds its promise empty, and a fulfilled promise keeps its value for ever. */
  lemma FulfilledOnce(w: Cache, run: seq<State>, steps: seq<Step>, k: nat)
    requires IsRun(w, run, steps) && k < |steps|
    ensures steps[k].AckFulfil? ==>
              var c := run[k].calls[steps[k].call];
              c.pc.promise == c.owned[c.pc.next].promise && c.pc.promise !in run[k].acks
    ensures forall p :: p in run[k].acks ==> p in run[k + 1].acks && run[k + 1].acks[p] == run[k].acks[p]
  {
    RunKeepsInv(w, run, steps, k);
    var s := run[k];
    if steps[k].AckFulfil? {
      var c := s.calls[steps[k].call];
      assert CallOk(s, steps[k].call, c);
      assert SlotOk(w, s, c.pc.promise);
    }
  }

  /** A fulfilled promise carries the outcome of its owner's write, with the event's time of receipt and the
      repository's error. */
  lemma PromiseCarriesOutcome(w: Cache, run: seq<State>, steps: seq<Step>, k: nat, p: nat)
    requires IsRun(w, run, steps) && k < |run| && p in run[k].acks
    ensures var s := run[k];
            && p < |s.promises|
            && var Slot(o, item, pos) := s.promises[p];
               && o in s.calls && s.calls[o].outcome.Some?
               && s.acks[p] ==
                  match s.calls[o].outcome.value
                  case Committed => Ack(DuplicateCoalesced, item.id, item.receivedAt, "", "")
                  case Failed(code, reason) => Ack(PersistenceFailed, item.id, item.receivedAt, code, reason)
                  case Ambiguous(code, reason) => Ack(PersistenceAmbiguous, item.id, item.receivedAt, code, reason)
                  case Threw => Ack(PersistenceFailed, item.id, item.receivedAt, "REPOSITORY_ERROR",
                                    "ClickHouse batch persistence insertion failed")
  {
    hide CallOk, HeldOk, StoreOk;
    RunKeepsInv(w, run, steps, k);
    assert SlotOk(w, run[k], p);
  }

  /** What a waiter reads is its owner's outcome, for the same id and payload. */
  lemma WaiterReadsOwner(w: Cache, run: seq<State>, steps: seq<Step>, k: nat)
    requires IsRun(w, run, steps) && k < |steps| && steps[k].WaitReady?
    ensures var s := run[k];
            var c := s.calls[steps[k].call];
            var x := c.waits[c.pc.next];
            && x.promise < |s.promises|
            && var Slot(o, item, pos) := s.promises[x.promise];
               && o in s.calls && s.calls[o].outcome.Some? && item.id == x.item.id && item.fp == x.item.fp
               && run[k + 1].calls[steps[k].call].results ==
                  c.results + [match s.calls[o].outcome.value
                               case Committed =>
                                 ItemResult(x.item.id, x.item.fp, true, DuplicateCoalesced, Some(item.receivedAt), "")
                               case Ambiguous(code, _) =>
                                 ItemResult(x.item.id, x.item.fp, false, PersistenceAmbiguous,
                                            Some(item.receivedAt), code)
                               case Failed(code, _) =>
                                 ItemResult(x.item.id, x.item.fp, false, PersistenceFailed, Some(item.receivedAt), code)
                               case Threw =>
                                 ItemResult(x.item.id, x.item.fp, false, PersistenceFailed, Some(item.receivedAt),
                                            "REPOSITORY_ERROR")]
  {
    RunKeepsInv(w, run, steps, k);
    var s := run[k];
    var c := s.calls[steps[k].call];
    assert CallOk(s, steps[k].call, c);
    assert SlotOk(w, s, c.waits[c.pc.next].promise);
  }

  /** A duplicate inside one batch finds its promise already fulfilled when its wait begins. */
  lemma InBatchDuplicatesAreResolved(w: Cache, run: seq<State>, steps: seq<Step>, k: nat, i: nat, x: nat)
    requires IsRun(w, run, steps) && k < |run| && i in run[k].calls && run[k].calls[i].pc.Waiting?
    requires x < |run[k].calls[i].waits|
    ensures var p := run[k].calls[i].waits[x].promise;
            p < |run[k].promises| && (run[k].promises[p].owner == i ==> p in run[k].acks)
  {
    RunKeepsInv(w, run, steps, k);
    var s := run[k];
    assert CallOk(s, i, s.calls[i]);
    assert SlotOk(w, s, s.calls[i].waits[x].promise);
  }

  // ---- What is in flight, exactly --------------------------------------------------------------

  /** Position `x` of the call still has its reservation: not yet acknowledged, or abandoned by an
      exception that no guard caught. */
  ghost predicate StillOwns(c: Call, x: nat) {
    x < |c.owned| &&
    match c.pc
    case Acquiring(_) => true
    case Writing => true
    case Acking(j) => x >= j
    case Fulfilling(j, _) => x > j
    case Waiting(_) => false
    case Returned => false
    case Unwound => !c.guarded
  }

  ghost predicate OwnerOf(s: State, id: EventId, i: nat, x: nat) {
    i in s.calls && StillOwns(s.calls[i], x) && s.calls[i].owned[x].item.id == id
  }

  lemma OwnerHolds(w: Cache, run: seq<State>, steps: seq<Step>, k: nat, i: nat, x: nat)
    requires IsRun(w, run, steps) && k < |run| && i in run[k].calls && x < |run[k].calls[i].owned|
    ensures Sized(w, run[k])
    ensures var o := run[k].calls[i].owned[x];
            && (StillOwns(run[k].calls[i], x) <==> Held(w, run[k], o.item.id) == Some(InFlight(o.item.fp, o.promise)))
            && (StillOwns(run[k].calls[i], x) ==> o.promise !in run[k].acks)
  {
    RunKeepsInv(w, run, steps, k);
    var s := run[k];
    assert CallOk(s, i, s.calls[i]);
    assert SlotOk(w, s, s.calls[i].owned[x].promise);
  }

  /** In every run an id is in flight exactly when some call still owns it: returned and waiting calls
      and an ingest_single that threw own nothing, a batch that threw keeps everything it had reserved. */
  lemma InFlightExactly(w: Cache, run: seq<State>, steps: seq<Step>, k: nat, id: EventId)
    requires IsRun(w, run, steps) && k < |run|
    ensures Sized(w, run[k])
    ensures Held(w, run[k], id).Some? <==> exists i, x :: OwnerOf(run[k], id, i, x)
  {
    RunKeepsInv(w, run, steps, k);
    var s := run[k];
    if Held(w, s, id).Some? {
      assert HeldOk(w, s, id);
      var p := Held(w, s, id).value.promise;
      assert SlotOk(w, s, p);
      var Slot(i, item, pos) := s.promises[p];
      OwnerHolds(w, run, steps, k, i, pos);
      assert OwnerOf(s, id, i, pos);
    }
    if i, x :| OwnerOf(s, id, i, x) {
      OwnerHolds(w, run, steps, k, i, x);
    }
  }

  /** So an exception leaves a reservation behind exactly when no guard catches it. */
  lemma UnwoundHoldsUnlessGuarded(w: Cache, run: seq<State>, steps: seq<Step>, k: nat, i: nat, x: nat)
    requires IsRun(w, run, steps) && k < |run| && i in run[k].calls && run[k].calls[i].pc.Unwound?
    requires x < |run[k].calls[i].owned|
    ensures Sized(w, run[k])
    ensures var o := run[k].calls[i].owned[x];
            && (Held(w, run[k], o.item.id) == Some(InFlight(o.item.fp, o.promise)) <==> !run[k].calls[i].guarded)
            && (o.promise in run[k].acks <==> run[k].calls[i].guarded)
  {
    RunKeepsInv(w, run, steps, k);
    assert CallOk(run[k], i, run[k].calls[i]);
    assert SlotOk(w, run[k], run[k].calls[i].owned[x].promise);
  }

  lemma UnwoundIsFinal(w: Cache, s: State, step: Step, i: nat)
    requires Enabled(w, s, step) && i in s.calls && s.calls[i].pc.Unwound?
    ensures i in Apply(w, s, step).calls && Apply(w, s, step).calls[i] == s.calls[i]
  {
    hide Acquire, Commit, Rollback, EvictExpired, Report, Start, Decide, Await;
  }

  lemma {:induction false} UnwoundStays(w: Cache, run: seq<State>, steps: seq<Step>, k: nat, l: nat, i: nat)
    requires IsRun(w, run, steps) && k <= l < |run| && i in run[k].calls && run[k].calls[i].pc.Unwound?
    ensures i in run[l].calls && run[l].calls[i] == run[k].calls[i]
    decreases l
  {
    hide Enabled, Apply, Inv;
    if k < l {
      UnwoundStays(w, run, steps, k, l - 1, i);
      assert Enabled(w, run[l - 1], steps[l - 1]) && run[l] == Apply(w, run[l - 1], steps[l - 1]);
      UnwoundIsFinal(w, run[l - 1], steps[l - 1], i);
    }
  }

  /** What a batch leaves behind when it throws stays behind: in every later state the id is in flight
      under the same promise, and the promise is never fulfilled. */
  lemma AbandonedForever(w: Cache, run: seq<State>, steps: seq<Step>, k: nat, l: nat, i: nat, x: nat)
    requires IsRun(w, run, steps) && k <= l < |run| && i in run[k].calls && run[k].calls[i].pc.Unwound?
    requires !run[k].calls[i].guarded && x < |run[k].calls[i].owned|
    ensures Sized(w, run[l])
    ensures var o := run[k].calls[i].owned[x];
            Held(w, run[l], o.item.id) == Some(InFlight(o.item.fp, o.promise)) && o.promise !in run[l].acks
  {
    UnwoundStays(w, run, steps, k, l, i);
    UnwoundHoldsUnlessGuarded(w, run, steps, l, i, x);
  }

  /** So a later call waiting on it can only time out, and a later call that presents the id never gets
      to write it: it waits, or is refused as a conflict. */
  lemma AbandonedIdIsBlocked(w: Cache, run: seq<State>, steps: seq<Step>, k: nat, l: nat, i: nat, x: nat, j: nat)
    requires IsRun(w, run, steps) && k <= l < |steps| && i in run[k].calls && run[k].calls[i].pc.Unwound?
    requires !run[k].calls[i].guarded && x < |run[k].calls[i].owned|
    ensures var o := run[k].calls[i].owned[x];
            && (steps[l] == WaitReady(j) ==>
                  run[l].calls[j].waits[run[l].calls[j].pc.next].promise != o.promise)
            && (steps[l] == AcquireNext(j, true) && run[l].calls[j].items[run[l].calls[j].pc.next].id == o.item.id ==>
                  j in run[l + 1].calls && run[l + 1].calls[j].owned == run[l].calls[j].owned)
  {
    AbandonedForever(w, run, steps, k, l, i, x);
    assert Enabled(w, run[l], steps[l]) && run[l + 1] == Apply(w, run[l], steps[l]);
    if steps[l] == AcquireNext(j, true) &&
       run[l].calls[j].items[run[l].calls[j].pc.next].id == run[k].calls[i].owned[x].item.id {
      var s := run[l];
      var c := s.calls[j];
      var item := c.items[c.pc.next];
      AcquireEffect(s.shards[Home(w, item.id)], item.id, item.fp, c.now, |s.promises|);
    }
  }

  /** Such runs exist: a batch of one event whose repository call throws, and a batch of two whose second
      fingerprint throws. */
  lemma ThrowingBatchAbandons(w: Cache, item: Item, other: Item, early: bool)
    returns (run: seq<State>, steps: seq<Step>)
    ensures IsRun(w, run, steps) && Sized(w, run[|run| - 1])
    ensures 0 in run[|run| - 1].calls && run[|run| - 1].calls[0].pc.Unwound? && !run[|run| - 1].calls[0].guarded
    ensures Held(w, run[|run| - 1], item.id).Some?
  {
    hide Commit, Rollback, EvictExpired, Report, Await;
    var s0 := State(seq(w.shards, i => EMPTY), [], map[], map[], {});
    var begin := Begin(0, false, if early then [item, other] else [item], 0);
    var s1 := Apply(w, s0, begin);
    assert Home(w, item.id) < w.shards && s0.shards[Home(w, item.id)] == EMPTY;
    var s2 := Apply(w, s1, AcquireNext(0, true));
    assert s2.calls[0].owned == [Owned(0, item)];
    if early {
      var s3 := Apply(w, s2, AcquireThrows(0));
      run, steps := [s0, s1, s2, s3], [begin, AcquireNext(0, true), AcquireThrows(0)];
    } else {
      var s3 := Apply(w, s2, Finish(0));
      var s4 := Apply(w, s3, WriteThrows(0));
      run, steps := [s0, s1, s2, s3, s4], [begin, AcquireNext(0, true), Finish(0), WriteThrows(0)];
    }
    var k := |run| - 1;
    UnwoundHoldsUnlessGuarded(w, run, steps, k, 0, 0);
  }
}
