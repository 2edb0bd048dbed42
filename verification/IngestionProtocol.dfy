/** ingest_single and ingest_batch as a step system over one shared cache. Every mutex section, every
    promise fulfilment, every repository call and every wait is one step, so a run is any interleaving
    of any number of calls. */
module IngestionProtocol {
  import opened Types
  import opened DedupSpec

  /** A prepared event: id, payload fingerprint and the received_at it will carry. */
  datatype Item = Item(id: EventId, fp: Fingerprint, receivedAt: int)

  datatype Outcome = Committed | Failed(code: string, reason: string) | Ambiguous(code: string, reason: string) | Threw

  datatype Owned = Owned(promise: nat, item: Item)

  /** One item result; `receivedAt` is None where the call reports the clock. */
  datatype ItemResult = ItemResult(
    id: EventId, fp: Fingerprint, success: bool, status: OutcomeStatus, receivedAt: Option<int>, code: string)

  datatype Pc =
    | Acquiring(next: nat)                    // validating and reserving items[next]
    | Writing                                 // inside insert_batch_classified
    | Acking(next: nat)                       // about to lock the shard of owned[next]
    | Fulfilling(next: nat, promise: nat)     // lock released, set_value pending
    | Waiting(next: nat)                      // on the future of waits[next]
    | Returned
    | Unwound                                 // an exception left the call

  /** One call. `guarded` calls are ingest_single: one item, and a guard that rolls back on a throw. */
  datatype Call = Call(
    guarded: bool, items: seq<Item>, now: int, pc: Pc,
    owned: seq<Owned>, waits: seq<Owned>, outcome: Option<Outcome>,
    results: seq<ItemResult>, accepted: nat, rejected: nat, rejectedIds: seq<EventId>)

  /** Who made a promise, for which item, at which position of its own list. */
  datatype Slot = Slot(owner: nat, item: Item, pos: nat)

  datatype State = State(
    shards: seq<Shard>, promises: seq<Slot>, acks: map<nat, Ack>, calls: map<nat, Call>,
    durable: set<(EventId, Fingerprint, int)>)

  datatype World = World(hash: EventId -> nat, shards: nat, ttl: int, capacity: nat)
  type Cache = w: World | w.shards > 0 witness World((id: EventId) => 0, 1, 0, 1)

  function Home(w: Cache, id: EventId): (h: nat)
    ensures h < w.shards
  {
    w.hash(id) % w.shards
  }

  // ---- What one call does to its own variables -------------------------------------------------

  function Accept(c: Call, item: Item, status: OutcomeStatus, at: int): Call {
    c.(accepted := c.accepted + 1, results := c.results + [ItemResult(item.id, item.fp, true, status, Some(at), "")])
  }

  function Reject(c: Call, item: Item, status: OutcomeStatus, at: Option<int>, code: string): Call {
    c.(rejected := c.rejected + 1, rejectedIds := c.rejectedIds + [item.id],
       results := c.results + [ItemResult(item.id, item.fp, false, status, at, code)])
  }

  function Refuse(c: Call, item: Item): Call {
    Reject(c, item, ValidationRejected, None, "INVALID_ARGUMENT")
  }

  /** The switch on the cache's decision. */
  function Decide(c: Call, item: Item, d: Decision): Call {
    match d
    case AlreadyCommitted(at) => Accept(c, item, DuplicateCommitted, at)
    case PayloadConflict => Reject(c, item, IdempotencyConflict, Some(item.receivedAt), "ALREADY_EXISTS")
    case CoalescedInFlight(p) => c.(waits := c.waits + [Owned(p, item)])
    case AcquiredNewInFlight(p) => c.(owned := c.owned + [Owned(p, item)])
  }

  function FailureStatus(o: Outcome): OutcomeStatus {
    if o.Ambiguous? then PersistenceAmbiguous else PersistenceFailed
  }

  function FailureCode(o: Outcome): string {
    match o
    case Failed(code, _) => code
    case Ambiguous(code, _) => code
    case _ => ""
  }

  /** What the owner's promise will carry. */
  function AckFor(o: Outcome, item: Item): Ack {
    match o
    case Committed => Ack(DuplicateCoalesced, item.id, item.receivedAt, "", "")
    case Threw => Ack(PersistenceFailed, item.id, item.receivedAt, "REPOSITORY_ERROR",
                      "ClickHouse batch persistence insertion failed")
    case _ => Ack(FailureStatus(o), item.id, item.receivedAt, o.code, o.reason)
  }

  /** The item results of the written events, once all of them are acknowledged. */
  function Report(c: Call, o: Outcome, n: nat): Call
    requires n <= |c.owned|
  {
    if n == 0 then c
    else
      var done := Report(c, o, n - 1);
      var item := c.owned[n - 1].item;
      if o.Committed? then Accept(done, item, PersistedNew, item.receivedAt)
      else Reject(done, item, FailureStatus(o), Some(item.receivedAt), FailureCode(o))
  }

  function IsOk(a: Ack): bool {
    a.status == PersistedNew || a.status == DuplicateCoalesced
  }

  function Await(c: Call, item: Item, a: Ack): Call {
    if IsOk(a) then Accept(c, item, DuplicateCoalesced, a.receivedAt)
    else Reject(c, item, a.status, Some(a.receivedAt), a.code)
  }

  function RejectAll(c: Call, n: nat): Call
    requires n <= |c.items|
  {
    if n == 0 then c else Refuse(RejectAll(c, n - 1), c.items[n - 1])
  }

  const MAX_BATCH: nat := 100

  function Start(guarded: bool, items: seq<Item>, now: int): Call {
    var c := Call(guarded, items, now, Acquiring(0), [], [], None, [], 0, 0, []);
    if !guarded && |items| > MAX_BATCH then RejectAll(c, |items|).(pc := Returned) else c
  }

  // ---- Steps -----------------------------------------------------------------------------------

  datatype Step =
    | Begin(call: nat, guarded: bool, items: seq<Item>, now: int)
    | AcquireNext(call: nat, valid: bool)
    | AcquireThrows(call: nat)                // the fingerprint of items[next] throws before it is reserved
    | WriteReturns(call: nat, result: Outcome)
    | WriteThrows(call: nat)
    | AckLock(call: nat)
    | AckFulfil(call: nat)
    | AckDone(call: nat)
    | WaitReady(call: nat)
    | WaitTimeout(call: nat)
    | Finish(call: nat)
    | Sweep(shard: nat, now: int)

  predicate Enabled(w: Cache, s: State, step: Step) {
    if step.Begin? then step.call !in s.calls && (step.guarded ==> |step.items| == 1)
    else if step.Sweep? then step.shard < |s.shards|
    else
      && step.call in s.calls
      && var c := s.calls[step.call];
         match step
         case AcquireNext(_, _) => c.pc.Acquiring? && c.pc.next < |c.items| && |s.shards| == w.shards
         case AcquireThrows(_) => c.pc.Acquiring? && c.pc.next < |c.items|
         case WriteReturns(_, r) => c.pc.Writing? && !r.Threw?
         case WriteThrows(_) => c.pc.Writing?
         case AckLock(_) => c.pc.Acking? && c.pc.next < |c.owned| && c.outcome.Some? && |s.shards| == w.shards
         case AckFulfil(_) => c.pc.Fulfilling? && c.pc.next < |c.owned| && c.outcome.Some?
         case AckDone(_) => c.pc.Acking? && c.pc.next == |c.owned| && c.outcome.Some?
         case WaitReady(_) => c.pc.Waiting? && c.pc.next < |c.waits| && c.waits[c.pc.next].promise in s.acks
         case WaitTimeout(_) => c.pc.Waiting? && c.pc.next < |c.waits|
         case Finish(_) =>
           || (c.pc.Acquiring? && c.pc.next == |c.items|)
           || (c.pc.Waiting? && c.pc.next == |c.waits|)
         case _ => false
  }

  function SetCall(s: State, i: nat, c: Call): State {
    s.(calls := s.calls[i := c])
  }

  function DoAcquire(w: Cache, s: State, i: nat, valid: bool): State
    requires Enabled(w, s, AcquireNext(i, valid))
  {
    var c := s.calls[i];
    var item, c' := c.items[c.pc.next], c.(pc := Acquiring(c.pc.next + 1));
    if !valid then SetCall(s, i, Refuse(c', item))
    else
      var h := Home(w, item.id);
      var (shard, d) := Acquire(s.shards[h], item.id, item.fp, c.now, |s.promises|);
      var made := if d.AcquiredNewInFlight? then [Slot(i, item, |c.owned|)] else [];
      SetCall(s, i, Decide(c', item, d)).(shards := s.shards[h := shard], promises := s.promises + made)
  }

  function DoWriteReturns(s: State, i: nat, r: Outcome): State
    requires i in s.calls
  {
    var c := s.calls[i];
    var written := if r.Committed? then set o | o in c.owned :: (o.item.id, o.item.fp, o.item.receivedAt) else {};
    SetCall(s, i, c.(pc := Acking(0), outcome := Some(r))).(durable := s.durable + written)
  }

  /** The guard rolls back; without one the exception leaves the reservations behind. */
  function DoWriteThrows(s: State, i: nat): State
    requires i in s.calls
  {
    var c := s.calls[i];
    SetCall(s, i, if c.guarded then c.(pc := Acking(0), outcome := Some(Threw)) else c.(pc := Unwound))
  }

  /** mark_committed or rollback_in_flight, up to the end of its locked section. */
  function DoAckLock(w: Cache, s: State, i: nat): State
    requires Enabled(w, s, AckLock(i))
  {
    var c := s.calls[i];
    var j, item := c.pc.next, c.owned[c.pc.next].item;
    var h := Home(w, item.id);
    var (shard, p) :=
      if c.outcome.value.Committed? then Commit(s.shards[h], item.id, item.receivedAt, c.now, w.ttl, w.capacity)
      else Rollback(s.shards[h], item.id);
    SetCall(s, i, c.(pc := if p.Some? then Fulfilling(j, p.value) else Acking(j + 1)))
    .(shards := s.shards[h := shard])
  }

  function DoAckFulfil(w: Cache, s: State, i: nat): State
    requires Enabled(w, s, AckFulfil(i))
  {
    var c := s.calls[i];
    var p, a := c.pc.promise, AckFor(c.outcome.value, c.owned[c.pc.next].item);
    SetCall(s, i, c.(pc := Acking(c.pc.next + 1))).(acks := if p in s.acks then s.acks else s.acks[p := a])
  }

  function Apply(w: Cache, s: State, step: Step): State
    requires Enabled(w, s, step)
  {
    match step
    case Begin(i, guarded, items, now) => SetCall(s, i, Start(guarded, items, now))
    case AcquireNext(i, valid) => DoAcquire(w, s, i, valid)
    case AcquireThrows(i) => SetCall(s, i, s.calls[i].(pc := Unwound))
    case WriteReturns(i, r) => DoWriteReturns(s, i, r)
    case WriteThrows(i) => DoWriteThrows(s, i)
    case AckLock(i) => DoAckLock(w, s, i)
    case AckFulfil(i) => DoAckFulfil(w, s, i)
    case AckDone(i) =>
      var c := s.calls[i];
      SetCall(s, i, if c.outcome.value.Threw? then c.(pc := Unwound)
                    else Report(c, c.outcome.value, |c.owned|).(pc := Waiting(0)))
    case WaitReady(i) =>
      var c := s.calls[i];
      var x := c.waits[c.pc.next];
      SetCall(s, i, Await(c, x.item, s.acks[x.promise]).(pc := Waiting(c.pc.next + 1)))
    case WaitTimeout(i) =>
      var c := s.calls[i];
      var late := Reject(c, c.waits[c.pc.next].item, PersistenceAmbiguous, None, "DEADLINE_EXCEEDED");
      SetCall(s, i, late.(pc := Waiting(c.pc.next + 1)))
    case Finish(i) =>
      var c := s.calls[i];
      SetCall(s, i, c.(pc := if c.pc.Waiting? then Returned else if c.owned == [] then Waiting(0) else Writing))
    case Sweep(k, now) => s.(shards := s.shards[k := EvictExpired(s.shards[k], now)])
  }

  /** The states some interleaving of calls reaches from the empty cache. */
  ghost predicate IsRun(w: Cache, run: seq<State>, steps: seq<Step>) {
    && |run| == |steps| + 1
    && run[0] == State(seq(w.shards, i => EMPTY), [], map[], map[], {})
    && forall k :: 0 <= k < |steps| ==> Enabled(w, run[k], steps[k]) && run[k + 1] == Apply(w, run[k], steps[k])
  }
}
