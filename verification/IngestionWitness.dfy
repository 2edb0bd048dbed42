/** A run of the ingestion protocol from beginning to return, for every event and every outcome of the
    repository: the theorems about returned calls are about something. */
module IngestionWitness {
  import opened Types
  import opened DedupSpec
  import opened IngestionProtocol

  function Empty(w: Cache): State {
    State(seq(w.shards, i => EMPTY), [], map[], map[], {})
  }

  function Reserved(w: Cache, item: Item): seq<Shard> {
    Empty(w).shards[Home(w, item.id) := Shard(map[item.id := InFlight(item.fp, 0)], [])]
  }

  /** The one call, once its event is reserved. */
  function Holding(item: Item, guarded: bool, pc: Pc, outcome: Option<Outcome>): Call {
    Call(guarded, [item], 0, pc, [Owned(0, item)], [], outcome, [], 0, 0, [])
  }

  /** The call is about to write its event; nothing was acknowledged. */
  ghost predicate Open(w: Cache, s: State, item: Item, guarded: bool) {
    && s.shards == Reserved(w, item) && s.acks == map[]
    && 0 in s.calls && s.calls[0] == Holding(item, guarded, Writing, None)
  }

  /** begin, reserve, leave the loop. */
  lemma Opens(w: Cache, item: Item, guarded: bool) returns (run: seq<State>, steps: seq<Step>)
    ensures IsRun(w, run, steps) && Open(w, run[|run| - 1], item, guarded) && run[|run| - 1].calls.Keys == {0}
  {
    var s0 := Empty(w);
    var begin := Begin(0, guarded, [item], 0);
    var s1 := Apply(w, s0, begin);
    assert Home(w, item.id) < w.shards && s0.shards[Home(w, item.id)] == EMPTY;
    var s2 := Apply(w, s1, AcquireNext(0, true));
    assert s2.calls[0] == Holding(item, guarded, Acquiring(1), None);
    var s3 := Apply(w, s2, Finish(0));
    run, steps := [s0, s1, s2, s3], [begin, AcquireNext(0, true), Finish(0)];
    assert s3.shards == Reserved(w, item) && s3.calls == map[0 := Holding(item, guarded, Writing, None)];
  }

  lemma Longer(w: Cache, run: seq<State>, steps: seq<Step>, step: Step)
    requires IsRun(w, run, steps) && Enabled(w, run[|run| - 1], step)
    ensures IsRun(w, run + [Apply(w, run[|run| - 1], step)], steps + [step])
  {
    hide Apply, Enabled;
  }

  /** The write returns, the reservation is released and the promise fulfilled, whatever other calls do. */
  lemma Acknowledges(w: Cache, run: seq<State>, steps: seq<Step>, item: Item, guarded: bool, o: Outcome)
    returns (run': seq<State>, steps': seq<Step>)
    requires IsRun(w, run, steps) && Open(w, run[|run| - 1], item, guarded) && !o.Threw?
    ensures IsRun(w, run', steps')
    ensures var s, s' := run[|run| - 1], run'[|run'| - 1];
            && s'.calls == s.calls[0 := Holding(item, guarded, Acking(1), Some(o))]
            && s'.acks == map[0 := AckFor(o, item)]
  {
    hide Apply, Enabled, AckFor;
    var s := run[|run| - 1];
    WriteStep(w, s, item, guarded, o);
    Longer(w, run, steps, WriteReturns(0, o));
    var s4 := Apply(w, s, WriteReturns(0, o));
    run', steps' := run + [s4], steps + [WriteReturns(0, o)];
    LockStep(w, s4, item, guarded, o);
    Longer(w, run', steps', AckLock(0));
    var s5 := Apply(w, s4, AckLock(0));
    run', steps' := run' + [s5], steps' + [AckLock(0)];
    FulfilStep(w, s5, item, guarded, o);
    Longer(w, run', steps', AckFulfil(0));
    run', steps' := run' + [Apply(w, s5, AckFulfil(0))], steps' + [AckFulfil(0)];
  }

  lemma WriteStep(w: Cache, s: State, item: Item, guarded: bool, o: Outcome)
    requires Open(w, s, item, guarded) && !o.Threw?
    ensures Enabled(w, s, WriteReturns(0, o))
    ensures var s' := Apply(w, s, WriteReturns(0, o));
            && s'.shards == s.shards && s'.acks == s.acks
            && s'.calls == s.calls[0 := Holding(item, guarded, Acking(0), Some(o))]
  {
  }

  lemma LockStep(w: Cache, s: State, item: Item, guarded: bool, o: Outcome)
    requires s.shards == Reserved(w, item) && !o.Threw?
    requires 0 in s.calls && s.calls[0] == Holding(item, guarded, Acking(0), Some(o))
    ensures Enabled(w, s, AckLock(0)) && Apply(w, s, AckLock(0)).acks == s.acks
    ensures Apply(w, s, AckLock(0)).calls == s.calls[0 := Holding(item, guarded, Fulfilling(0, 0), Some(o))]
  {
  }

  lemma FulfilStep(w: Cache, s: State, item: Item, guarded: bool, o: Outcome)
    requires 0 in s.calls && s.calls[0] == Holding(item, guarded, Fulfilling(0, 0), Some(o)) && s.acks == map[]
    ensures Enabled(w, s, AckFulfil(0)) && Apply(w, s, AckFulfil(0)).acks == map[0 := AckFor(o, item)]
    ensures Apply(w, s, AckFulfil(0)).calls == s.calls[0 := Holding(item, guarded, Acking(1), Some(o))]
  {
  }

  lemma DoneStep(w: Cache, s: State, item: Item, guarded: bool, o: Outcome)
    requires 0 in s.calls && s.calls[0] == Holding(item, guarded, Acking(1), Some(o)) && !o.Threw?
    ensures Enabled(w, s, AckDone(0))
    ensures var s' := Apply(w, s, AckDone(0));
            && Enabled(w, s', Finish(0)) && 0 in Apply(w, s', Finish(0)).calls
            && var c := Apply(w, s', Finish(0)).calls[0];
               c.pc.Returned? && c.items == [item] && c.results == [Told(item, o)]
  {
    var c := s.calls[0];
    assert Report(c, o, 0) == c;
  }

  function Told(item: Item, o: Outcome): ItemResult {
    match o
    case Committed => ItemResult(item.id, item.fp, true, PersistedNew, Some(item.receivedAt), "")
    case Failed(code, _) => ItemResult(item.id, item.fp, false, PersistenceFailed, Some(item.receivedAt), code)
    case Ambiguous(code, _) => ItemResult(item.id, item.fp, false, PersistenceAmbiguous, Some(item.receivedAt), code)
    case Threw => ItemResult(item.id, item.fp, false, PersistenceFailed, None, "")
  }

  /** For every event, either kind of call and every outcome there is a run in which the event is written
      and the call returns with that outcome. */
  lemma CallReturns(w: Cache, item: Item, guarded: bool, o: Outcome) returns (run: seq<State>, steps: seq<Step>)
    requires !o.Threw?
    ensures IsRun(w, run, steps)
    ensures var s := run[|run| - 1];
            && 0 in s.calls && s.calls[0].pc.Returned?
            && s.calls[0].items == [item] && s.calls[0].results == [Told(item, o)]
  {
    hide Apply, Enabled, Told;
    run, steps := Opens(w, item, guarded);
    run, steps := Acknowledges(w, run, steps, item, guarded, o);
    var s := run[|run| - 1];
    DoneStep(w, s, item, guarded, o);
    Longer(w, run, steps, AckDone(0));
    var s' := Apply(w, s, AckDone(0));
    run, steps := run + [s'], steps + [AckDone(0)];
    Longer(w, run, steps, Finish(0));
    run, steps := run + [Apply(w, s', Finish(0))], steps + [Finish(0)];
  }

  // ---- A second call with the same event -------------------------------------------------------

  function Waiter(item: Item, guarded: bool, pc: Pc): Call {
    Call(guarded, [item], 0, pc, [], [Owned(0, item)], None, [], 0, 0, [])
  }

  /** While the first call writes, a second one with the same event comes to wait for it. */
  lemma SecondWaits(w: Cache, item: Item, guarded: bool) returns (run: seq<State>, steps: seq<Step>)
    ensures IsRun(w, run, steps) && Open(w, run[|run| - 1], item, guarded)
    ensures var s := run[|run| - 1];
            1 in s.calls && s.calls[1] == Waiter(item, guarded, Waiting(0))
  {
    hide Apply, Enabled;
    run, steps := Opens(w, item, guarded);
    var s3 := run[|run| - 1];
    var begin := Begin(1, guarded, [item], 0);
    JoinSteps(w, s3, item, guarded);
    Longer(w, run, steps, begin);
    var s4 := Apply(w, s3, begin);
    run, steps := run + [s4], steps + [begin];
    Longer(w, run, steps, AcquireNext(1, true));
    var s5 := Apply(w, s4, AcquireNext(1, true));
    run, steps := run + [s5], steps + [AcquireNext(1, true)];
    Longer(w, run, steps, Finish(1));
    run, steps := run + [Apply(w, s5, Finish(1))], steps + [Finish(1)];
  }

  lemma JoinSteps(w: Cache, s: State, item: Item, guarded: bool)
    requires Open(w, s, item, guarded) && s.calls.Keys == {0}
    ensures Enabled(w, s, Begin(1, guarded, [item], 0))
    ensures var s1 := Apply(w, s, Begin(1, guarded, [item], 0));
            && Enabled(w, s1, AcquireNext(1, true))
            && var s2 := Apply(w, s1, AcquireNext(1, true));
            && Enabled(w, s2, Finish(1))
            && var s3 := Apply(w, s2, Finish(1));
            && Open(w, s3, item, guarded) && 1 in s3.calls && s3.calls[1] == Waiter(item, guarded, Waiting(0))
  {
    var s1 := Apply(w, s, Begin(1, guarded, [item], 0));
    assert s1.shards[Home(w, item.id)] == Shard(map[item.id := InFlight(item.fp, 0)], []);
    var s2 := Apply(w, s1, AcquireNext(1, true));
    assert s2.calls[1] == Waiter(item, guarded, Acquiring(1));
    assert s2.shards == s1.shards;
  }

  lemma LateStep(w: Cache, s: State, item: Item, guarded: bool)
    requires 1 in s.calls && s.calls[1] == Waiter(item, guarded, Waiting(0))
    ensures Enabled(w, s, WaitTimeout(1))
    ensures var s' := Apply(w, s, WaitTimeout(1));
            && Enabled(w, s', Finish(1)) && 1 in Apply(w, s', Finish(1)).calls
            && var c := Apply(w, s', Finish(1)).calls[1];
               c.pc.Returned? &&
               c.results == [ItemResult(item.id, item.fp, false, PersistenceAmbiguous, None, "DEADLINE_EXCEEDED")]
  {
  }

  lemma ReadyStep(w: Cache, s: State, item: Item, guarded: bool)
    requires 1 in s.calls && s.calls[1] == Waiter(item, guarded, Waiting(0))
    requires s.acks == map[0 := Ack(DuplicateCoalesced, item.id, item.receivedAt, "", "")]
    ensures Enabled(w, s, WaitReady(1))
    ensures var s' := Apply(w, s, WaitReady(1));
            && Enabled(w, s', Finish(1)) && 1 in Apply(w, s', Finish(1)).calls
            && var c := Apply(w, s', Finish(1)).calls[1];
               c.pc.Returned? &&
               c.results == [ItemResult(item.id, item.fp, true, DuplicateCoalesced, Some(item.receivedAt), "")]
  {
  }

  /** The second call may time out, and it may be told that the first one's write was committed. */
  lemma WaiterReturns(w: Cache, item: Item, guarded: bool, late: bool) returns (run: seq<State>, steps: seq<Step>)
    ensures IsRun(w, run, steps)
    ensures var s := run[|run| - 1];
            && 1 in s.calls && s.calls[1].pc.Returned?
            && s.calls[1].results ==
               [if late then ItemResult(item.id, item.fp, false, PersistenceAmbiguous, None, "DEADLINE_EXCEEDED")
                else ItemResult(item.id, item.fp, true, DuplicateCoalesced, Some(item.receivedAt), "")]
  {
    hide Apply, Enabled;
    run, steps := SecondWaits(w, item, guarded);
    var step := if late then WaitTimeout(1) else WaitReady(1);
    if !late {
      run, steps := Acknowledges(w, run, steps, item, guarded, Committed);
      ReadyStep(w, run[|run| - 1], item, guarded);
    } else {
      LateStep(w, run[|run| - 1], item, guarded);
    }
    Longer(w, run, steps, step);
    var s := Apply(w, run[|run| - 1], step);
    run, steps := run + [s], steps + [step];
    Longer(w, run, steps, Finish(1));
    run, steps := run + [Apply(w, s, Finish(1))], steps + [Finish(1)];
  }
}
