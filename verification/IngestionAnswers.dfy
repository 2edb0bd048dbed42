/** What a returned call tells about each of its events, over every interleaving, status by status. */
module IngestionAnswers {
  import opened Types
  import opened DedupSpec
  import opened IngestionProtocol
  import opened IngestionSafety
  import Accounts = IngestionAccounting

  // ---- What an event may be told ---------------------------------------------------------------

  /** Step `j` validates event `n` of call `i` and presents it to the shard its hash names. */
  ghost predicate Presents(w: Cache, run: seq<State>, steps: seq<Step>, j: nat, i: nat, n: nat, item: Item) {
    && j < |steps| && j < |run| && steps[j].AcquireNext? && steps[j].call == i
    && i in run[j].calls && run[j].calls[i].pc == Acquiring(n)
    && n < |run[j].calls[i].items| && run[j].calls[i].items[n] == item && |run[j].shards| == w.shards
  }

  ghost predicate Replies(w: Cache, run: seq<State>, steps: seq<Step>, j: nat, i: nat, n: nat, item: Item,
                          d: Decision) {
    && Presents(w, run, steps, j, i, n, item) && steps[j].valid
    && var s := run[j];
       Acquire(s.shards[w.hash(item.id) % w.shards], item.id, item.fp, s.calls[i].now, |s.promises|).1 == d
  }

  /** The repository returned `o` for a write of this event. */
  ghost predicate Written(run: seq<State>, steps: seq<Step>, k: nat, i: nat, o: Owned, result: Outcome, l: nat) {
    && l < k && l < |steps| && l < |run| && steps[l] == WriteReturns(i, result)
    && i in run[l].calls && o in run[l].calls[i].owned
  }

  ghost predicate ToldOfWrite(run: seq<State>, steps: seq<Step>, k: nat, i: nat, o: Owned, r: ItemResult) {
    exists result, l: nat ::
      && Written(run, steps, k, i, o, result, l)
      && match result
         case Committed => r == ItemResult(o.item.id, o.item.fp, true, PersistedNew, Some(o.item.receivedAt), "")
         case Failed(code, _) =>
           r == ItemResult(o.item.id, o.item.fp, false, PersistenceFailed, Some(o.item.receivedAt), code)
         case Ambiguous(code, _) =>
           r == ItemResult(o.item.id, o.item.fp, false, PersistenceAmbiguous, Some(o.item.receivedAt), code)
         case Threw => false
  }

  /** Step `l` is the call's wait for the promise of the event. */
  ghost predicate Waits(run: seq<State>, steps: seq<Step>, k: nat, i: nat, o: Owned, l: nat) {
    && l < k && l < |steps| && l < |run| && (steps[l].WaitReady? || steps[l].WaitTimeout?) && steps[l].call == i
    && i in run[l].calls && run[l].calls[i].pc.Waiting?
    && run[l].calls[i].pc.next < |run[l].calls[i].waits| && run[l].calls[i].waits[run[l].calls[i].pc.next] == o
  }

  /** The outcome of the write of the call that made the promise, and the time of receipt it wrote. */
  ghost predicate OwnersOutcome(s: State, p: nat, o: Outcome, at: int) {
    && p < |s.promises| && s.promises[p].owner in s.calls && s.promises[p].item.receivedAt == at
    && s.calls[s.promises[p].owner].outcome == Some(o)
  }

  ghost predicate ToldOfWait(run: seq<State>, steps: seq<Step>, k: nat, i: nat, o: Owned, r: ItemResult) {
    exists l: nat ::
      && Waits(run, steps, k, i, o, l)
      && if steps[l].WaitTimeout?
         then r == ItemResult(o.item.id, o.item.fp, false, PersistenceAmbiguous, None, "DEADLINE_EXCEEDED")
         else exists result, at ::
           && OwnersOutcome(run[l], o.promise, result, at)
           && match result
              case Committed => r == ItemResult(o.item.id, o.item.fp, true, DuplicateCoalesced, Some(at), "")
              case Failed(code, _) => r == ItemResult(o.item.id, o.item.fp, false, PersistenceFailed, Some(at), code)
              case Ambiguous(code, _) =>
                r == ItemResult(o.item.id, o.item.fp, false, PersistenceAmbiguous, Some(at), code)
              case Threw =>
                r == ItemResult(o.item.id, o.item.fp, false, PersistenceFailed, Some(at), "REPOSITORY_ERROR")
  }

  /** `r` is the right answer to an event presented at step `j`. */
  ghost predicate AnsweredFrom(w: Cache, run: seq<State>, steps: seq<Step>, k: nat, i: nat, n: nat, item: Item,
                               r: ItemResult, j: nat) {
    || (Presents(w, run, steps, j, i, n, item) && !steps[j].valid &&
        r == ItemResult(item.id, item.fp, false, ValidationRejected, None, "INVALID_ARGUMENT"))
    || (exists at :: Replies(w, run, steps, j, i, n, item, AlreadyCommitted(at)) &&
                     r == ItemResult(item.id, item.fp, true, DuplicateCommitted, Some(at), ""))
    || (Replies(w, run, steps, j, i, n, item, PayloadConflict) &&
        r == ItemResult(item.id, item.fp, false, IdempotencyConflict, Some(item.receivedAt), "ALREADY_EXISTS"))
    || (exists p: nat :: Replies(w, run, steps, j, i, n, item, AcquiredNewInFlight(p)) &&
                    ToldOfWrite(run, steps, k, i, Owned(p, item), r))
    || (exists p: nat :: Replies(w, run, steps, j, i, n, item, CoalescedInFlight(p)) &&
                    ToldOfWait(run, steps, k, i, Owned(p, item), r))
  }

  /** More events than one ingest_batch takes. */
  predicate TooMany(c: Call) {
    !c.guarded && |c.items| > 100
  }

  /** The answer to event `n`: refused with the whole batch, or what its own presentation led to. */
  ghost predicate Answered(w: Cache, run: seq<State>, steps: seq<Step>, k: nat, i: nat, c: Call, n: nat,
                           r: ItemResult)
    requires n < |c.items|
  {
    if TooMany(c) then
      r == ItemResult(c.items[n].id, c.items[n].fp, false, ValidationRejected, None, "INVALID_ARGUMENT")
    else exists j: nat :: j < k && AnsweredFrom(w, run, steps, k, i, n, c.items[n], r, j)
  }

  // ---- Where the answers are on their way ------------------------------------------------------

  /** Where the answer to an event is: among the results, or still to come from the write or a wait. */
  datatype Spot = Told(at: nat) | Kept(at: nat) | Joined(at: nat)

  ghost predicate Reserved(w: Cache, run: seq<State>, steps: seq<Step>, k: nat, i: nat, n: nat, o: Owned) {
    exists j: nat :: j < k && Replies(w, run, steps, j, i, n, o.item, AcquiredNewInFlight(o.promise))
  }

  ghost predicate Coalesced(w: Cache, run: seq<State>, steps: seq<Step>, k: nat, i: nat, n: nat, o: Owned) {
    exists j: nat :: j < k && Replies(w, run, steps, j, i, n, o.item, CoalescedInFlight(o.promise))
  }

  ghost predicate Stands(w: Cache, run: seq<State>, steps: seq<Step>, k: nat, i: nat, c: Call, n: nat, spot: Spot)
    requires n < |c.items|
  {
    match spot
    case Told(x) => x < |c.results| && Answered(w, run, steps, k, i, c, n, c.results[x])
    case Kept(x) =>
      && x < |c.owned| && c.owned[x].item == c.items[n] && !c.pc.Waiting? && !c.pc.Returned? && !TooMany(c)
      && Reserved(w, run, steps, k, i, n, c.owned[x])
    case Joined(x) =>
      && x < |c.waits| && c.waits[x].item == c.items[n] && (c.pc.Waiting? ==> c.pc.next <= x) && !c.pc.Returned?
      && !TooMany(c) && Coalesced(w, run, steps, k, i, n, c.waits[x])
  }

  ghost predicate Distinct(place: seq<Spot>) {
    forall m, n :: 0 <= m < n < |place| ==> place[m] != place[n]
  }

  ghost predicate Placed(w: Cache, run: seq<State>, steps: seq<Step>, k: nat, i: nat, c: Call, place: seq<Spot>) {
    && |place| == (if c.pc.Acquiring? then c.pc.next else |c.items|) && |place| <= |c.items| && Distinct(place)
    && forall n :: 0 <= n < |place| ==> Stands(w, run, steps, k, i, c, n, place[n])
  }

  // ---- What was told stays told ----------------------------------------------------------------

  lemma WriteStays(run: seq<State>, steps: seq<Step>, k: nat, i: nat, o: Owned, r: ItemResult)
    requires ToldOfWrite(run, steps, k, i, o, r)
    ensures ToldOfWrite(run, steps, k + 1, i, o, r)
  {
    assert forall result, l: nat :: Written(run, steps, k, i, o, result, l) ==>
                                    Written(run, steps, k + 1, i, o, result, l);
  }

  lemma WaitStays(run: seq<State>, steps: seq<Step>, k: nat, i: nat, o: Owned, r: ItemResult)
    requires ToldOfWait(run, steps, k, i, o, r)
    ensures ToldOfWait(run, steps, k + 1, i, o, r)
  {
    assert forall l: nat :: Waits(run, steps, k, i, o, l) ==> Waits(run, steps, k + 1, i, o, l);
  }

  lemma AnswerStays(w: Cache, run: seq<State>, steps: seq<Step>, k: nat, i: nat, n: nat, item: Item, r: ItemResult,
                    j: nat)
    requires AnsweredFrom(w, run, steps, k, i, n, item, r, j)
    ensures AnsweredFrom(w, run, steps, k + 1, i, n, item, r, j)
  {
    hide Replies, Presents, ToldOfWrite, ToldOfWait;
    forall p: nat | ToldOfWrite(run, steps, k, i, Owned(p, item), r)
      ensures ToldOfWrite(run, steps, k + 1, i, Owned(p, item), r)
    {
      WriteStays(run, steps, k, i, Owned(p, item), r);
    }
    forall p: nat | ToldOfWait(run, steps, k, i, Owned(p, item), r)
      ensures ToldOfWait(run, steps, k + 1, i, Owned(p, item), r)
    {
      WaitStays(run, steps, k, i, Owned(p, item), r);
    }
  }

  /** The call moved on, keeping what it had: a spot stays good. */
  lemma SpotStays(w: Cache, run: seq<State>, steps: seq<Step>, k: nat, i: nat, c: Call, c': Call, n: nat, spot: Spot)
    requires n < |c.items| && Stands(w, run, steps, k, i, c, n, spot) && c'.items == c.items && c'.guarded == c.guarded
    requires c.results <= c'.results && c.owned <= c'.owned && c.waits <= c'.waits
    requires spot.Kept? ==> !c'.pc.Waiting? && !c'.pc.Returned?
    requires spot.Joined? ==> !c'.pc.Returned? && (c'.pc.Waiting? ==> c'.pc.next <= spot.at)
    ensures Stands(w, run, steps, k + 1, i, c', n, spot)
  {
    hide AnsweredFrom, Replies;
    if spot.Told? && !TooMany(c) {
      var r := c.results[spot.at];
      var j: nat :| j < k && AnsweredFrom(w, run, steps, k, i, n, c.items[n], r, j);
      AnswerStays(w, run, steps, k, i, n, c.items[n], r, j);
    }
  }

  // ---- The steps -------------------------------------------------------------------------------

  lemma {:induction false} RejectAllTells(c: Call, n: nat)
    requires n <= |c.items| && c.results == []
    ensures var r := RejectAll(c, n);
            && r.items == c.items && r.guarded == c.guarded && r.now == c.now && |r.results| == n
            && forall m :: 0 <= m < n ==>
                 r.results[m] ==
                 ItemResult(c.items[m].id, c.items[m].fp, false, ValidationRejected, None, "INVALID_ARGUMENT")
  {
    if n > 0 {
      RejectAllTells(c, n - 1);
    }
  }

  lemma BeginPlaces(w: Cache, run: seq<State>, steps: seq<Step>, k: nat, i: nat, guarded: bool, items: seq<Item>,
                    now: int) returns (place: seq<Spot>)
    ensures Placed(w, run, steps, k, i, Start(guarded, items, now), place)
  {
    hide AnsweredFrom;
    var c := Call(guarded, items, now, Acquiring(0), [], [], None, [], 0, 0, []);
    RejectAllTells(c, |items|);
    place := if !guarded && |items| > 100 then seq(|items|, (n: nat) => Told(n)) else [];
  }

  /** What the step that presents an event adds to the call. */
  lemma PresentedAdds(w: Cache, run: seq<State>, steps: seq<Step>, k: nat, i: nat) returns (spot: Spot)
    requires IsRun(w, run, steps) && k < |steps| && steps[k].AcquireNext? && steps[k].call == i
    requires !TooMany(run[k].calls[i])
    ensures i in run[k + 1].calls
    ensures var c, c' := run[k].calls[i], run[k + 1].calls[i];
            && c'.items == c.items && c'.guarded == c.guarded && c'.pc == Acquiring(c.pc.next + 1)
            && c.results <= c'.results && c.owned <= c'.owned && c.waits <= c'.waits
            && Stands(w, run, steps, k + 1, i, c', c.pc.next, spot)
            && (spot.Told? ==> spot.at == |c.results|) && (spot.Kept? ==> spot.at == |c.owned|)
            && (spot.Joined? ==> spot.at == |c.waits|)
  {
    hide Acquire, ToldOfWrite, ToldOfWait;
    var s := run[k];
    assert Enabled(w, s, steps[k]) && run[k + 1] == Apply(w, s, steps[k]);
    var c, c' := s.calls[i], run[k + 1].calls[i];
    var n := c.pc.next;
    var item := c.items[n];
    var d := Acquire(s.shards[w.hash(item.id) % w.shards], item.id, item.fp, c.now, |s.promises|).1;
    assert Presents(w, run, steps, k, i, n, item);
    if !steps[k].valid {
      spot := Told(|c.results|);
      assert AnsweredFrom(w, run, steps, k + 1, i, n, item, c'.results[|c.results|], k);
    } else {
      assert Replies(w, run, steps, k, i, n, item, d);
      match d
      case AlreadyCommitted(at) =>
        spot := Told(|c.results|);
        assert AnsweredFrom(w, run, steps, k + 1, i, n, item, c'.results[|c.results|], k);
      case PayloadConflict =>
        spot := Told(|c.results|);
        assert AnsweredFrom(w, run, steps, k + 1, i, n, item, c'.results[|c.results|], k);
      case CoalescedInFlight(p) => spot := Joined(|c.waits|);
      case AcquiredNewInFlight(p) => spot := Kept(|c.owned|);
    }
  }

  lemma PresentPlaces(w: Cache, run: seq<State>, steps: seq<Step>, k: nat, i: nat, place: seq<Spot>)
    returns (place': seq<Spot>)
    requires IsRun(w, run, steps) && k < |steps| && steps[k].AcquireNext? && steps[k].call == i
    requires Placed(w, run, steps, k, i, run[k].calls[i], place) && !TooMany(run[k].calls[i])
    ensures i in run[k + 1].calls && Placed(w, run, steps, k + 1, i, run[k + 1].calls[i], place')
  {
    hide Answered, Reserved, Coalesced, Apply;
    assert Enabled(w, run[k], steps[k]) by { StepOfRun(w, run, steps, k); }
    var spot := PresentedAdds(w, run, steps, k, i);
    var c, c' := run[k].calls[i], run[k + 1].calls[i];
    place' := place + [spot];
    forall n | 0 <= n < |place| ensures Stands(w, run, steps, k + 1, i, c', n, place'[n]) && place'[n] != spot {
      SpotStays(w, run, steps, k, i, c, c', n, place[n]);
    }
  }

  lemma StepOfRun(w: Cache, run: seq<State>, steps: seq<Step>, k: nat)
    requires IsRun(w, run, steps) && k < |steps|
    ensures Enabled(w, run[k], steps[k]) && run[k + 1] == Apply(w, run[k], steps[k])
  {
  }

  // ---- The write -------------------------------------------------------------------------------

  /** The results of the written events, one for each, in order. */
  lemma {:induction false} ReportTells(c: Call, o: Outcome, n: nat)
    requires n <= |c.owned|
    ensures var r := Report(c, o, n);
            && r == c.(results := r.results, accepted := r.accepted, rejected := r.rejected,
                       rejectedIds := r.rejectedIds)
            && |r.results| == |c.results| + n && c.results <= r.results
            && forall x :: 0 <= x < n ==>
                 var item := c.owned[x].item;
                 r.results[|c.results| + x] ==
                   match o
                   case Committed => ItemResult(item.id, item.fp, true, PersistedNew, Some(item.receivedAt), "")
                   case Ambiguous(code, _) =>
                     ItemResult(item.id, item.fp, false, PersistenceAmbiguous, Some(item.receivedAt), code)
                   case Failed(code, _) =>
                     ItemResult(item.id, item.fp, false, PersistenceFailed, Some(item.receivedAt), code)
                   case Threw => ItemResult(item.id, item.fp, false, PersistenceFailed, Some(item.receivedAt), "")
  {
    if n > 0 {
      ReportTells(c, o, n - 1);
    }
  }

  /** A recorded outcome that is no exception is what the repository returned for the events owned. */
  lemma {:induction false} OutcomeWasReturned(w: Cache, run: seq<State>, steps: seq<Step>, k: nat, i: nat)
    returns (l: nat)
    requires IsRun(w, run, steps) && k < |run| && i in run[k].calls
    requires run[k].calls[i].outcome.Some? && run[k].calls[i].outcome != Some(Threw)
    ensures l < k && steps[l] == WriteReturns(i, run[k].calls[i].outcome.value) && i in run[l].calls
    ensures run[l].calls[i].owned == run[k].calls[i].owned
  {
    hide Apply, Enabled, Inv;
    FirstHasNoCalls(w, run, steps);
    var s, step := run[k - 1], steps[k - 1];
    StepOfRun(w, run, steps, k - 1);
    RunKeepsInv(w, run, steps, k - 1);
    if step.Sweep? || step.call != i {
      Accounts.OtherCallsUntouched(w, s, step, i);
      l := OutcomeWasReturned(w, run, steps, k - 1, i);
    } else if step.WriteReturns? {
      l := k - 1;
      WriteRecords(w, s, step);
    } else {
      OutcomeKept(w, s, step);
      l := OutcomeWasReturned(w, run, steps, k - 1, i);
    }
  }

  lemma FirstHasNoCalls(w: Cache, run: seq<State>, steps: seq<Step>)
    requires IsRun(w, run, steps)
    ensures run[0].calls == map[]
  {
  }

  lemma WriteRecords(w: Cache, s: State, step: Step)
    requires Enabled(w, s, step) && step.WriteReturns?
    ensures step.call in s.calls && step.call in Apply(w, s, step).calls
    ensures Apply(w, s, step).calls[step.call].outcome == Some(step.result)
    ensures Apply(w, s, step).calls[step.call].owned == s.calls[step.call].owned
  {
  }

  lemma OutcomeKept(w: Cache, s: State, step: Step)
    requires Inv(w, s) && Enabled(w, s, step) && !step.Sweep? && !step.WriteReturns?
    requires step.call in Apply(w, s, step).calls && Apply(w, s, step).calls[step.call].outcome.Some?
    requires Apply(w, s, step).calls[step.call].outcome != Some(Threw)
    ensures step.call in s.calls && s.calls[step.call].outcome == Apply(w, s, step).calls[step.call].outcome
    ensures s.calls[step.call].owned == Apply(w, s, step).calls[step.call].owned
  {
    hide Acquire, Commit, Rollback, EvictExpired, SlotOk, HeldOk, StoreOk;
    if step.Begin? {
      RejectAllTells(Call(step.guarded, step.items, step.now, Acquiring(0), [], [], None, [], 0, 0, []), |step.items|);
      RejectAllOwns(Call(step.guarded, step.items, step.now, Acquiring(0), [], [], None, [], 0, 0, []), |step.items|);
    } else {
      assert CallOk(s, step.call, s.calls[step.call]);
      if step.AckDone? {
        ReportTells(s.calls[step.call], s.calls[step.call].outcome.value, |s.calls[step.call].owned|);
      }
    }
  }

  lemma {:induction false} RejectAllOwns(c: Call, n: nat)
    requires n <= |c.items|
    ensures RejectAll(c, n).outcome == c.outcome && RejectAll(c, n).owned == c.owned
  {
    if n > 0 {
      RejectAllOwns(c, n - 1);
    }
  }

  function Moved(spot: Spot, from: nat): Spot {
    if spot.Kept? then Told(from + spot.at) else spot
  }

  lemma KeptIsTold(w: Cache, run: seq<State>, steps: seq<Step>, k: nat, i: nat, c': Call, n: nat, x: nat)
    requires IsRun(w, run, steps) && k < |steps| && steps[k] == AckDone(i) && i in run[k].calls
    requires var c := run[k].calls[i];
             && c.outcome.Some? && c.outcome != Some(Threw) && n < |c.items|
             && Stands(w, run, steps, k, i, c, n, Kept(x))
             && c' == Report(c, c.outcome.value, |c.owned|).(pc := Waiting(0))
    ensures n < |c'.items| && Stands(w, run, steps, k + 1, i, c', n, Told(|run[k].calls[i].results| + x))
  {
    hide Replies, Report;
    var c := run[k].calls[i];
    var o := c.owned[x];
    ReportTells(c, c.outcome.value, |c.owned|);
    var l := OutcomeWasReturned(w, run, steps, k, i);
    var r := c'.results[|c.results| + x];
    assert Written(run, steps, k + 1, i, o, c.outcome.value, l) by { assert o in run[l].calls[i].owned; }
    assert ToldOfWrite(run, steps, k + 1, i, o, r);
    var j: nat :| j < k && Replies(w, run, steps, j, i, n, o.item, AcquiredNewInFlight(o.promise));
    assert o == Owned(o.promise, o.item);
    assert AnsweredFrom(w, run, steps, k + 1, i, n, o.item, r, j);
  }

  lemma DonePlaces(w: Cache, run: seq<State>, steps: seq<Step>, k: nat, i: nat, place: seq<Spot>)
    returns (place': seq<Spot>)
    requires IsRun(w, run, steps) && k < |steps| && steps[k] == AckDone(i)
    requires i in run[k].calls && Placed(w, run, steps, k, i, run[k].calls[i], place)
    requires run[k].calls[i].outcome.Some? && run[k].calls[i].outcome != Some(Threw)
    ensures i in run[k + 1].calls && Placed(w, run, steps, k + 1, i, run[k + 1].calls[i], place')
  {
    hide Answered, Reserved, Coalesced, Report;
    StepOfRun(w, run, steps, k);
    var c, c' := run[k].calls[i], run[k + 1].calls[i];
    ReportTells(c, c.outcome.value, |c.owned|);
    place' := seq(|place|, n requires 0 <= n < |place| => Moved(place[n], |c.results|));
    forall n | 0 <= n < |place| ensures Stands(w, run, steps, k + 1, i, c', n, place'[n]) {
      if place[n].Kept? {
        KeptIsTold(w, run, steps, k, i, c', n, place[n].at);
      } else {
        SpotStays(w, run, steps, k, i, c, c', n, place[n]);
      }
    }
  }

  // ---- The waits -------------------------------------------------------------------------------

  /** What a wait adds: the answer that fits the owner's outcome, or the timeout's. */
  lemma WaitTells(w: Cache, run: seq<State>, steps: seq<Step>, k: nat, i: nat)
    requires IsRun(w, run, steps) && k < |steps| && (steps[k].WaitReady? || steps[k].WaitTimeout?) && steps[k].call == i
    ensures i in run[k].calls && i in run[k + 1].calls
    ensures var c, c' := run[k].calls[i], run[k + 1].calls[i];
            && c.pc.Waiting? && c.pc.next < |c.waits| && c'.pc == Waiting(c.pc.next + 1) && c'.items == c.items
            && c'.guarded == c.guarded && c'.owned == c.owned && c'.waits == c.waits
            && |c'.results| == |c.results| + 1 && c.results <= c'.results
            && var r, o := c'.results[|c.results|], c.waits[c.pc.next];
               ToldOfWait(run, steps, k + 1, i, o, r)
  {
    hide SlotOk, HeldOk, StoreOk;
    StepOfRun(w, run, steps, k);
    var s := run[k];
    var c, c' := s.calls[i], run[k + 1].calls[i];
    var o := c.waits[c.pc.next];
    assert Waits(run, steps, k + 1, i, o, k);
    if steps[k].WaitReady? {
      RunKeepsInv(w, run, steps, k);
      var result, at := OwnerTold(w, s, i, o);
      assert OwnersOutcome(s, o.promise, result, at);
    }
  }

  lemma OwnerTold(w: Cache, s: State, i: nat, o: Owned) returns (result: Outcome, at: int)
    requires Inv(w, s) && i in s.calls && o in s.calls[i].waits && o.promise in s.acks
    ensures OwnersOutcome(s, o.promise, result, at) && s.acks[o.promise].receivedAt == at
    ensures s.acks[o.promise].status ==
            match result
            case Committed => DuplicateCoalesced
            case Ambiguous(_, _) => PersistenceAmbiguous
            case _ => PersistenceFailed
    ensures !result.Committed? ==>
              s.acks[o.promise].code ==
              match result
              case Failed(code, _) => code
              case Ambiguous(code, _) => code
              case _ => "REPOSITORY_ERROR"
  {
    hide HeldOk, StoreOk;
    assert CallOk(s, i, s.calls[i]);
    assert SlotOk(w, s, o.promise);
    result := s.calls[s.promises[o.promise].owner].outcome.value;
    at := s.promises[o.promise].item.receivedAt;
  }

  lemma WaitPlaces(w: Cache, run: seq<State>, steps: seq<Step>, k: nat, i: nat, place: seq<Spot>)
    returns (place': seq<Spot>)
    requires IsRun(w, run, steps) && k < |steps| && (steps[k].WaitReady? || steps[k].WaitTimeout?) && steps[k].call == i
    requires i in run[k].calls && Placed(w, run, steps, k, i, run[k].calls[i], place)
    ensures i in run[k + 1].calls && Placed(w, run, steps, k + 1, i, run[k + 1].calls[i], place')
  {
    hide Answered, Reserved, Coalesced, ToldOfWait;
    WaitTells(w, run, steps, k, i);
    var c, c' := run[k].calls[i], run[k + 1].calls[i];
    var x, fresh0 := c.pc.next, Told(|c.results|);
    place' := seq(|place|, n requires 0 <= n < |place| => if place[n] == Joined(x) then fresh0 else place[n]);
    forall n | 0 <= n < |place| ensures Stands(w, run, steps, k + 1, i, c', n, place'[n]) && place[n] != fresh0 {
      if place[n] == Joined(x) {
        JoinedIsTold(w, run, steps, k, i, c, c', n);
      } else {
        SpotStays(w, run, steps, k, i, c, c', n, place[n]);
      }
    }
  }

  lemma JoinedIsTold(w: Cache, run: seq<State>, steps: seq<Step>, k: nat, i: nat, c: Call, c': Call, n: nat)
    requires c.pc.Waiting? && c.pc.next < |c.waits| && n < |c.items| && c'.items == c.items && c'.guarded == c.guarded
    requires Stands(w, run, steps, k, i, c, n, Joined(c.pc.next)) && |c'.results| == |c.results| + 1
    requires var r, o := c'.results[|c.results|], c.waits[c.pc.next];
             ToldOfWait(run, steps, k + 1, i, o, r)
    ensures Stands(w, run, steps, k + 1, i, c', n, Told(|c.results|))
  {
    hide Replies, ToldOfWait, ToldOfWrite;
    var r, o := c'.results[|c.results|], c.waits[c.pc.next];
    var j: nat :| j < k && Replies(w, run, steps, j, i, n, o.item, CoalescedInFlight(o.promise));
    assert o == Owned(o.promise, o.item);
    assert AnsweredFrom(w, run, steps, k + 1, i, n, o.item, r, j);
  }

  // ---- Every other step ------------------------------------------------------------------------

  lemma QuietStep(w: Cache, s: State, step: Step)
    requires Inv(w, s) && Enabled(w, s, step) && !step.Sweep?
    requires step.WriteReturns? || step.WriteThrows? || step.AckLock? || step.AckFulfil? || step.Finish?
    ensures step.call in Apply(w, s, step).calls
    ensures var c, c' := s.calls[step.call], Apply(w, s, step).calls[step.call];
            && c'.items == c.items && c'.guarded == c.guarded && c'.results == c.results && c'.owned == c.owned
            && c'.waits == c.waits && !c'.pc.Acquiring? && (c.pc.Acquiring? ==> c.pc.next == |c.items|)
            && (c'.pc.Waiting? || c'.pc.Returned? ==> c.pc.Waiting? || c.owned == [])
            && (c'.pc.Waiting? ==> c'.pc.next == 0) && (c'.pc.Returned? ==> c.pc.Waiting? && c.pc.next == |c.waits|)
  {
    hide Commit, Rollback, EvictExpired, SlotOk, HeldOk, StoreOk;
    assert CallOk(s, step.call, s.calls[step.call]);
  }

  lemma QuietPlaces(w: Cache, run: seq<State>, steps: seq<Step>, k: nat, i: nat, place: seq<Spot>)
    requires IsRun(w, run, steps) && k < |steps| && !steps[k].Sweep? && steps[k].call == i
    requires steps[k].WriteReturns? || steps[k].WriteThrows? || steps[k].AckLock? || steps[k].AckFulfil? ||
             steps[k].Finish?
    requires i in run[k].calls && Placed(w, run, steps, k, i, run[k].calls[i], place)
    ensures i in run[k + 1].calls && Placed(w, run, steps, k + 1, i, run[k + 1].calls[i], place)
  {
    hide Answered, Reserved, Coalesced, Inv, Apply, Enabled;
    StepOfRun(w, run, steps, k);
    RunKeepsInv(w, run, steps, k);
    QuietStep(w, run[k], steps[k]);
    var c, c' := run[k].calls[i], run[k + 1].calls[i];
    forall n | 0 <= n < |place| ensures Stands(w, run, steps, k + 1, i, c', n, place[n]) {
      SpotStays(w, run, steps, k, i, c, c', n, place[n]);
    }
  }

  lemma SameCallPlaces(w: Cache, run: seq<State>, steps: seq<Step>, k: nat, i: nat, c: Call, place: seq<Spot>)
    requires Placed(w, run, steps, k, i, c, place)
    ensures Placed(w, run, steps, k + 1, i, c, place)
  {
    hide Answered, Reserved, Coalesced;
    forall n | 0 <= n < |place| ensures Stands(w, run, steps, k + 1, i, c, n, place[n]) {
      SpotStays(w, run, steps, k, i, c, c, n, place[n]);
    }
  }

  // ---- Runs ------------------------------------------------------------------------------------

  /** A call that still acquires was not refused for its size. */
  lemma {:induction false} AcquiringIsSmall(w: Cache, run: seq<State>, steps: seq<Step>, k: nat, i: nat)
    requires IsRun(w, run, steps) && k < |run| && i in run[k].calls && !run[k].calls[i].pc.Returned?
    ensures !TooMany(run[k].calls[i])
  {
    hide Acquire, Commit, Rollback, EvictExpired;
    assert k > 0;
    var s, step := run[k - 1], steps[k - 1];
    StepOfRun(w, run, steps, k - 1);
    if i in s.calls {
      Accounts.RunKeepsFair(w, run, steps, k - 1, i, None);
      StaysReturned(w, s, step, i);
      AcquiringIsSmall(w, run, steps, k - 1, i);
    }
  }

  lemma StaysReturned(w: Cache, s: State, step: Step, i: nat)
    requires Enabled(w, s, step) && i in s.calls
    ensures i in Apply(w, s, step).calls
    ensures var c, c' := s.calls[i], Apply(w, s, step).calls[i];
            c'.items == c.items && c'.guarded == c.guarded && c'.now == c.now && (c.pc.Returned? ==> c'.pc.Returned?)
  {
    hide Acquire, Commit, Rollback, EvictExpired;
    if step.AckDone? && step.call == i {
      ReportTells(s.calls[i], s.calls[i].outcome.value, |s.calls[i].owned|);
    }
  }

  lemma {:induction false} RunPlaces(w: Cache, run: seq<State>, steps: seq<Step>, k: nat, i: nat)
    returns (place: seq<Spot>)
    requires IsRun(w, run, steps) && k < |run| && i in run[k].calls && !run[k].calls[i].pc.Unwound?
    ensures Placed(w, run, steps, k, i, run[k].calls[i], place)
  {
    hide Placed, Inv, Start;
    assert k > 0;
    var s, step := run[k - 1], steps[k - 1];
    StepOfRun(w, run, steps, k - 1);
    if step.Begin? && step.call == i {
      place := BeginPlaces(w, run, steps, k, i, step.guarded, step.items, step.now);
    } else if step.Sweep? || step.call != i {
      Accounts.OtherCallsUntouched(w, s, step, i);
      place := RunPlaces(w, run, steps, k - 1, i);
      SameCallPlaces(w, run, steps, k - 1, i, s.calls[i], place);
    } else {
      place := RunPlaces(w, run, steps, k - 1, i);
      place := OwnStepPlaces(w, run, steps, k - 1, i, place);
    }
  }

  lemma OwnStepPlaces(w: Cache, run: seq<State>, steps: seq<Step>, k: nat, i: nat, place: seq<Spot>)
    returns (place': seq<Spot>)
    requires IsRun(w, run, steps) && k < |steps| && !steps[k].Begin? && !steps[k].Sweep? && steps[k].call == i
    requires i in run[k].calls && i in run[k + 1].calls && !run[k + 1].calls[i].pc.Unwound?
    requires Placed(w, run, steps, k, i, run[k].calls[i], place)
    ensures Placed(w, run, steps, k + 1, i, run[k + 1].calls[i], place')
  {
    hide Placed, Report;
    StepOfRun(w, run, steps, k);
    match steps[k]
    case AcquireNext(_, _) =>
      AcquiringIsSmall(w, run, steps, k, i);
      place' := PresentPlaces(w, run, steps, k, i, place);
    case AckDone(_) => place' := DonePlaces(w, run, steps, k, i, place);
    case WaitReady(_) => place' := WaitPlaces(w, run, steps, k, i, place);
    case WaitTimeout(_) => place' := WaitPlaces(w, run, steps, k, i, place);
    case _ =>
      QuietPlaces(w, run, steps, k, i, place);
      place' := place;
  }

  /** A call carries what it was begun with. */
  lemma {:induction false} CallWasBegun(w: Cache, run: seq<State>, steps: seq<Step>, k: nat, i: nat) returns (b: nat)
    requires IsRun(w, run, steps) && k < |run| && i in run[k].calls
    ensures var c := run[k].calls[i];
            b < k && steps[b] == Begin(i, c.guarded, c.items, c.now)
  {
    assert k > 0;
    var s, step := run[k - 1], steps[k - 1];
    StepOfRun(w, run, steps, k - 1);
    if i in s.calls {
      b := CallWasBegun(w, run, steps, k - 1, i);
      StaysReturned(w, s, step, i);
    } else {
      b := k - 1;
      BegunAs(w, s, step, i);
    }
  }

  lemma BegunAs(w: Cache, s: State, step: Step, i: nat)
    requires Enabled(w, s, step) && i !in s.calls && i in Apply(w, s, step).calls
    ensures var c := Apply(w, s, step).calls[i];
            step == Begin(i, c.guarded, c.items, c.now)
  {
    hide Acquire, Commit, Rollback, EvictExpired;
    if step.Begin? {
      RejectAllTells(Call(step.guarded, step.items, step.now, Acquiring(0), [], [], None, [], 0, 0, []), |step.items|);
    }
  }

  /** When a call returns, the events and the results correspond one to one, and the result of each event
      says what became of it: refused by validation, known to the cache, in conflict, written with the
      outcome the repository returned, or coalesced with the outcome of the call that wrote it. */
  lemma ReturnedCallAnswersEveryEvent(w: Cache, run: seq<State>, steps: seq<Step>, k: nat, i: nat)
    returns (place: seq<nat>)
    requires IsRun(w, run, steps) && k < |run| && i in run[k].calls && run[k].calls[i].pc.Returned?
    ensures var c := run[k].calls[i];
            && |place| == |c.items| == |c.results|
            && (forall m, n :: 0 <= m < n < |place| ==> place[m] != place[n])
            && forall n :: 0 <= n < |place| ==>
                 place[n] < |c.results| && Answered(w, run, steps, k, i, c, n, c.results[place[n]])
    ensures var c := run[k].calls[i];
            exists b :: 0 <= b < k && steps[b] == Begin(i, c.guarded, c.items, c.now)
  {
    hide Answered, Reserved, Coalesced;
    var spots := RunPlaces(w, run, steps, k, i);
    var c := run[k].calls[i];
    assert forall n :: 0 <= n < |spots| ==> Stands(w, run, steps, k, i, c, n, spots[n]) && spots[n].Told?;
    place := seq(|spots|, n requires 0 <= n < |spots| => spots[n].at);
    Accounts.ReturnedCallAccountsForEveryEvent(w, run, steps, k, i);
    var b := CallWasBegun(w, run, steps, k, i);
  }

  /** The repository is never called with nothing to write. */
  lemma {:induction false} WritesSomething(w: Cache, run: seq<State>, steps: seq<Step>, k: nat, i: nat)
    requires IsRun(w, run, steps) && k < |run| && i in run[k].calls && run[k].calls[i].pc.Writing?
    ensures run[k].calls[i].owned != []
  {
    hide Acquire, Commit, Rollback, EvictExpired, Report, Await;
    assert k > 0;
    StepOfRun(w, run, steps, k - 1);
    if steps[k - 1].Sweep? || steps[k - 1].call != i {
      Accounts.OtherCallsUntouched(w, run[k - 1], steps[k - 1], i);
      WritesSomething(w, run, steps, k - 1, i);
    }
  }
}
