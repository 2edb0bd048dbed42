/** The counters and item results of a call, over every interleaving. */
module IngestionAccounting {
  import opened Types
  import opened DedupSpec
  import opened IngestionProtocol

  /** What is counted: the occurrences of one id, or, for None, everything. */
  type Probe = Option<EventId>

  function Hit(x: Probe, id: EventId): nat {
    if x.None? || x.value == id then 1 else 0
  }

  function CountItems(xs: seq<Item>, x: Probe): nat {
    if xs == [] then 0 else Hit(x, xs[0].id) + CountItems(xs[1..], x)
  }

  function CountOwned(xs: seq<Owned>, x: Probe): nat {
    if xs == [] then 0 else Hit(x, xs[0].item.id) + CountOwned(xs[1..], x)
  }

  function CountResults(rs: seq<ItemResult>, x: Probe): nat {
    if rs == [] then 0 else CountResults(rs[..|rs| - 1], x) + Hit(x, rs[|rs| - 1].id)
  }

  /** The ids of the failing results, in order. */
  function FailingIds(rs: seq<ItemResult>): seq<EventId> {
    if rs == [] then []
    else
      var n := |rs| - 1;
      FailingIds(rs[..n]) + if rs[n].success then [] else [rs[n].id]
  }

  function Successes(rs: seq<ItemResult>): nat {
    if rs == [] then 0
    else
      var n := |rs| - 1;
      Successes(rs[..n]) + if rs[n].success then 1 else 0
  }

  ghost predicate Tally(c: Call) {
    c.accepted == Successes(c.results) && c.rejectedIds == FailingIds(c.results) && c.rejected == |c.rejectedIds|
  }

  ghost predicate InRange(c: Call) {
    (c.pc.Acquiring? ==> c.pc.next <= |c.items|) && (c.pc.Waiting? ==> c.pc.next <= |c.waits|)
  }

  /** Events that have no result yet, by where the call keeps them. */
  ghost function Pending(c: Call, x: Probe): nat
    requires InRange(c)
  {
    match c.pc
    case Acquiring(k) => CountItems(c.items[k..], x) + CountOwned(c.owned, x) + CountOwned(c.waits, x)
    case Waiting(k) => CountOwned(c.waits[k..], x)
    case Returned => 0
    case Unwound => 0
    case _ => CountOwned(c.owned, x) + CountOwned(c.waits, x)
  }

  /** Conservation: every event is pending in one place or has its one result. */
  ghost predicate Balanced(c: Call, x: Probe) {
    InRange(c) && (c.pc.Unwound? || CountResults(c.results, x) + Pending(c, x) == CountItems(c.items, x))
  }

  ghost predicate Fair(c: Call, x: Probe) {
    Tally(c) && Balanced(c, x)
  }

  lemma AppendTally(c: Call, c': Call, r: ItemResult)
    requires Tally(c) && c'.results == c.results + [r]
    requires c'.accepted == c.accepted + if r.success then 1 else 0
    requires c'.rejected == c.rejected + if r.success then 0 else 1
    requires c'.rejectedIds == c.rejectedIds + if r.success then [] else [r.id]
    ensures Tally(c')
  {
    assert c'.results[..|c.results|] == c.results;
  }

  lemma AppendResult(rs: seq<ItemResult>, r: ItemResult, x: Probe)
    ensures CountResults(rs + [r], x) == CountResults(rs, x) + Hit(x, r.id)
  {
    assert (rs + [r])[..|rs|] == rs;
  }

  lemma {:induction false} AppendOwned(xs: seq<Owned>, o: Owned, x: Probe)
    ensures CountOwned(xs + [o], x) == CountOwned(xs, x) + Hit(x, o.item.id)
  {
    if xs != [] {
      AppendOwned(xs[1..], o, x);
      assert (xs + [o])[1..] == xs[1..] + [o];
    }
  }

  lemma {:induction false} AppendItem(xs: seq<Item>, i: Item, x: Probe)
    ensures CountItems(xs + [i], x) == CountItems(xs, x) + Hit(x, i.id)
  {
    if xs != [] {
      AppendItem(xs[1..], i, x);
      assert (xs + [i])[1..] == xs[1..] + [i];
    }
  }

  lemma NextItem(xs: seq<Item>, k: nat, x: Probe)
    requires k < |xs|
    ensures CountItems(xs[k..], x) == Hit(x, xs[k].id) + CountItems(xs[k + 1..], x)
  {
    assert xs[k..][1..] == xs[k + 1..];
  }

  lemma NextWait(xs: seq<Owned>, k: nat, x: Probe)
    requires k < |xs|
    ensures CountOwned(xs[k..], x) == Hit(x, xs[k].item.id) + CountOwned(xs[k + 1..], x)
  {
    assert xs[k..][1..] == xs[k + 1..];
  }

  lemma DecideIsFair(c: Call, d: Decision, x: Probe)
    requires Fair(c, x) && c.pc.Acquiring? && c.pc.next < |c.items|
    ensures Fair(Decide(c.(pc := Acquiring(c.pc.next + 1)), c.items[c.pc.next], d), x)
  {
    hide CountItems, CountResults, CountOwned, Successes, FailingIds;
    var item := c.items[c.pc.next];
    var c' := Decide(c.(pc := Acquiring(c.pc.next + 1)), item, d);
    NextItem(c.items, c.pc.next, x);
    match d
    case AlreadyCommitted(at) =>
      var r := ItemResult(item.id, item.fp, true, DuplicateCommitted, Some(at), "");
      AppendTally(c, c', r);
      AppendResult(c.results, r, x);
    case PayloadConflict =>
      var r := ItemResult(item.id, item.fp, false, IdempotencyConflict, Some(item.receivedAt), "ALREADY_EXISTS");
      AppendTally(c, c', r);
      AppendResult(c.results, r, x);
    case CoalescedInFlight(p) => AppendOwned(c.waits, Owned(p, item), x);
    case AcquiredNewInFlight(p) => AppendOwned(c.owned, Owned(p, item), x);
  }

  lemma InvalidIsFair(c: Call, x: Probe)
    requires Fair(c, x) && c.pc.Acquiring? && c.pc.next < |c.items|
    ensures Fair(Refuse(c.(pc := Acquiring(c.pc.next + 1)), c.items[c.pc.next]), x)
  {
    hide CountItems, CountResults, CountOwned, Successes, FailingIds;
    var item := c.items[c.pc.next];
    var r := ItemResult(item.id, item.fp, false, ValidationRejected, None, "INVALID_ARGUMENT");
    NextItem(c.items, c.pc.next, x);
    AppendTally(c, Refuse(c.(pc := Acquiring(c.pc.next + 1)), item), r);
    AppendResult(c.results, r, x);
  }

  lemma NothingOwned(x: Probe)
    ensures CountOwned([], x) == 0
  {
  }

  lemma {:induction false} ReportTally(c: Call, o: Outcome, n: nat, x: Probe)
    requires n <= |c.owned| && Tally(c)
    ensures var r := Report(c, o, n);
            && Tally(r) && CountResults(r.results, x) == CountResults(c.results, x) + CountOwned(c.owned[..n], x)
            && r.items == c.items && r.owned == c.owned && r.waits == c.waits
  {
    hide Tally, CountResults, CountOwned, Hit;
    if n == 0 {
      NothingOwned(x);
    } else {
      ReportTally(c, o, n - 1, x);
      var q, r := Report(c, o, n - 1), Report(c, o, n);
      AppendTally(q, r, r.results[|q.results|]);
      AppendResult(q.results, r.results[|q.results|], x);
      assert c.owned[..n] == c.owned[..n - 1] + [c.owned[n - 1]];
      AppendOwned(c.owned[..n - 1], c.owned[n - 1], x);
    }
  }

  lemma DoneIsFair(c: Call, o: Outcome, x: Probe)
    requires Fair(c, x) && c.pc.Acking?
    ensures Fair(Report(c, o, |c.owned|).(pc := Waiting(0)), x)
  {
    ReportTally(c, o, |c.owned|, x);
    assert c.owned[..|c.owned|] == c.owned && c.waits[0..] == c.waits;
  }

  lemma WaitIsFair(c: Call, r: ItemResult, c': Call, x: Probe)
    requires Fair(c, x) && c.pc.Waiting? && c.pc.next < |c.waits| && r.id == c.waits[c.pc.next].item.id
    requires c' == c.(pc := Waiting(c.pc.next + 1), results := c.results + [r],
                      accepted := c.accepted + if r.success then 1 else 0,
                      rejected := c.rejected + if r.success then 0 else 1,
                      rejectedIds := c.rejectedIds + if r.success then [] else [r.id])
    ensures Fair(c', x)
  {
    NextWait(c.waits, c.pc.next, x);
    AppendTally(c, c', r);
    AppendResult(c.results, r, x);
  }

  lemma FinishIsFair(c: Call, x: Probe)
    requires Fair(c, x)
    requires (c.pc.Acquiring? && c.pc.next == |c.items|) || (c.pc.Waiting? && c.pc.next == |c.waits|)
    ensures Fair(c.(pc := if c.pc.Waiting? then Returned else if c.owned == [] then Waiting(0) else Writing), x)
  {
    if c.pc.Acquiring? {
      assert c.items[c.pc.next..] == [] && c.waits[0..] == c.waits;
    } else {
      assert c.waits[c.pc.next..] == [];
    }
  }

  lemma NothingCounted(x: Probe)
    ensures CountItems([], x) == 0 && CountResults([], x) == 0
  {
  }

  lemma {:induction false} RejectAllTally(c: Call, n: nat, x: Probe)
    requires n <= |c.items| && c.results == [] && Tally(c)
    ensures var r := RejectAll(c, n);
            && Tally(r) && CountResults(r.results, x) == CountItems(c.items[..n], x)
            && r.items == c.items
  {
    hide Tally, CountItems, CountResults;
    NothingCounted(x);
    if n > 0 {
      RejectAllTally(c, n - 1, x);
      var q, r := RejectAll(c, n - 1), RejectAll(c, n);
      AppendTally(q, r, r.results[|q.results|]);
      AppendResult(q.results, r.results[|q.results|], x);
      assert c.items[..n] == c.items[..n - 1] + [c.items[n - 1]];
      AppendItem(c.items[..n - 1], c.items[n - 1], x);
    }
  }

  lemma StartIsFair(guarded: bool, items: seq<Item>, now: int, x: Probe)
    ensures Fair(Start(guarded, items, now), x)
  {
    var c := Call(guarded, items, now, Acquiring(0), [], [], None, [], 0, 0, []);
    RejectAllTally(c, |items|, x);
    assert items[..|items|] == items == items[0..];
  }

  lemma AcquireCall(w: Cache, s: State, i: nat, valid: bool) returns (d: Decision)
    requires Enabled(w, s, AcquireNext(i, valid))
    ensures i in DoAcquire(w, s, i, valid).calls
    ensures var c := s.calls[i];
            var c', item := c.(pc := Acquiring(c.pc.next + 1)), c.items[c.pc.next];
            DoAcquire(w, s, i, valid).calls[i]
            == if valid then Decide(c', item, d) else Refuse(c', item)
  {
    var c := s.calls[i];
    var item := c.items[c.pc.next];
    d := Acquire(s.shards[Home(w, item.id)], item.id, item.fp, c.now, |s.promises|).1;
  }

  lemma AcquiredCallIsFair(c: Call, c': Call, valid: bool, d: Decision, x: Probe)
    requires Fair(c, x) && c.pc.Acquiring? && c.pc.next < |c.items|
    requires c' == var c1, item := c.(pc := Acquiring(c.pc.next + 1)), c.items[c.pc.next];
                   if valid then Decide(c1, item, d) else Refuse(c1, item)
    ensures Fair(c', x)
  {
    if valid {
      DecideIsFair(c, d, x);
    } else {
      InvalidIsFair(c, x);
    }
  }

  lemma AcquireStepIsFair(w: Cache, s: State, i: nat, valid: bool, x: Probe)
    requires Enabled(w, s, AcquireNext(i, valid)) && Fair(s.calls[i], x)
    ensures i in DoAcquire(w, s, i, valid).calls && Fair(DoAcquire(w, s, i, valid).calls[i], x)
  {
    hide Fair, Acquire;
    var d := AcquireCall(w, s, i, valid);
    AcquiredCallIsFair(s.calls[i], DoAcquire(w, s, i, valid).calls[i], valid, d, x);
  }

  lemma WaitStepIsFair(w: Cache, s: State, step: Step, x: Probe)
    requires Enabled(w, s, step) && (step.WaitReady? || step.WaitTimeout?) && Fair(s.calls[step.call], x)
    ensures step.call in Apply(w, s, step).calls && Fair(Apply(w, s, step).calls[step.call], x)
  {
    var c, c' := s.calls[step.call], Apply(w, s, step).calls[step.call];
    WaitIsFair(c, c'.results[|c.results|], c', x);
  }

  /** Steps that only move the program counter between stages where nothing is reported. */
  lemma SilentStepIsFair(w: Cache, s: State, step: Step, x: Probe)
    requires Enabled(w, s, step)
    requires step.AcquireThrows? || step.WriteReturns? || step.WriteThrows? || step.AckLock? || step.AckFulfil?
    requires Fair(s.calls[step.call], x)
    ensures step.call in Apply(w, s, step).calls && Fair(Apply(w, s, step).calls[step.call], x)
  {
  }

  lemma StepKeepsFair(w: Cache, s: State, step: Step, x: Probe)
    requires Enabled(w, s, step) && !step.Sweep? && (!step.Begin? ==> Fair(s.calls[step.call], x))
    ensures step.call in Apply(w, s, step).calls && Fair(Apply(w, s, step).calls[step.call], x)
  {
    match step
    case Begin(i, guarded, items, now) => StartIsFair(guarded, items, now, x);
    case AcquireNext(i, valid) => AcquireStepIsFair(w, s, i, valid, x);
    case AckDone(i) => DoneIsFair(s.calls[i], s.calls[i].outcome.value, x);
    case WaitReady(i) => WaitStepIsFair(w, s, step, x);
    case WaitTimeout(i) => WaitStepIsFair(w, s, step, x);
    case Finish(i) => FinishIsFair(s.calls[i], x);
    case _ => SilentStepIsFair(w, s, step, x);
  }

  /** A step touches no other call. */
  lemma OtherCallsUntouched(w: Cache, s: State, step: Step, i: nat)
    requires Enabled(w, s, step) && (step.Sweep? || i != step.call)
    ensures i in Apply(w, s, step).calls <==> i in s.calls
    ensures i in s.calls ==> Apply(w, s, step).calls[i] == s.calls[i]
  {
  }

  lemma {:induction false} RunKeepsFair(w: Cache, run: seq<State>, steps: seq<Step>, k: nat, i: nat, x: Probe)
    requires IsRun(w, run, steps) && k < |run| && i in run[k].calls
    ensures Fair(run[k].calls[i], x)
  {
    if k > 0 {
      var s, step := run[k - 1], steps[k - 1];
      assert Enabled(w, s, step) && run[k] == Apply(w, s, step);
      if i in s.calls {
        RunKeepsFair(w, run, steps, k - 1, i, x);
      }
      if step.Sweep? || i != step.call {
        OtherCallsUntouched(w, s, step, i);
      } else {
        StepKeepsFair(w, s, step, x);
      }
    }
  }

  /** When a call returns, every event it was given has exactly one result (each id as often among the
      results as among the events), the counters add up to the number of events, and the rejected ids
      are those of the failing results. */
  lemma ReturnedCallAccountsForEveryEvent(w: Cache, run: seq<State>, steps: seq<Step>, k: nat, i: nat)
    requires IsRun(w, run, steps) && k < |run| && i in run[k].calls && run[k].calls[i].pc.Returned?
    ensures var c := run[k].calls[i];
            && (forall id :: CountResults(c.results, Some(id)) == CountItems(c.items, Some(id)))
            && |c.results| == |c.items| == c.accepted + c.rejected
            && c.accepted == Successes(c.results)
            && c.rejectedIds == FailingIds(c.results) && c.rejected == |c.rejectedIds|
  {
    var c := run[k].calls[i];
    forall id ensures CountResults(c.results, Some(id)) == CountItems(c.items, Some(id)) {
      RunKeepsFair(w, run, steps, k, i, Some(id));
    }
    RunKeepsFair(w, run, steps, k, i, None);
    CountAllResults(c.results);
    CountAllItems(c.items);
  }

  lemma {:induction false} CountAllResults(rs: seq<ItemResult>)
    ensures Successes(rs) + |FailingIds(rs)| == |rs| == CountResults(rs, None)
  {
    if rs != [] {
      CountAllResults(rs[..|rs| - 1]);
    }
  }

  lemma {:induction false} CountAllItems(xs: seq<Item>)
    ensures CountItems(xs, None) == |xs|
  {
    if xs != [] {
      CountAllItems(xs[1..]);
    }
  }
}
