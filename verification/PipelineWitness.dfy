/** A run of the pipeline in which shutdown returns and an envelope was accepted: the theorems about
    stopped pipelines are about something. */
module PipelineWitness {
  import opened PipelineModel

  ghost predicate Leads(run: seq<State>, steps: seq<Step>, c: Config, s: State) {
    IsRun(run, steps, c) && run[|run| - 1] == s
  }

  ghost predicate Reaches(c: Config, s: State) {
    exists run, steps :: Leads(run, steps, c, s)
  }

  lemma StartIsReached(c: Config)
    ensures Reaches(c, Started(c))
  {
    assert Leads([Started(c)], [], c, Started(c));
  }

  lemma StepIsReached(c: Config, s: State, step: Step)
    requires Reaches(c, s) && Enabled(s, step)
    ensures Reaches(c, Apply(s, step))
  {
    hide Apply, Enabled, Started;
    var run, steps :| Leads(run, steps, c, s);
    var run', steps' := run + [Apply(s, step)], steps + [step];
    forall k | 0 <= k < |steps'| ensures Enabled(run'[k], steps'[k]) && run'[k + 1] == Apply(run'[k], steps'[k]) {
      if k < |steps| {
        assert run'[k] == run[k] && run'[k + 1] == run[k + 1] && steps'[k] == steps[k];
      }
    }
    assert Leads(run', steps', c, Apply(s, step));
  }

  /** One validation worker, queues of one, batches of at most two. */
  const SMALL := Config(1, 1, 2)

  /** The state with these parts; the rest is as it was at the start. */
  function At(ctl: Control, input: seq<Envelope>, v: Validator, validated: seq<Envelope>, log: Log): State {
    var s := Started(SMALL);
    s.(ctl := ctl, input := s.input.(items := input, shutdown := Rank(ctl.stage) >= 2), validators := [v],
       validated := s.validated.(items := validated, shutdown := Rank(ctl.stage) >= 5), log := log)
  }

  function Accepted(e: Envelope): Log {
    Log({e}, {}, [e], [], {}, [])
  }

  function Stopping(stage: Stage): Control {
    Control(stage, Rank(stage) < 1, Rank(stage) < 3, Rank(stage) < 6, Rank(stage) < 9)
  }

  lemma StartIs()
    ensures Started(SMALL) == At(Stopping(Running), [], VTop, [], Log({}, {}, [], [], {}, []))
  {
    assert Started(SMALL).validators == [VTop];
  }

  /** Submitted, then shutdown up to telling the workers. */
  lemma Submitted(e: Envelope)
    ensures Reaches(SMALL, At(Stopping(ValidatorsTold), [e], VTop, [], Accepted(e)))
  {
    hide Reaches;
    StartIsReached(SMALL);
    StartIs();
    var s0 := Started(SMALL);
    StepIsReached(SMALL, s0, Offer(e));
    var s1 := Apply(s0, Offer(e));
    assert s1 == At(Stopping(Running), [], VTop, [], Log({e}, {e}, [], [], {}, []));
    StepIsReached(SMALL, s1, Submit(e));
    var s2 := Apply(s1, Submit(e));
    assert [] + [e] == [e] && {e} - {e} == {};
    assert s2 == At(Stopping(Running), [e], VTop, [], Accepted(e));
    Shutting(s2, NotAccepting);
    Shutting(At(Stopping(NotAccepting), [e], VTop, [], Accepted(e)), InputShut);
    Shutting(At(Stopping(InputShut), [e], VTop, [], Accepted(e)), ValidatorsTold);
  }

  /** One more statement of shutdown, as long as nothing has to be joined. */
  lemma Shutting(s: State, next: Stage)
    requires Reaches(SMALL, s) && Rank(next) == Rank(s.ctl.stage) + 1
    requires s.ctl == Stopping(s.ctl.stage) && Enabled(s, Shut)
    ensures Reaches(SMALL, DoShut(s)) && DoShut(s).ctl == Stopping(next)
  {
    hide Reaches;
    StepIsReached(SMALL, s, Shut);
  }

  /** The worker drains its queue and goes. */
  lemma Validated(e: Envelope)
    ensures Reaches(SMALL, At(Stopping(ValidatorsTold), [], VExit, [e], Accepted(e)))
  {
    hide Reaches;
    Submitted(e);
    var ctl, log := Stopping(ValidatorsTold), Accepted(e);
    Validating(At(ctl, [e], VTop, [], log), At(ctl, [e], VDrain, [], log));
    assert [e][1..] == [];
    Validating(At(ctl, [e], VDrain, [], log), At(ctl, [], VHold(e, true), [], log));
    Validating(At(ctl, [], VHold(e, true), [], log), At(ctl, [], VPush(e, true), [], log));
    assert [] + [e] == [e];
    Validating(At(ctl, [], VPush(e, true), [], log), At(ctl, [], VDrain, [e], log));
    Validating(At(ctl, [], VDrain, [e], log), At(ctl, [], VExit, [e], log));
  }

  lemma Validating(s: State, s': State)
    requires Reaches(SMALL, s) && |s.validators| == 1
    requires var x := StepV(s.validators[0], s.ctl.vRunning, s.input, s.validated, Valid);
             x.done == [] && x.lost == [] && s' == s.(validators := [x.v], input := x.input, validated := x.validated)
    ensures Reaches(SMALL, s')
  {
    hide Reaches, StepV;
    var x := StepV(s.validators[0], s.ctl.vRunning, s.input, s.validated, Valid);
    StepIsReached(SMALL, s, Validate(0, Valid));
    assert s.validators[0 := x.v] == [x.v];
    assert s.log.completed + [] == s.log.completed && s.log.lost + [] == s.log.lost;
  }

  /** The state once the validators are gone. */
  function Later(stage: Stage, validated: seq<Envelope>, a: Agg, batches: seq<seq<Envelope>>, ws: seq<Inserter>,
                 log: Log): State {
    var s := At(Stopping(stage), [], VExit, validated, log);
    s.(agg := a, batches := s.batches.(items := batches, shutdown := Rank(stage) >= 8), inserters := ws)
  }

  function Idle(): Agg {
    Started(SMALL).agg
  }

  lemma Joined(e: Envelope)
    ensures Reaches(SMALL, Later(AggregatorTold, [e], Idle(), [], [ITop, ITop], Accepted(e)))
  {
    hide Reaches;
    Validated(e);
    var s0 := Later(ValidatorsTold, [e], Idle(), [], [ITop, ITop], Accepted(e));
    assert s0 == At(Stopping(ValidatorsTold), [], VExit, [e], Accepted(e));
    Shutting(s0, ValidatorsJoined);
    Shutting(Later(ValidatorsJoined, [e], Idle(), [], [ITop, ITop], Accepted(e)), ValidatedShut);
    Shutting(Later(ValidatedShut, [e], Idle(), [], [ITop, ITop], Accepted(e)), AggregatorTold);
  }

  lemma Aggregating(stage: Stage, validated: seq<Envelope>, a: Agg, batches: seq<seq<Envelope>>, log: Log,
                    validated': seq<Envelope>, a': Agg, batches': seq<seq<Envelope>>)
    requires var s, s' := Later(stage, validated, a, batches, [ITop, ITop], log),
             Later(stage, validated', a', batches', [ITop, ITop], log);
             && Reaches(SMALL, s)
             && StepA(a, s.ctl.aRunning, s.validated, s.batches, false) == AEffect(a', s'.validated, s'.batches, [])
    ensures Reaches(SMALL, Later(stage, validated', a', batches', [ITop, ITop], log))
  {
    hide Reaches, StepA;
    StepIsReached(SMALL, Later(stage, validated, a, batches, [ITop, ITop], log), Aggregate(false));
    assert log.lost + [] == log.lost;
  }

  /** The aggregator drains its queue and flushes what is left. */
  function Flushed(e: Envelope): Agg {
    Agg(AExit, [], 2, 1, 0, 1, [e], [[e]])
  }

  lemma Batched(e: Envelope)
    ensures Reaches(SMALL, Later(AggregatorTold, [], Flushed(e), [[e]], [ITop, ITop], Accepted(e)))
  {
    hide Reaches;
    Joined(e);
    var told, log, a := AggregatorTold, Accepted(e), Idle();
    Aggregating(told, [e], a, [], log, [e], a.(pc := ADrain), []);
    var took := Agg(ADrain, [e], 2, 0, 0, 0, [e], []);
    assert [] + [e] == [e] && [e][1..] == [];
    Aggregating(told, [e], a.(pc := ADrain), [], log, [], took, []);
    Aggregating(told, [], took, [], log, [], took.(pc := ALast), []);
    var flushing := Agg(AFlush([e], false, ToExit), [], 2, 0, 0, 0, [e], []);
    Aggregating(told, [], took.(pc := ALast), [], log, [], flushing, []);
    assert [] + [[e]] == [[e]];
    Aggregating(told, [], flushing, [], log, [], Flushed(e), [[e]]);
  }

  lemma Handed(e: Envelope)
    ensures Reaches(SMALL, Later(InsertersTold, [], Flushed(e), [[e]], [ITop, ITop], Accepted(e)))
  {
    hide Reaches;
    Batched(e);
    Shutting(Later(AggregatorTold, [], Flushed(e), [[e]], [ITop, ITop], Accepted(e)), AggregatorJoined);
    Shutting(Later(AggregatorJoined, [], Flushed(e), [[e]], [ITop, ITop], Accepted(e)), BatchesShut);
    Shutting(Later(BatchesShut, [], Flushed(e), [[e]], [ITop, ITop], Accepted(e)), InsertersTold);
  }

  lemma Inserting(a: Agg, k: nat, ok: bool, batches: seq<seq<Envelope>>, ws: seq<Inserter>, log: Log,
                  batches': seq<seq<Envelope>>, ws': seq<Inserter>, log': Log)
    requires k < |ws|
    requires var s, s' := Later(InsertersTold, [], a, batches, ws, log),
             Later(InsertersTold, [], a, batches', ws', log');
             && Reaches(SMALL, s)
             && var x := StepI(ws[k], s.ctl.iRunning, s.batches, ok);
             && ws' == ws[k := x.i] && s'.batches == x.batches
             && log' == log.(completed := log.completed + x.done, stored := log.stored + x.stored)
    ensures Reaches(SMALL, Later(InsertersTold, [], a, batches', ws', log'))
  {
    hide Reaches, StepI;
    StepIsReached(SMALL, Later(InsertersTold, [], a, batches, ws, log), Insert(k, ok));
  }

  function Ended(e: Envelope, ok: bool): Log {
    Accepted(e).(completed := [Completion(e, if ok then Success else Failure)], stored := if ok then {e} else {})
  }

  lemma Taken(e: Envelope, ok: bool)
    ensures Reaches(SMALL, Later(InsertersTold, [], Flushed(e), [], [IHold([e], true), ITop], Accepted(e)))
  {
    hide Reaches;
    Handed(e);
    var a, log := Flushed(e), Accepted(e);
    Inserting(a, 0, ok, [[e]], [ITop, ITop], log, [[e]], [IDrain, ITop], log);
    assert [[e]][1..] == [];
    Inserting(a, 0, ok, [[e]], [IDrain, ITop], log, [], [IHold([e], true), ITop], log);
  }

  lemma Inserted(e: Envelope, ok: bool)
    ensures Reaches(SMALL, Later(InsertersTold, [], Flushed(e), [], [IExit, ITop], Ended(e, ok)))
  {
    hide Reaches;
    Taken(e, ok);
    var a, log := Flushed(e), Accepted(e);
    var kept := log.(stored := if ok then {e} else {});
    assert (set x | x in [e]) == {e};
    Inserting(a, 0, ok, [], [IHold([e], true), ITop], log, [], [IComplete([e], ok, true), ITop], kept);
    assert [e][1..] == [];
    Inserting(a, 0, ok, [], [IComplete([e], ok, true), ITop], kept, [], [IComplete([], ok, true), ITop], Ended(e, ok));
    Inserting(a, 0, ok, [], [IComplete([], ok, true), ITop], Ended(e, ok), [], [IDrain, ITop], Ended(e, ok));
    Inserting(a, 0, ok, [], [IDrain, ITop], Ended(e, ok), [], [IExit, ITop], Ended(e, ok));
  }

  /** For every envelope and either answer of the repository there is a run in which the envelope is
      accepted, shutdown returns, and the envelope was completed with that answer. */
  lemma ShutdownReturns(e: Envelope, ok: bool) returns (run: seq<State>, steps: seq<Step>, c: Config)
    ensures IsRun(run, steps, c)
    ensures var s := run[|run| - 1];
            && s.ctl.stage.Stopped? && s.log.accepted == [e]
            && s.log.completed == [Completion(e, if ok then Success else Failure)]
  {
    hide Reaches;
    Inserted(e, ok);
    var a, log := Flushed(e), Ended(e, ok);
    Inserting(a, 1, ok, [], [IExit, ITop], log, [], [IExit, IDrain], log);
    Inserting(a, 1, ok, [], [IExit, IDrain], log, [], [IExit, IExit], log);
    Shutting(Later(InsertersTold, [], a, [], [IExit, IExit], log), Stopped);
    c := SMALL;
    run, steps := RunTo(Later(Stopped, [], a, [], [IExit, IExit], log));
  }

  lemma RunTo(s: State) returns (run: seq<State>, steps: seq<Step>)
    requires Reaches(SMALL, s)
    ensures Leads(run, steps, SMALL, s)
  {
    run, steps :| Leads(run, steps, SMALL, s);
  }
}
