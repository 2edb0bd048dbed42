/** The three queues of the pipeline: bounded, first in first out, and when a batch leaves the aggregator. */
module PipelineQueues {
  import opened PipelineModel
  import opened PipelineSafety

  // ---- Bounds ----------------------------------------------------------------------------------

  ghost predicate Bounded(s: State, c: Config) {
    && s.input.capacity == s.validated.capacity == (if c.maxQueued == 0 then 1 else c.maxQueued)
    && s.batches.capacity == 32 && s.agg.maxBatch == (if c.batchSize == 0 then 1000 else c.batchSize)
    && |s.input.items| <= s.input.capacity && |s.validated.items| <= s.validated.capacity
    && |s.batches.items| <= s.batches.capacity
  }

  lemma StepKeepsBounded(s: State, step: Step, c: Config)
    requires Bounded(s, c) && Enabled(s, step)
    ensures Bounded(Apply(s, step), c)
  {
  }

  /** No queue ever holds more than it was built for. */
  lemma {:induction false} QueuesAreBounded(run: seq<State>, steps: seq<Step>, c: Config, k: nat)
    requires IsRun(run, steps, c) && k < |run|
    ensures Bounded(run[k], c)
  {
    if k > 0 {
      QueuesAreBounded(run, steps, c, k - 1);
      StepKeepsBounded(run[k - 1], steps[k - 1], c);
    }
  }

  /** A submit past the accepting check is refused exactly when the queue is full or shut, and then
      nothing changes hands. */
  lemma SubmitExactly(run: seq<State>, steps: seq<Step>, c: Config, k: nat, e: Envelope)
    requires IsRun(run, steps, c) && k < |steps| && steps[k] == Submit(e)
    ensures var s, s' := run[k], run[k + 1];
            if s.input.shutdown || |s.input.items| == s.input.capacity
            then s'.log.accepted == s.log.accepted && s'.input == s.input
            else s'.log.accepted == s.log.accepted + [e] && s'.input.items == s.input.items + [e]
  {
    QueuesAreBounded(run, steps, c, k);
  }

  ghost predicate OfferedBefore(run: seq<State>, steps: seq<Step>, k: nat, e: Envelope) {
    exists j: nat :: j < k && j < |steps| && j < |run| && steps[j] == Offer(e) && run[j].ctl.stage.Running?
  }

  lemma {:induction false} AcceptingWhileRunning(run: seq<State>, steps: seq<Step>, c: Config, k: nat)
    requires IsRun(run, steps, c) && k < |run|
    ensures run[k].ctl.accepting <==> run[k].ctl.stage.Running?
  {
    if k > 0 {
      AcceptingWhileRunning(run, steps, c, k - 1);
      AcceptingStep(run[k - 1], steps[k - 1]);
    }
  }

  lemma AcceptingStep(s: State, step: Step)
    requires Enabled(s, step) && (s.ctl.accepting <==> s.ctl.stage.Running?)
    ensures Apply(s, step).ctl.accepting <==> Apply(s, step).ctl.stage.Running?
  {
  }

  lemma SubmittersStep(s: State, step: Step, e: Envelope)
    requires Enabled(s, step) && (e in Apply(s, step).log.checked || e in Apply(s, step).log.accepted)
    ensures e in s.log.checked || e in s.log.accepted || step == Offer(e)
  {
  }

  /** A submit that returns true began before shutdown did. */
  lemma {:induction false} AcceptedWasOffered(run: seq<State>, steps: seq<Step>, c: Config, k: nat, e: Envelope)
    requires IsRun(run, steps, c) && k < |run| && (e in run[k].log.accepted || e in run[k].log.checked)
    ensures OfferedBefore(run, steps, k, e)
  {
    hide Apply;
    if k > 0 {
      SubmittersStep(run[k - 1], steps[k - 1], e);
      if steps[k - 1] == Offer(e) {
        AcceptingWhileRunning(run, steps, c, k - 1);
      } else {
        AcceptedWasOffered(run, steps, c, k - 1, e);
      }
    }
  }

  // ---- First in, first out ---------------------------------------------------------------------

  /** What the workers have taken from the input queue, in the order they took it. */
  ghost function Taken(run: seq<State>, steps: seq<Step>, k: nat): seq<Envelope>
    requires k < |run| && k <= |steps|
  {
    if k == 0 then [] else Taken(run, steps, k - 1) + TakenAt(run[k - 1], steps[k - 1], run[k])
  }

  /** The worker of the step holds an envelope it did not hold before. */
  ghost function TakenAt(s: State, step: Step, s': State): seq<Envelope> {
    if step.Validate? && step.worker < |s.validators| && step.worker < |s'.validators| &&
       !s.validators[step.worker].VHold? && s'.validators[step.worker].VHold?
    then [s'.validators[step.worker].env]
    else []
  }

  /** What the workers have put on the validated queue. */
  ghost function Passed(run: seq<State>, steps: seq<Step>, k: nat): seq<Envelope>
    requires k < |run| && k <= |steps|
  {
    if k == 0 then [] else Passed(run, steps, k - 1) + PassedAt(run[k - 1], steps[k - 1], run[k])
  }

  /** The worker of the step is rid of the envelope it was pushing. */
  ghost function PassedAt(s: State, step: Step, s': State): seq<Envelope> {
    if step.Validate? && step.worker < |s.validators| && step.worker < |s'.validators| &&
       s.validators[step.worker].VPush? && !s'.validators[step.worker].VFull?
    then [s.validators[step.worker].env]
    else []
  }

  /** The batches the insert workers have taken. */
  ghost function TakenBatches(run: seq<State>, steps: seq<Step>, k: nat): seq<seq<Envelope>>
    requires k < |run| && k <= |steps|
  {
    if k == 0 then [] else TakenBatches(run, steps, k - 1) + BatchTakenAt(run[k - 1], steps[k - 1], run[k])
  }

  ghost function BatchTakenAt(s: State, step: Step, s': State): seq<seq<Envelope>> {
    if step.Insert? && step.worker < |s.inserters| && step.worker < |s'.inserters| &&
       !s.inserters[step.worker].IHold? && s'.inserters[step.worker].IHold?
    then [s'.inserters[step.worker].batch]
    else []
  }

  ghost predicate InOrder(run: seq<State>, steps: seq<Step>, k: nat)
    requires k < |run| && k <= |steps|
  {
    && run[k].log.accepted == Taken(run, steps, k) + run[k].input.items
    && Passed(run, steps, k) == run[k].agg.popped + run[k].validated.items
    && run[k].agg.flushed == TakenBatches(run, steps, k) + run[k].batches.items
  }

  lemma StepInput(s: State, step: Step, taken: seq<Envelope>)
    requires Enabled(s, step) && s.log.accepted == taken + s.input.items
    ensures var s' := Apply(s, step);
            s'.log.accepted == taken + TakenAt(s, step, s') + s'.input.items
  {
    HeadMoves(taken, s.input.items);
    if step.Submit? {
      EndGrows(taken, s.input.items, step.env);
    }
  }

  lemma HeadMoves<T>(taken: seq<T>, items: seq<T>)
    ensures taken + [] == taken
    ensures items != [] ==> taken + items == taken + [items[0]] + items[1..]
  {
  }

  lemma EndGrows<T>(taken: seq<T>, items: seq<T>, x: T)
    ensures taken + items + [x] == taken + (items + [x])
  {
  }

  lemma StepValidated(s: State, step: Step, passed: seq<Envelope>)
    requires Enabled(s, step) && passed == s.agg.popped + s.validated.items
    ensures var s' := Apply(s, step);
            passed + PassedAt(s, step, s') == s'.agg.popped + s'.validated.items
  {
    HeadMoves(s.agg.popped, s.validated.items);
    HeadMoves(passed, []);
    if step.Validate? && s.validators[step.worker].VPush? {
      EndGrows(s.agg.popped, s.validated.items, s.validators[step.worker].env);
    }
  }

  lemma StepBatches(s: State, step: Step, taken: seq<seq<Envelope>>)
    requires Enabled(s, step) && s.agg.flushed == taken + s.batches.items && Apply(s, step).log.lost == []
    requires InFlush(s.agg.pc) ==> s.agg.pc.batch != []
    ensures var s' := Apply(s, step);
            s'.agg.flushed == taken + BatchTakenAt(s, step, s') + s'.batches.items
  {
    HeadMoves(taken, s.batches.items);
    if InFlush(s.agg.pc) {
      EndGrows(taken, s.batches.items, s.agg.pc.batch);
      LossIsSeen(s.log.lost, s.agg.pc.batch);
    }
  }

  lemma LossIsSeen(lost: seq<Envelope>, b: seq<Envelope>)
    requires b != []
    ensures lost + b != []
  {
    assert |lost + b| > 0;
  }

  /** Every queue hands on what it was given, in the order it was given it. */
  lemma {:induction false} QueuesKeepOrder(run: seq<State>, steps: seq<Step>, c: Config, k: nat)
    requires IsRun(run, steps, c) && k < |run|
    ensures InOrder(run, steps, k)
  {
    hide TakenAt, PassedAt, BatchTakenAt, Apply, Inv, Enabled;
    if k > 0 {
      QueuesKeepOrder(run, steps, c, k - 1);
      NeverLostNeverTwice(run, steps, c, k, 0);
      FlushedIsNotEmpty(run, steps, c, k - 1);
      StepInput(run[k - 1], steps[k - 1], Taken(run, steps, k - 1));
      StepValidated(run[k - 1], steps[k - 1], Passed(run, steps, k - 1));
      StepBatches(run[k - 1], steps[k - 1], TakenBatches(run, steps, k - 1));
    }
  }

  lemma FlushedIsNotEmpty(run: seq<State>, steps: seq<Step>, c: Config, k: nat)
    requires IsRun(run, steps, c) && k < |run|
    ensures InFlush(run[k].agg.pc) ==> run[k].agg.pc.batch != []
  {
    RunKeepsInv(run, steps, c, k, 0);
  }

  // ---- When a batch leaves the aggregator ------------------------------------------------------

  /** The active batch is swapped out exactly when it has reached its size, when its delay has elapsed, or
      when the drained aggregator flushes the rest. */
  lemma FlushesExactlyWhen(run: seq<State>, steps: seq<Step>, c: Config, k: nat)
    requires IsRun(run, steps, c) && k < |steps| && steps[k].Aggregate? && !InFlush(run[k].agg.pc)
    ensures var a, a' := run[k].agg, run[k + 1].agg;
            var popped := a'.popped[|a.popped|..];
            && |a.popped| <= |a'.popped| && a.popped <= a'.popped
            && (InFlush(a'.pc) <==>
                  || |a.active + popped| == a.maxBatch
                  || (a.pc.ATimer? && steps[k].elapsed && a.active != []) || (a.pc.ALast? && a.active != []))
            && (if InFlush(a'.pc) then a'.pc.batch == a.active + popped && a'.active == []
                else a'.active == a.active + popped)
  {
    hide DoAggregate, InFlush;
    ActiveIsShort(run, steps, c, k);
    FlushStep(run[k], steps[k].elapsed);
  }

  lemma ActiveIsShort(run: seq<State>, steps: seq<Step>, c: Config, k: nat)
    requires IsRun(run, steps, c) && k < |run|
    ensures |run[k].agg.active| < run[k].agg.maxBatch
  {
    RunKeepsInv(run, steps, c, k, 0);
  }

  lemma FlushStep(s: State, elapsed: bool)
    requires !InFlush(s.agg.pc) && |s.agg.active| < s.agg.maxBatch
    ensures var a, a' := s.agg, DoAggregate(s, elapsed).agg;
            && |a.popped| <= |a'.popped| && a.popped <= a'.popped
            && var popped := a'.popped[|a.popped|..];
            && (InFlush(a'.pc) <==>
                  || |a.active + popped| == a.maxBatch
                  || (a.pc.ATimer? && elapsed && a.active != []) || (a.pc.ALast? && a.active != []))
            && (if InFlush(a'.pc) then a'.pc.batch == a.active + popped && a'.active == []
                else a'.active == a.active + popped)
  {
    AggregatorPops(s, elapsed);
    assert s.agg.active + [] == s.agg.active;
  }

  lemma AggregatorPops(s: State, elapsed: bool)
    ensures var a, a' := s.agg, DoAggregate(s, elapsed).agg;
            && a.popped <= a'.popped
            && a'.popped[|a.popped|..] ==
               if (a.pc.APop? || a.pc.ADrain?) && s.validated.items != [] then [s.validated.items[0]] else []
  {
  }
}
