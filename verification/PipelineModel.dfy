/** The staged ingestion pipeline as a step system: submitters, validation workers, the aggregator,
    insert workers and the thread that runs shutdown. Each queue operation under its mutex, each
    flag access and each completion is one step, so a run is any interleaving of these threads. */
module PipelineModel {

  /** An envelope, by identity; each is submitted with a fresh completion promise. */
  type Envelope = nat

  datatype Queue<T> = Queue(items: seq<T>, shutdown: bool, capacity: nat) {
    predicate Accepts() {
      !shutdown && |items| < capacity
    }

    function Push(x: T): Queue<T> {
      this.(items := items + [x])
    }

    function Pop(): Queue<T>
      requires items != []
    {
      this.(items := items[1..])
    }
  }

  /** A validation worker. `drain` says which of the two loops it will return to. */
  datatype Validator =
    | VTop                                   // reading running_
    | VPop                                   // in pop(50ms)
    | VEmpty                                 // pop found nothing; asking is_shutdown
    | VHold(env: Envelope, drain: bool)      // in process_envelope, not yet validated
    | VPush(env: Envelope, drain: bool)      // in push_with_timeout
    | VFull(env: Envelope, drain: bool)      // push failed; asking is_shutdown
    | VDrain                                 // in pop(0) of the drain loop
    | VExit

  datatype Resume = ToTimer | ToTop | ToDrain | ToExit

  datatype Aggregator =
    | ATop
    | APop
    | ATimer                                                  // deciding whether the delay has elapsed
    | AFlush(batch: seq<Envelope>, count: bool, resume: Resume) // in push_with_timeout
    | AFull(batch: seq<Envelope>, count: bool, resume: Resume)  // push failed; asking is_shutdown
    | ADrain
    | ALast                                                   // flushing what is left
    | AExit

  datatype Inserter =
    | ITop
    | IPop
    | IEmpty
    | IHold(batch: seq<Envelope>, drain: bool)                // in insert_batch
    | IComplete(rest: seq<Envelope>, ok: bool, drain: bool)   // completing the envelopes one by one
    | IDrain
    | IExit

  /** How far shutdown has come, one constructor per finished statement. */
  datatype Stage =
    | Running | NotAccepting | InputShut | ValidatorsTold | ValidatorsJoined
    | ValidatedShut | AggregatorTold | AggregatorJoined | BatchesShut | InsertersTold | Stopped

  function Rank(s: Stage): nat {
    match s
    case Running => 0
    case NotAccepting => 1
    case InputShut => 2
    case ValidatorsTold => 3
    case ValidatorsJoined => 4
    case ValidatedShut => 5
    case AggregatorTold => 6
    case AggregatorJoined => 7
    case BatchesShut => 8
    case InsertersTold => 9
    case Stopped => 10
  }

  /** How an envelope was completed: refused or failed, ignored as a duplicate, or persisted. */
  datatype Result = Failure | DuplicateIgnored | Success

  datatype Completion = Completion(env: Envelope, result: Result)

  /** What validation and the deduplication hook say; the hook the pipeline installs never reports a duplicate. */
  datatype Verdict = Invalid | Duplicate | Valid

  datatype Step =
    | Offer(env: Envelope)
    | Submit(env: Envelope)
    | Validate(worker: nat, verdict: Verdict)
    | Aggregate(elapsed: bool)
    | Insert(worker: nat, ok: bool)
    | Shut

  // ---- One validation worker -------------------------------------------------------------------

  /** What a step of a validation worker changes. `lost` is an envelope dropped because the output
      queue was shut down under the worker. */
  datatype VEffect = VEffect(v: Validator, input: Queue<Envelope>, validated: Queue<Envelope>,
                             done: seq<Completion>, lost: seq<Envelope>)

  function AfterV(drain: bool): Validator {
    if drain then VDrain else VTop
  }

  function StepV(v: Validator, running: bool, input: Queue<Envelope>, validated: Queue<Envelope>,
                 verdict: Verdict): VEffect {
    match v
    case VTop => VEffect(if running then VPop else VDrain, input, validated, [], [])
    case VPop =>
      if input.items == [] then VEffect(VEmpty, input, validated, [], [])
      else VEffect(VHold(input.items[0], false), input.Pop(), validated, [], [])
    case VEmpty => VEffect(if input.shutdown then VDrain else VTop, input, validated, [], [])
    case VHold(e, d) =>
      if verdict.Valid? then VEffect(VPush(e, d), input, validated, [], [])
      else VEffect(AfterV(d), input, validated,
                   [Completion(e, if verdict.Duplicate? then DuplicateIgnored else Failure)], [])
    case VPush(e, d) =>
      if validated.Accepts() then VEffect(AfterV(d), input, validated.Push(e), [], [])
      else VEffect(VFull(e, d), input, validated, [], [])
    case VFull(e, d) =>
      if validated.shutdown then VEffect(AfterV(d), input, validated, [], [e])
      else VEffect(VPush(e, d), input, validated, [], [])
    case VDrain =>
      if input.items == [] then VEffect(VExit, input, validated, [], [])
      else VEffect(VHold(input.items[0], true), input.Pop(), validated, [], [])
    case VExit => VEffect(v, input, validated, [], [])
  }

  // ---- The aggregator --------------------------------------------------------------------------

  /** The aggregator's own variables, with the history of what it popped and dispatched. */
  datatype Agg = Agg(pc: Aggregator, active: seq<Envelope>, maxBatch: nat,
                     dispatched: nat, countTriggers: nat, timerTriggers: nat,
                     popped: seq<Envelope>, flushed: seq<seq<Envelope>>)

  datatype AEffect = AEffect(a: Agg, validated: Queue<Envelope>, batches: Queue<seq<Envelope>>, lost: seq<Envelope>)

  function ResumeAt(r: Resume): Aggregator {
    match r
    case ToTimer => ATimer
    case ToTop => ATop
    case ToDrain => ADrain
    case ToExit => AExit
  }

  /** flush_active_batch up to the push: the active batch is swapped out. */
  function Flush(a: Agg, count: bool, resume: Resume): Agg {
    if a.active == [] then a.(pc := ResumeAt(resume)) else a.(pc := AFlush(a.active, count, resume), active := [])
  }

  /** pop returned `e`: append it, and flush on reaching the size limit. */
  function Take(a: Agg, e: Envelope, resume: Resume): Agg {
    var a' := a.(active := a.active + [e], popped := a.popped + [e]);
    if |a'.active| >= a.maxBatch then Flush(a', true, resume) else a'.(pc := ResumeAt(resume))
  }

  /** The counters at the end of flush_active_batch. */
  function Counted(a: Agg, batch: seq<Envelope>, count: bool, resume: Resume): Agg {
    a.(pc := ResumeAt(resume), dispatched := a.dispatched + 1, flushed := a.flushed + [batch],
       countTriggers := a.countTriggers + (if count then 1 else 0),
       timerTriggers := a.timerTriggers + (if count then 0 else 1))
  }

  function StepA(a: Agg, running: bool, validated: Queue<Envelope>, batches: Queue<seq<Envelope>>,
                 elapsed: bool): AEffect {
    match a.pc
    case ATop => AEffect(a.(pc := if running then APop else ADrain), validated, batches, [])
    case APop =>
      if validated.items == [] then AEffect(a.(pc := ATimer), validated, batches, [])
      else AEffect(Take(a, validated.items[0], ToTimer), validated.Pop(), batches, [])
    case ATimer =>
      AEffect(if a.active != [] && elapsed then Flush(a, false, ToTop) else a.(pc := ATop), validated, batches, [])
    case AFlush(b, c, r) =>
      if batches.Accepts() then AEffect(Counted(a, b, c, r), validated, batches.Push(b), [])
      else AEffect(a.(pc := AFull(b, c, r)), validated, batches, [])
    case AFull(b, c, r) =>
      if batches.shutdown then AEffect(Counted(a, b, c, r), validated, batches, b)
      else AEffect(a.(pc := AFlush(b, c, r)), validated, batches, [])
    case ADrain =>
      if validated.items == [] then AEffect(a.(pc := ALast), validated, batches, [])
      else AEffect(Take(a, validated.items[0], ToDrain), validated.Pop(), batches, [])
    case ALast => AEffect(Flush(a, false, ToExit), validated, batches, [])
    case AExit => AEffect(a, validated, batches, [])
  }

  // ---- One insert worker -----------------------------------------------------------------------

  datatype IEffect = IEffect(i: Inserter, batches: Queue<seq<Envelope>>, done: seq<Completion>, stored: set<Envelope>)

  function AfterI(drain: bool): Inserter {
    if drain then IDrain else ITop
  }

  /** `ok` is what the repository answers; a throw is handled like false. */
  function StepI(i: Inserter, running: bool, batches: Queue<seq<Envelope>>, ok: bool): IEffect {
    match i
    case ITop => IEffect(if running then IPop else IDrain, batches, [], {})
    case IPop =>
      if batches.items == [] then IEffect(IEmpty, batches, [], {})
      else IEffect(IHold(batches.items[0], false), batches.Pop(), [], {})
    case IEmpty => IEffect(if batches.shutdown then IDrain else ITop, batches, [], {})
    case IHold(b, d) =>
      if b == [] then IEffect(AfterI(d), batches, [], {})
      else IEffect(IComplete(b, ok, d), batches, [], if ok then set e | e in b else {})
    case IComplete(r, o, d) =>
      if r == [] then IEffect(AfterI(d), batches, [], {})
      else IEffect(IComplete(r[1..], o, d), batches, [Completion(r[0], if o then Success else Failure)], {})
    case IDrain =>
      if batches.items == [] then IEffect(IExit, batches, [], {})
      else IEffect(IHold(batches.items[0], true), batches.Pop(), [], {})
    case IExit => IEffect(i, batches, [], {})
  }

  // ---- The whole pipeline ----------------------------------------------------------------------

  datatype Control = Control(stage: Stage, accepting: bool, vRunning: bool, aRunning: bool, iRunning: bool)

  /** History: envelopes ever offered, submitters past the accepting_ check, envelopes whose submit
      returned true, completions, envelopes of batches the repository stored, envelopes dropped. */
  datatype Log = Log(offered: set<Envelope>, checked: set<Envelope>, accepted: seq<Envelope>,
                     completed: seq<Completion>, stored: set<Envelope>, lost: seq<Envelope>)

  datatype State = State(
    ctl: Control, input: Queue<Envelope>, validated: Queue<Envelope>, batches: Queue<seq<Envelope>>,
    validators: seq<Validator>, agg: Agg, inserters: seq<Inserter>, log: Log)

  function DoValidate(s: State, k: nat, verdict: Verdict): State
    requires k < |s.validators|
  {
    var x := StepV(s.validators[k], s.ctl.vRunning, s.input, s.validated, verdict);
    s.(validators := s.validators[k := x.v], input := x.input, validated := x.validated,
       log := s.log.(completed := s.log.completed + x.done, lost := s.log.lost + x.lost))
  }

  function DoAggregate(s: State, elapsed: bool): State {
    var x := StepA(s.agg, s.ctl.aRunning, s.validated, s.batches, elapsed);
    s.(agg := x.a, validated := x.validated, batches := x.batches, log := s.log.(lost := s.log.lost + x.lost))
  }

  function DoInsert(s: State, k: nat, ok: bool): State
    requires k < |s.inserters|
  {
    var x := StepI(s.inserters[k], s.ctl.iRunning, s.batches, ok);
    s.(inserters := s.inserters[k := x.i], batches := x.batches,
       log := s.log.(completed := s.log.completed + x.done, stored := s.log.stored + x.stored))
  }

  predicate AllVExit(vs: seq<Validator>) {
    forall v :: v in vs ==> v.VExit?
  }

  predicate AllIExit(xs: seq<Inserter>) {
    forall i :: i in xs ==> i.IExit?
  }

  /** AuditIngestionPipeline::shutdown, statement by statement; stop() tells a pool and then joins it. */
  function DoShut(s: State): State {
    match s.ctl.stage
    case Running => s.(ctl := s.ctl.(stage := NotAccepting, accepting := false))
    case NotAccepting => s.(ctl := s.ctl.(stage := InputShut), input := s.input.(shutdown := true))
    case InputShut => s.(ctl := s.ctl.(stage := ValidatorsTold, vRunning := false))
    case ValidatorsTold => s.(ctl := s.ctl.(stage := ValidatorsJoined))
    case ValidatorsJoined => s.(ctl := s.ctl.(stage := ValidatedShut), validated := s.validated.(shutdown := true))
    case ValidatedShut => s.(ctl := s.ctl.(stage := AggregatorTold, aRunning := false))
    case AggregatorTold => s.(ctl := s.ctl.(stage := AggregatorJoined))
    case AggregatorJoined => s.(ctl := s.ctl.(stage := BatchesShut), batches := s.batches.(shutdown := true))
    case BatchesShut => s.(ctl := s.ctl.(stage := InsertersTold, iRunning := false))
    case InsertersTold => s.(ctl := s.ctl.(stage := Stopped))
    case Stopped => s
  }

  function DoSubmit(s: State, e: Envelope): State {
    var log := s.log.(checked := s.log.checked - {e});
    if s.input.Accepts() then s.(input := s.input.Push(e), log := log.(accepted := log.accepted + [e]))
    else s.(log := log)
  }

  predicate Enabled(s: State, step: Step) {
    match step
    case Offer(e) => s.ctl.accepting && e !in s.log.offered
    case Submit(e) => e in s.log.checked
    case Validate(k, _) => k < |s.validators|
    case Aggregate(_) => true
    case Insert(k, _) => k < |s.inserters|
    case Shut =>
      && (s.ctl.stage == ValidatorsTold ==> AllVExit(s.validators))
      && (s.ctl.stage == AggregatorTold ==> s.agg.pc.AExit?)
      && (s.ctl.stage == InsertersTold ==> AllIExit(s.inserters))
  }

  function Apply(s: State, step: Step): State
    requires Enabled(s, step)
  {
    match step
    case Offer(e) => s.(log := s.log.(offered := s.log.offered + {e}, checked := s.log.checked + {e}))
    case Submit(e) => DoSubmit(s, e)
    case Validate(k, verdict) => DoValidate(s, k, verdict)
    case Aggregate(elapsed) => DoAggregate(s, elapsed)
    case Insert(k, ok) => DoInsert(s, k, ok)
    case Shut => DoShut(s)
  }

  datatype Config = Config(workers: nat, maxQueued: nat, batchSize: nat)

  /** The pipeline once start() has returned; the constructors replace zero by their defaults. */
  function Started(c: Config): State {
    var queue: Queue<Envelope> := Queue([], false, if c.maxQueued == 0 then 1 else c.maxQueued);
    State(
      Control(Running, true, true, true, true), queue, queue, Queue([], false, 32),
      seq(if c.workers == 0 then 4 else c.workers, i => VTop),
      Agg(ATop, [], if c.batchSize == 0 then 1000 else c.batchSize, 0, 0, 0, [], []),
      [ITop, ITop], Log({}, {}, [], [], {}, []))
  }

  ghost predicate IsRun(run: seq<State>, steps: seq<Step>, c: Config) {
    && |run| == |steps| + 1
    && run[0] == Started(c)
    && forall k :: 0 <= k < |steps| ==> Enabled(run[k], steps[k]) && run[k + 1] == Apply(run[k], steps[k])
  }
}
