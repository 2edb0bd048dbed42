/** What every step of the pipeline keeps, and what holds once shutdown has returned. */
module PipelineSafety {
  import opened PipelineModel

  // ---- The drain order -------------------------------------------------------------------------

  /** Which flags are set at which stage of shutdown. */
  ghost predicate Flags(s: State) {
    var r := Rank(s.ctl.stage);
    && (s.input.shutdown <==> r >= 2) && (s.ctl.vRunning <==> r < 3)
    && (s.validated.shutdown <==> r >= 5) && (s.ctl.aRunning <==> r < 6)
    && (s.batches.shutdown <==> r >= 8) && (s.ctl.iRunning <==> r < 9)
  }

  ghost predicate VDraining(v: Validator) {
    v.VDrain? || v.VExit? || ((v.VHold? || v.VPush? || v.VFull?) && v.drain)
  }

  ghost predicate VOk(v: Validator, r: nat, input: Queue<Envelope>) {
    && (VDraining(v) ==> input.shutdown)
    && (v.VExit? ==> input.items == [])
    && (r >= 4 ==> v.VExit?)
  }

  ghost predicate InFlush(a: Aggregator) {
    a.AFlush? || a.AFull?
  }

  ghost predicate ADraining(a: Aggregator) {
    a.ADrain? || a.ALast? || a.AExit? || (InFlush(a) && (a.resume.ToDrain? || a.resume.ToExit?))
  }

  ghost predicate AFinishing(a: Aggregator) {
    a.ALast? || a.AExit? || (InFlush(a) && a.resume.ToExit?)
  }

  ghost predicate AOk(a: Agg, r: nat, validated: Queue<Envelope>) {
    && (ADraining(a.pc) ==> r >= 6)
    && (AFinishing(a.pc) ==> validated.items == [])
    && (r >= 7 ==> a.pc.AExit?)
    && (a.pc.AExit? ==> a.active == [])
    && (InFlush(a.pc) ==> a.active == [] && 1 <= |a.pc.batch| <= a.maxBatch)
    && (InFlush(a.pc) ==> (a.pc.count <==> |a.pc.batch| == a.maxBatch))
    && |a.active| < a.maxBatch
  }

  ghost predicate IDraining(i: Inserter) {
    i.IDrain? || i.IExit? || ((i.IHold? || i.IComplete?) && i.drain)
  }

  ghost predicate IOk(i: Inserter, r: nat, batches: Queue<seq<Envelope>>) {
    && (IDraining(i) ==> batches.shutdown)
    && (i.IExit? ==> batches.items == [])
    && (r >= 10 ==> i.IExit?)
  }

  ghost predicate Ordered(s: State) {
    && Flags(s) && s.log.lost == []
    && AOk(s.agg, Rank(s.ctl.stage), s.validated)
    && (forall k :: 0 <= k < |s.validators| ==> VOk(s.validators[k], Rank(s.ctl.stage), s.input))
    && (forall k :: 0 <= k < |s.inserters| ==> IOk(s.inserters[k], Rank(s.ctl.stage), s.batches))
  }

  /** Popping keeps the flag and an empty queue; pushing into a shut queue is impossible. */
  ghost predicate Evolves<T>(q: Queue<T>, q': Queue<T>, pushes: bool) {
    && q'.shutdown == q.shutdown
    && (q.items == [] && (!pushes || q.shutdown) ==> q'.items == [])
  }

  lemma ValidatorOrder(v: Validator, r: nat, input: Queue<Envelope>, validated: Queue<Envelope>, verdict: Verdict)
    requires VOk(v, r, input) && (input.shutdown <==> r >= 2) && (validated.shutdown <==> r >= 5)
    ensures var x := StepV(v, r < 3, input, validated, verdict);
            VOk(x.v, r, x.input) && x.lost == [] && Evolves(input, x.input, false) &&
              Evolves(validated, x.validated, true)
  {
  }

  lemma AggregatorOrder(a: Agg, r: nat, validated: Queue<Envelope>, batches: Queue<seq<Envelope>>, elapsed: bool)
    requires AOk(a, r, validated) && (batches.shutdown <==> r >= 8)
    ensures var x := StepA(a, r < 6, validated, batches, elapsed);
            AOk(x.a, r, x.validated) && x.lost == [] && Evolves(validated, x.validated, false) &&
              Evolves(batches, x.batches, true)
  {
  }

  lemma InserterOrder(i: Inserter, r: nat, batches: Queue<seq<Envelope>>, ok: bool)
    requires IOk(i, r, batches) && (batches.shutdown <==> r >= 8)
    ensures var x := StepI(i, r < 9, batches, ok);
            IOk(x.i, r, x.batches) && Evolves(batches, x.batches, false)
  {
  }

  lemma ValidateKeepsOrder(s: State, k: nat, verdict: Verdict)
    requires Ordered(s) && k < |s.validators|
    ensures Ordered(DoValidate(s, k, verdict))
  {
    ValidatorOrder(s.validators[k], Rank(s.ctl.stage), s.input, s.validated, verdict);
  }

  lemma AggregateKeepsOrder(s: State, elapsed: bool)
    requires Ordered(s)
    ensures Ordered(DoAggregate(s, elapsed))
  {
    AggregatorOrder(s.agg, Rank(s.ctl.stage), s.validated, s.batches, elapsed);
  }

  lemma InsertKeepsOrder(s: State, k: nat, ok: bool)
    requires Ordered(s) && k < |s.inserters|
    ensures Ordered(DoInsert(s, k, ok))
  {
    InserterOrder(s.inserters[k], Rank(s.ctl.stage), s.batches, ok);
  }

  lemma ShutKeepsOrder(s: State)
    requires Ordered(s) && Enabled(s, Shut)
    ensures Ordered(DoShut(s))
  {
    var s' := DoShut(s);
    forall k | 0 <= k < |s.validators|
      ensures VOk(s'.validators[k], Rank(s'.ctl.stage), s'.input)
    {
      assert VOk(s.validators[k], Rank(s.ctl.stage), s.input);
    }
    forall k | 0 <= k < |s.inserters|
      ensures IOk(s'.inserters[k], Rank(s'.ctl.stage), s'.batches)
    {
      assert IOk(s.inserters[k], Rank(s.ctl.stage), s.batches);
    }
  }

  lemma StepKeepsOrder(s: State, step: Step)
    requires Ordered(s) && Enabled(s, step)
    ensures Ordered(Apply(s, step))
  {
    match step
    case Offer(e) =>
    case Submit(e) =>
    case Validate(k, verdict) => ValidateKeepsOrder(s, k, verdict);
    case Aggregate(elapsed) => AggregateKeepsOrder(s, elapsed);
    case Insert(k, ok) => InsertKeepsOrder(s, k, ok);
    case Shut => ShutKeepsOrder(s);
  }

  // ---- Conservation ----------------------------------------------------------------------------

  function One(b: bool): nat {
    if b then 1 else 0
  }

  function Count(xs: seq<Envelope>, e: Envelope): nat {
    if xs == [] then 0 else One(xs[0] == e) + Count(xs[1..], e)
  }

  function CountBatches(bs: seq<seq<Envelope>>, e: Envelope): nat {
    if bs == [] then 0 else Count(bs[0], e) + CountBatches(bs[1..], e)
  }

  function CountCompleted(cs: seq<Completion>, e: Envelope): nat {
    if cs == [] then 0 else One(cs[0].env == e) + CountCompleted(cs[1..], e)
  }

  function InValidator(v: Validator, e: Envelope): nat {
    One((v.VHold? || v.VPush? || v.VFull?) && v.env == e)
  }

  function InValidators(vs: seq<Validator>, e: Envelope): nat {
    if vs == [] then 0 else InValidator(vs[0], e) + InValidators(vs[1..], e)
  }

  function InInserter(i: Inserter, e: Envelope): nat {
    match i
    case IHold(b, _) => Count(b, e)
    case IComplete(r, _, _) => Count(r, e)
    case _ => 0
  }

  function InInserters(xs: seq<Inserter>, e: Envelope): nat {
    if xs == [] then 0 else InInserter(xs[0], e) + InInserters(xs[1..], e)
  }

  /** The batch being pushed. */
  function InHand(a: Aggregator): seq<Envelope> {
    match a
    case AFlush(b, _, _) => b
    case AFull(b, _, _) => b
    case _ => []
  }

  function InAggregator(a: Agg, e: Envelope): nat {
    Count(a.active, e) + Count(InHand(a.pc), e)
  }

  /** How often one envelope is in a queue, batch or worker. */
  function Holding(s: State, e: Envelope): nat {
    Count(s.input.items, e) + InValidators(s.validators, e) + Count(s.validated.items, e)
    + InAggregator(s.agg, e) + CountBatches(s.batches.items, e) + InInserters(s.inserters, e)
  }

  ghost predicate Conserved(s: State, e: Envelope) {
    Count(s.log.accepted, e) == CountCompleted(s.log.completed, e) + Holding(s, e) + Count(s.log.lost, e)
  }

  lemma {:induction false} CountAppend(xs: seq<Envelope>, ys: seq<Envelope>, e: Envelope)
    ensures Count(xs + ys, e) == Count(xs, e) + Count(ys, e)
  {
    if xs == [] {
      assert xs + ys == ys;
    } else {
      CountAppend(xs[1..], ys, e);
      assert (xs + ys)[1..] == xs[1..] + ys;
    }
  }

  lemma {:induction false} CountBatchesAppend(bs: seq<seq<Envelope>>, b: seq<Envelope>, e: Envelope)
    ensures CountBatches(bs + [b], e) == CountBatches(bs, e) + Count(b, e)
  {
    if bs != [] {
      CountBatchesAppend(bs[1..], b, e);
      assert (bs + [b])[1..] == bs[1..] + [b];
    }
  }

  lemma {:induction false} CountCompletedAppend(cs: seq<Completion>, ds: seq<Completion>, e: Envelope)
    ensures CountCompleted(cs + ds, e) == CountCompleted(cs, e) + CountCompleted(ds, e)
  {
    if cs == [] {
      assert cs + ds == ds;
    } else {
      CountCompletedAppend(cs[1..], ds, e);
      assert (cs + ds)[1..] == cs[1..] + ds;
    }
  }

  lemma {:induction false} InValidatorsSet(vs: seq<Validator>, k: nat, v: Validator, e: Envelope)
    requires k < |vs|
    ensures InValidators(vs[k := v], e) + InValidator(vs[k], e) == InValidators(vs, e) + InValidator(v, e)
  {
    if k > 0 {
      InValidatorsSet(vs[1..], k - 1, v, e);
      assert vs[k := v][1..] == vs[1..][k - 1 := v];
    } else {
      assert vs[0 := v][1..] == vs[1..];
    }
  }

  lemma {:induction false} InInsertersSet(xs: seq<Inserter>, k: nat, i: Inserter, e: Envelope)
    requires k < |xs|
    ensures InInserters(xs[k := i], e) + InInserter(xs[k], e) == InInserters(xs, e) + InInserter(i, e)
  {
    if k > 0 {
      InInsertersSet(xs[1..], k - 1, i, e);
      assert xs[k := i][1..] == xs[1..][k - 1 := i];
    } else {
      assert xs[0 := i][1..] == xs[1..];
    }
  }

  lemma ValidatorConserves(v: Validator, running: bool, input: Queue<Envelope>, validated: Queue<Envelope>,
                           verdict: Verdict, e: Envelope)
    ensures var x := StepV(v, running, input, validated, verdict);
            InValidator(v, e) + Count(input.items, e) + Count(validated.items, e)
            == InValidator(x.v, e) + Count(x.input.items, e) + Count(x.validated.items, e) + CountCompleted(x.done, e) +
              Count(x.lost, e)
  {
    if v.VPush? {
      CountAppend(validated.items, [v.env], e);
    }
  }

  lemma TakeConserves(a: Agg, x: Envelope, r: Resume, e: Envelope)
    requires !InFlush(a.pc)
    ensures InAggregator(Take(a, x, r), e) == InAggregator(a, e) + One(x == e)
  {
    CountAppend(a.active, [x], e);
  }

  lemma AggregatorConserves(a: Agg, running: bool, validated: Queue<Envelope>, batches: Queue<seq<Envelope>>,
                            elapsed: bool, e: Envelope)
    ensures var x := StepA(a, running, validated, batches, elapsed);
            InAggregator(a, e) + Count(validated.items, e) + CountBatches(batches.items, e)
            == InAggregator(x.a, e) + Count(x.validated.items, e) + CountBatches(x.batches.items, e) + Count(x.lost, e)
  {
    match a.pc
    case APop =>
      if validated.items != [] {
        TakeConserves(a, validated.items[0], ToTimer, e);
      }
    case ADrain =>
      if validated.items != [] {
        TakeConserves(a, validated.items[0], ToDrain, e);
      }
    case AFlush(b, c, t) => CountBatchesAppend(batches.items, b, e);
    case _ =>
  }

  lemma InserterConserves(i: Inserter, running: bool, batches: Queue<seq<Envelope>>, ok: bool, e: Envelope)
    ensures var x := StepI(i, running, batches, ok);
            InInserter(i, e) + CountBatches(batches.items, e)
            == InInserter(x.i, e) + CountBatches(x.batches.items, e) + CountCompleted(x.done, e)
  {
  }

  lemma ValidateConserves(s: State, k: nat, verdict: Verdict, e: Envelope)
    requires Conserved(s, e) && k < |s.validators|
    ensures Conserved(DoValidate(s, k, verdict), e)
  {
    var x := StepV(s.validators[k], s.ctl.vRunning, s.input, s.validated, verdict);
    ValidatorConserves(s.validators[k], s.ctl.vRunning, s.input, s.validated, verdict, e);
    InValidatorsSet(s.validators, k, x.v, e);
    CountCompletedAppend(s.log.completed, x.done, e);
    CountAppend(s.log.lost, x.lost, e);
  }

  lemma AggregateConserves(s: State, elapsed: bool, e: Envelope)
    requires Conserved(s, e)
    ensures Conserved(DoAggregate(s, elapsed), e)
  {
    AggregatorConserves(s.agg, s.ctl.aRunning, s.validated, s.batches, elapsed, e);
    CountAppend(s.log.lost, StepA(s.agg, s.ctl.aRunning, s.validated, s.batches, elapsed).lost, e);
  }

  lemma InsertConserves(s: State, k: nat, ok: bool, e: Envelope)
    requires Conserved(s, e) && k < |s.inserters|
    ensures Conserved(DoInsert(s, k, ok), e)
  {
    var x := StepI(s.inserters[k], s.ctl.iRunning, s.batches, ok);
    InserterConserves(s.inserters[k], s.ctl.iRunning, s.batches, ok, e);
    InInsertersSet(s.inserters, k, x.i, e);
    CountCompletedAppend(s.log.completed, x.done, e);
  }

  lemma SubmitConserves(s: State, x: Envelope, e: Envelope)
    requires Conserved(s, e)
    ensures Conserved(DoSubmit(s, x), e)
  {
    hide Count, CountCompleted, CountBatches, InValidators, InInserters, InAggregator;
    CountAppend(s.input.items, [x], e);
    CountAppend(s.log.accepted, [x], e);
  }

  lemma ShutConserves(s: State, e: Envelope)
    requires Conserved(s, e)
    ensures Conserved(DoShut(s), e)
  {
    hide Count, CountCompleted, CountBatches, InValidators, InInserters, InAggregator;
    var s' := DoShut(s);
    assert s' == s.(ctl := s'.ctl, input := s'.input, validated := s'.validated, batches := s'.batches);
    assert s'.input.items == s.input.items && s'.validated.items == s.validated.items &&
           s'.batches.items == s.batches.items;
  }

  lemma StepConserves(s: State, step: Step, e: Envelope)
    requires Conserved(s, e) && Enabled(s, step)
    ensures Conserved(Apply(s, step), e)
  {
    match step
    case Offer(x) =>
    case Submit(x) => SubmitConserves(s, x, e);
    case Validate(k, verdict) => ValidateConserves(s, k, verdict, e);
    case Aggregate(elapsed) => AggregateConserves(s, elapsed, e);
    case Insert(k, ok) => InsertConserves(s, k, ok, e);
    case Shut => ShutConserves(s, e);
  }

  // ---- Acceptance is at most once per envelope -------------------------------------------------

  ghost predicate OnceAccepted(l: Log, e: Envelope) {
    && Count(l.accepted, e) <= 1
    && (Count(l.accepted, e) > 0 ==> e !in l.checked && e in l.offered)
    && l.checked <= l.offered
  }

  lemma StepKeepsOnce(s: State, step: Step, e: Envelope)
    requires OnceAccepted(s.log, e) && Enabled(s, step)
    ensures OnceAccepted(Apply(s, step).log, e)
  {
    if step.Submit? {
      CountAppend(s.log.accepted, [step.env], e);
    }
  }

  // ---- The aggregator's ledger -----------------------------------------------------------------

  function Concat(bs: seq<seq<Envelope>>): seq<Envelope> {
    if bs == [] then [] else Concat(bs[..|bs| - 1]) + bs[|bs| - 1]
  }

  /** How many of the batches are full. */
  function FullBatches(bs: seq<seq<Envelope>>, size: nat): nat {
    if bs == [] then 0 else FullBatches(bs[..|bs| - 1], size) + One(|bs[|bs| - 1]| == size)
  }

  /** Dispatched batches, then the one being pushed, then the active one: exactly what was popped. */
  ghost predicate Ledger(a: Agg) {
    && Concat(a.flushed) + InHand(a.pc) + a.active == a.popped
    && (forall b :: b in a.flushed ==> 1 <= |b| <= a.maxBatch)
    && a.dispatched == |a.flushed| == a.countTriggers + a.timerTriggers
    && a.countTriggers == FullBatches(a.flushed, a.maxBatch)
  }

  lemma TakeKeepsLedger(a: Agg, e: Envelope, r: Resume)
    requires Ledger(a) && !InFlush(a.pc)
    ensures Ledger(Take(a, e, r))
  {
    var c := Concat(a.flushed);
    assert c + [] + (a.active + [e]) == c + [] + a.active + [e] == c + (a.active + [e]) + [];
  }

  lemma CountedKeepsLedger(a: Agg, count: bool, r: Resume)
    requires Ledger(a) && InFlush(a.pc) && 1 <= |a.pc.batch| <= a.maxBatch && (count <==> |a.pc.batch| == a.maxBatch)
    ensures Ledger(Counted(a, a.pc.batch, count, r))
  {
    var b := a.pc.batch;
    assert (a.flushed + [b])[..|a.flushed|] == a.flushed;
    assert Concat(a.flushed) + b + a.active == Concat(a.flushed + [b]) + [] + a.active;
  }

  lemma FlushKeepsLedger(a: Agg, count: bool, r: Resume)
    requires Ledger(a) && !InFlush(a.pc)
    ensures Ledger(Flush(a, count, r))
  {
    var c := Concat(a.flushed);
    assert c + [] + a.active == c + a.active + [];
  }

  lemma FullKeepsLedger(a: Agg, batches: Queue<seq<Envelope>>, validated: Queue<Envelope>, elapsed: bool)
    requires Ledger(a) && InFlush(a.pc) && 1 <= |a.pc.batch| <= a.maxBatch
    requires a.pc.count <==> |a.pc.batch| == a.maxBatch
    ensures Ledger(StepA(a, true, validated, batches, elapsed).a)
  {
    CountedKeepsLedger(a, a.pc.count, a.pc.resume);
  }

  lemma PopKeepsLedger(a: Agg, batches: Queue<seq<Envelope>>, validated: Queue<Envelope>, elapsed: bool)
    requires Ledger(a) && (a.pc.APop? || a.pc.ADrain?)
    ensures Ledger(StepA(a, true, validated, batches, elapsed).a)
  {
    if validated.items != [] {
      TakeKeepsLedger(a, validated.items[0], if a.pc.APop? then ToTimer else ToDrain);
    }
  }

  lemma AggregateKeepsLedger(a: Agg, r: nat, running: bool, validated: Queue<Envelope>, batches: Queue<seq<Envelope>>,
                             elapsed: bool)
    requires AOk(a, r, validated) && Ledger(a)
    ensures Ledger(StepA(a, running, validated, batches, elapsed).a)
  {
    if InFlush(a.pc) {
      FullKeepsLedger(a, batches, validated, elapsed);
    } else if a.pc.APop? || a.pc.ADrain? {
      PopKeepsLedger(a, batches, validated, elapsed);
    } else {
      FlushKeepsLedger(a, false, if a.pc.ALast? then ToExit else ToTop);
    }
  }

  // ---- Success means stored --------------------------------------------------------------------

  ghost predicate Truthful(l: Log) {
    forall c :: c in l.completed && c.result.Success? ==> c.env in l.stored
  }

  ghost predicate Backed(i: Inserter, stored: set<Envelope>) {
    i.IComplete? && i.ok ==> forall e :: e in i.rest ==> e in stored
  }

  ghost predicate AllTruthful(s: State) {
    Truthful(s.log) && forall k :: 0 <= k < |s.inserters| ==> Backed(s.inserters[k], s.log.stored)
  }

  lemma InserterTruth(i: Inserter, running: bool, batches: Queue<seq<Envelope>>, ok: bool, stored: set<Envelope>)
    requires Backed(i, stored)
    ensures var x := StepI(i, running, batches, ok);
            Backed(x.i, stored + x.stored) && forall c :: c in x.done && c.result.Success? ==> c.env in stored
  {
  }

  lemma InsertKeepsTruth(s: State, k: nat, ok: bool)
    requires AllTruthful(s) && k < |s.inserters|
    ensures AllTruthful(DoInsert(s, k, ok))
  {
    InserterTruth(s.inserters[k], s.ctl.iRunning, s.batches, ok, s.log.stored);
  }

  lemma ValidateKeepsTruth(s: State, k: nat, verdict: Verdict)
    requires AllTruthful(s) && k < |s.validators|
    ensures AllTruthful(DoValidate(s, k, verdict))
  {
  }

  lemma StepKeepsTruth(s: State, step: Step)
    requires AllTruthful(s) && Enabled(s, step)
    ensures AllTruthful(Apply(s, step))
  {
    match step
    case Insert(k, ok) => InsertKeepsTruth(s, k, ok);
    case Validate(k, verdict) => ValidateKeepsTruth(s, k, verdict);
    case _ =>
  }

  // ---- Runs ------------------------------------------------------------------------------------

  ghost predicate Inv(s: State, e: Envelope) {
    && Ordered(s) && Conserved(s, e) && OnceAccepted(s.log, e) && Ledger(s.agg) && AllTruthful(s)
    && s.validators != [] && s.inserters != []
  }

  lemma {:induction false} IdleHoldsNothing(n: nat, e: Envelope)
    ensures InValidators(seq(n, i => VTop), e) == 0
  {
    if n > 0 {
      IdleHoldsNothing(n - 1, e);
      assert seq(n, i => VTop)[1..] == seq(n - 1, i => VTop);
    }
  }

  lemma StartKeepsInv(c: Config, e: Envelope)
    ensures Inv(Started(c), e)
  {
    hide Ordered, Conserved;
    StartConserves(c, e);
    StartIsOrdered(c);
  }

  lemma StartIsOrdered(c: Config)
    ensures Ordered(Started(c))
  {
  }

  lemma StartConserves(c: Config, e: Envelope)
    ensures Conserved(Started(c), e)
  {
    IdleHoldsNothing(if c.workers == 0 then 4 else c.workers, e);
    assert InInserters([ITop], e) == 0;
    assert [ITop, ITop][1..] == [ITop];
  }

  lemma StepKeepsLedger(s: State, step: Step)
    requires Ordered(s) && Ledger(s.agg) && Enabled(s, step)
    ensures Ledger(Apply(s, step).agg)
  {
    if step.Aggregate? {
      AggregateKeepsLedger(s.agg, Rank(s.ctl.stage), s.ctl.aRunning, s.validated, s.batches, step.elapsed);
    }
  }

  lemma StepKeepsPools(s: State, step: Step)
    requires Enabled(s, step)
    ensures |Apply(s, step).validators| == |s.validators| && |Apply(s, step).inserters| == |s.inserters|
  {
  }

  lemma StepKeepsInv(s: State, step: Step, e: Envelope)
    requires Inv(s, e) && Enabled(s, step)
    ensures Inv(Apply(s, step), e)
  {
    StepKeepsOrder(s, step);
    StepConserves(s, step, e);
    StepKeepsOnce(s, step, e);
    StepKeepsLedger(s, step);
    StepKeepsTruth(s, step);
    StepKeepsPools(s, step);
  }

  lemma {:induction false} RunKeepsInv(run: seq<State>, steps: seq<Step>, c: Config, k: nat, e: Envelope)
    requires IsRun(run, steps, c) && k < |run|
    ensures Inv(run[k], e)
  {
    if k == 0 {
      StartKeepsInv(c, e);
    } else {
      RunKeepsInv(run, steps, c, k - 1, e);
      StepKeepsInv(run[k - 1], steps[k - 1], e);
    }
  }

  lemma {:induction false} ExitedValidatorsHoldNothing(vs: seq<Validator>, e: Envelope)
    requires forall k :: 0 <= k < |vs| ==> vs[k].VExit?
    ensures InValidators(vs, e) == 0
  {
    if vs != [] {
      ExitedValidatorsHoldNothing(vs[1..], e);
    }
  }

  lemma {:induction false} ExitedInsertersHoldNothing(xs: seq<Inserter>, e: Envelope)
    requires forall k :: 0 <= k < |xs| ==> xs[k].IExit?
    ensures InInserters(xs, e) == 0
  {
    if xs != [] {
      ExitedInsertersHoldNothing(xs[1..], e);
    }
  }

  lemma StoppedHoldsNothing(s: State, e: Envelope)
    requires Ordered(s) && s.ctl.stage.Stopped? && s.validators != [] && s.inserters != []
    ensures Holding(s, e) == 0
    ensures s.input.items == [] && s.validated.items == [] && s.batches.items == [] && s.agg.active == []
  {
    ExitedValidatorsHoldNothing(s.validators, e);
    ExitedInsertersHoldNothing(s.inserters, e);
    assert VOk(s.validators[0], 10, s.input) && IOk(s.inserters[0], 10, s.batches);
  }

  /** In every interleaving, once shutdown has returned, an envelope has been completed exactly once if
      its submit returned true and never otherwise, and nothing is left in a queue, batch or worker. */
  lemma ShutdownCompletesEveryAcceptedEnvelope(run: seq<State>, steps: seq<Step>, c: Config, k: nat, e: Envelope)
    requires IsRun(run, steps, c) && k < |run| && run[k].ctl.stage.Stopped?
    ensures CountCompleted(run[k].log.completed, e) == Count(run[k].log.accepted, e) <= 1
    ensures Holding(run[k], e) == 0
    ensures run[k].input.items == [] && run[k].validated.items == [] && run[k].batches.items == []
    ensures run[k].agg.active == []
  {
    RunKeepsInv(run, steps, c, k, e);
    StoppedHoldsNothing(run[k], e);
  }

  /** At every moment an accepted envelope is in exactly one place or completed, once, and none is dropped. */
  lemma NeverLostNeverTwice(run: seq<State>, steps: seq<Step>, c: Config, k: nat, e: Envelope)
    requires IsRun(run, steps, c) && k < |run|
    ensures CountCompleted(run[k].log.completed, e) + Holding(run[k], e) == Count(run[k].log.accepted, e) <= 1
    ensures run[k].log.lost == []
  {
    RunKeepsInv(run, steps, c, k, e);
  }

  /** At every moment of the aggregator's run. */
  lemma AggregatorLedgerBalances(run: seq<State>, steps: seq<Step>, c: Config, k: nat)
    requires IsRun(run, steps, c) && k < |run|
    ensures var a := run[k].agg;
            && Concat(a.flushed) + InHand(a.pc) + a.active == a.popped
            && (forall b :: b in a.flushed ==> 1 <= |b| <= a.maxBatch)
            && a.dispatched == |a.flushed| == a.countTriggers + a.timerTriggers
            && a.countTriggers == FullBatches(a.flushed, a.maxBatch)
  {
    RunKeepsInv(run, steps, c, k, 0);
  }

  /** A success completion follows a repository call that stored a batch with that envelope. */
  lemma SuccessMeansStored(run: seq<State>, steps: seq<Step>, c: Config, k: nat, x: Completion)
    requires IsRun(run, steps, c) && k < |run| && x in run[k].log.completed && x.result.Success?
    ensures x.env in run[k].log.stored
  {
    RunKeepsInv(run, steps, c, k, 0);
  }
}
