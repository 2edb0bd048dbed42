/** What validation and the repository say decides what becomes of an envelope, in every interleaving. */
module PipelineVerdicts {
  import opened PipelineModel
  import opened PipelineSafety

  /** Step `j` is where a worker that holds the envelope learns the verdict. */
  ghost predicate Judged(run: seq<State>, steps: seq<Step>, j: nat, e: Envelope, verdict: Verdict) {
    && j < |steps| && j < |run| && steps[j].Validate? && steps[j].verdict == verdict
    && steps[j].worker < |run[j].validators|
    && run[j].validators[steps[j].worker].VHold? && run[j].validators[steps[j].worker].env == e
  }

  /** Step `j` is where the repository answers for a batch with the envelope. */
  ghost predicate Sent(run: seq<State>, steps: seq<Step>, j: nat, e: Envelope, ok: bool) {
    && j < |steps| && j < |run| && steps[j].Insert? && steps[j].ok == ok && steps[j].worker < |run[j].inserters|
    && run[j].inserters[steps[j].worker].IHold? && e in run[j].inserters[steps[j].worker].batch
  }

  ghost predicate JudgedBefore(run: seq<State>, steps: seq<Step>, k: nat, e: Envelope, verdict: Verdict) {
    exists j: nat :: j < k && Judged(run, steps, j, e, verdict)
  }

  ghost predicate SentBefore(run: seq<State>, steps: seq<Step>, k: nat, e: Envelope, ok: bool) {
    exists j: nat :: j < k && Sent(run, steps, j, e, ok)
  }

  // ---- Behind validation -----------------------------------------------------------------------

  ghost predicate Passing(v: Validator, e: Envelope) {
    (v.VPush? || v.VFull?) && v.env == e
  }

  function BatchOf(i: Inserter): seq<Envelope> {
    match i
    case IHold(b, _) => b
    case IComplete(r, _, _) => r
    case _ => []
  }

  /** The envelope is somewhere behind validation. */
  ghost predicate Beyond(s: State, e: Envelope) {
    || (exists k :: 0 <= k < |s.validators| && Passing(s.validators[k], e))
    || e in s.validated.items || e in s.agg.active || e in InHand(s.agg.pc)
    || (exists b :: 0 <= b < |s.batches.items| && e in s.batches.items[b])
    || (exists k :: 0 <= k < |s.inserters| && e in BatchOf(s.inserters[k]))
  }

  ghost predicate Done(s: State, e: Envelope) {
    exists r :: Completion(e, r) in s.log.completed
  }

  ghost predicate PassedAt(s: State, step: Step, e: Envelope) {
    && step.Validate? && step.verdict.Valid? && step.worker < |s.validators|
    && s.validators[step.worker].VHold? && s.validators[step.worker].env == e
  }

  lemma ValidateBeyond(s: State, k: nat, verdict: Verdict, e: Envelope)
    requires k < |s.validators| && Beyond(DoValidate(s, k, verdict), e)
    ensures Beyond(s, e) || PassedAt(s, Validate(k, verdict), e)
  {
    var s' := DoValidate(s, k, verdict);
    if j :| 0 <= j < |s'.validators| && Passing(s'.validators[j], e) && j != k {
      assert Passing(s.validators[j], e);
    } else if b :| 0 <= b < |s'.batches.items| && e in s'.batches.items[b] {
      assert e in s.batches.items[b];
    } else if j :| 0 <= j < |s'.inserters| && e in BatchOf(s'.inserters[j]) {
      assert e in BatchOf(s.inserters[j]);
    } else {
      assert Passing(s.validators[k], e) || PassedAt(s, Validate(k, verdict), e) || Beyond(s, e);
    }
  }

  lemma AggregateBeyond(s: State, elapsed: bool, e: Envelope)
    requires Beyond(DoAggregate(s, elapsed), e)
    ensures Beyond(s, e)
  {
    var s' := DoAggregate(s, elapsed);
    if j :| 0 <= j < |s'.validators| && Passing(s'.validators[j], e) {
      assert Passing(s.validators[j], e);
    } else if b :| 0 <= b < |s'.batches.items| && e in s'.batches.items[b] {
      if b < |s.batches.items| {
        assert e in s.batches.items[b];
      }
    } else if j :| 0 <= j < |s'.inserters| && e in BatchOf(s'.inserters[j]) {
      assert e in BatchOf(s.inserters[j]);
    }
  }

  lemma InsertBeyond(s: State, k: nat, ok: bool, e: Envelope)
    requires k < |s.inserters| && Beyond(DoInsert(s, k, ok), e)
    ensures Beyond(s, e)
  {
    var s' := DoInsert(s, k, ok);
    if j :| 0 <= j < |s'.validators| && Passing(s'.validators[j], e) {
      assert Passing(s.validators[j], e);
    } else if b :| 0 <= b < |s'.batches.items| && e in s'.batches.items[b] {
      assert exists a :: 0 <= a < |s.batches.items| && s.batches.items[a] == s'.batches.items[b];
    } else if j :| 0 <= j < |s'.inserters| && e in BatchOf(s'.inserters[j]) {
      if j != k {
        assert e in BatchOf(s.inserters[j]);
      } else if s.inserters[k].IPop? || s.inserters[k].IDrain? {
        assert e in s.batches.items[0];
      } else {
        assert e in BatchOf(s.inserters[k]);
      }
    }
  }

  /** Only a verdict of Valid lets an envelope through. */
  lemma OnlyValidPasses(s: State, step: Step, e: Envelope)
    requires Enabled(s, step) && Beyond(Apply(s, step), e)
    ensures Beyond(s, e) || PassedAt(s, step, e)
  {
    hide DoValidate, DoAggregate, DoInsert;
    match step
    case Validate(k, verdict) => ValidateBeyond(s, k, verdict, e);
    case Aggregate(elapsed) => AggregateBeyond(s, elapsed, e);
    case Insert(k, ok) => InsertBeyond(s, k, ok, e);
    case _ => SameBehind(s, Apply(s, step), e);
  }

  lemma SameBehind(s: State, s': State, e: Envelope)
    requires s'.validators == s.validators && s'.validated.items == s.validated.items && s'.agg == s.agg
    requires s'.batches.items == s.batches.items && s'.inserters == s.inserters
    ensures Beyond(s', e) <==> Beyond(s, e)
  {
  }

  // ---- Nothing behind validation disappears unanswered -----------------------------------------

  lemma ValidateKeeps(s: State, k: nat, verdict: Verdict, e: Envelope)
    requires k < |s.validators| && (Beyond(s, e) || PassedAt(s, Validate(k, verdict), e))
    ensures var s' := DoValidate(s, k, verdict);
            Beyond(s', e) || e in s'.log.lost
  {
    var s' := DoValidate(s, k, verdict);
    if j :| 0 <= j < |s.validators| && Passing(s.validators[j], e) && j != k {
      assert Passing(s'.validators[j], e);
    } else if b :| 0 <= b < |s.batches.items| && e in s.batches.items[b] {
      assert e in s'.batches.items[b];
    } else if j :| 0 <= j < |s.inserters| && e in BatchOf(s.inserters[j]) {
      assert e in BatchOf(s'.inserters[j]);
    } else if Passing(s.validators[k], e) || PassedAt(s, Validate(k, verdict), e) {
      assert Passing(s'.validators[k], e) || e in s'.validated.items || e in s'.log.lost;
    }
  }

  lemma AggregateKeeps(s: State, elapsed: bool, e: Envelope)
    requires Beyond(s, e)
    ensures var s' := DoAggregate(s, elapsed);
            Beyond(s', e) || e in s'.log.lost
  {
    var s' := DoAggregate(s, elapsed);
    if j :| 0 <= j < |s.validators| && Passing(s.validators[j], e) {
      assert Passing(s'.validators[j], e);
    } else if b :| 0 <= b < |s.batches.items| && e in s.batches.items[b] {
      assert s'.batches.items[b] == s.batches.items[b];
    } else if j :| 0 <= j < |s.inserters| && e in BatchOf(s.inserters[j]) {
      assert e in BatchOf(s'.inserters[j]);
    } else if e in s.validated.items {
      TakenOrQueued(s, elapsed, e);
    } else {
      assert s.agg.pc.AFlush? && s.batches.Accepts() ==>
             s'.batches.items[|s.batches.items|] == s.agg.pc.batch;
    }
  }

  lemma TakenOrQueued(s: State, elapsed: bool, e: Envelope)
    requires e in s.validated.items
    ensures var s' := DoAggregate(s, elapsed);
            e in s'.validated.items || e in s'.agg.active || e in InHand(s'.agg.pc)
  {
    assert s.validated.items == [s.validated.items[0]] + s.validated.items[1..];
  }

  lemma InsertKeeps(s: State, k: nat, ok: bool, e: Envelope)
    requires k < |s.inserters| && Beyond(s, e)
    ensures Beyond(DoInsert(s, k, ok), e) || Done(DoInsert(s, k, ok), e)
  {
    var s', i := DoInsert(s, k, ok), s.inserters[k];
    if j :| 0 <= j < |s.validators| && Passing(s.validators[j], e) {
      assert Passing(s'.validators[j], e);
    } else if b :| 0 <= b < |s.batches.items| && e in s.batches.items[b] {
      if s'.batches.items == s.batches.items {
        assert e in s'.batches.items[b];
      } else if b == 0 {
        assert e in BatchOf(s'.inserters[k]);
      } else {
        assert s'.batches.items[b - 1] == s.batches.items[b];
      }
    } else if j :| 0 <= j < |s.inserters| && e in BatchOf(s.inserters[j]) {
      if j != k {
        assert e in BatchOf(s'.inserters[j]);
      } else if i.IComplete? && i.rest[0] == e {
        assert Completion(e, if i.ok then Success else Failure) in s'.log.completed;
      } else {
        assert e in BatchOf(s'.inserters[k]);
      }
    }
  }

  lemma NothingDisappears(s: State, step: Step, e: Envelope)
    requires Enabled(s, step) && (Beyond(s, e) || PassedAt(s, step, e))
    ensures var s' := Apply(s, step);
            Beyond(s', e) || Done(s', e) || e in s'.log.lost
  {
    hide DoValidate, DoAggregate, DoInsert;
    match step
    case Validate(k, verdict) => ValidateKeeps(s, k, verdict, e);
    case Aggregate(elapsed) => AggregateKeeps(s, elapsed, e);
    case Insert(k, ok) => InsertKeeps(s, k, ok, e);
    case _ => SameBehind(s, Apply(s, step), e);
  }

  // ---- What is completed, and how --------------------------------------------------------------

  /** A worker is completing the envelope with the repository's answer. */
  ghost predicate Finishing(s: State, e: Envelope, ok: bool) {
    exists k :: 0 <= k < |s.inserters| && s.inserters[k].IComplete? && s.inserters[k].ok == ok &&
                e in s.inserters[k].rest
  }

  function Answer(ok: bool): Result {
    if ok then Success else Failure
  }

  ghost predicate SentAt(s: State, step: Step, e: Envelope, ok: bool) {
    && step.Insert? && step.ok == ok && step.worker < |s.inserters|
    && s.inserters[step.worker].IHold? && e in s.inserters[step.worker].batch
  }

  ghost predicate RefusedAt(s: State, step: Step, e: Envelope, r: Result) {
    && step.Validate? && step.worker < |s.validators|
    && s.validators[step.worker].VHold? && s.validators[step.worker].env == e
    && match step.verdict
       case Invalid => r == Failure
       case Duplicate => r == DuplicateIgnored
       case Valid => false
  }

  /** What a step completes and stores, exactly. */
  lemma CompletesExactly(s: State, step: Step, e: Envelope, r: Result)
    requires Enabled(s, step)
    ensures var s' := Apply(s, step);
            && (Completion(e, r) in s'.log.completed ==>
                  || Completion(e, r) in s.log.completed || RefusedAt(s, step, e, r)
                  || (Finishing(s, e, true) && r == Success) || (Finishing(s, e, false) && r == Failure))
            && (Completion(e, r) in s.log.completed || RefusedAt(s, step, e, r) ==>
                  Completion(e, r) in s'.log.completed)
            && (e in s'.log.stored <==> e in s.log.stored || SentAt(s, step, e, true))
  {
    if step.Insert? && s.inserters[step.worker].IComplete? && s.inserters[step.worker].rest != [] {
      var i := s.inserters[step.worker];
      assert i.rest[0] == e ==> e in i.rest;
    }
  }

  lemma FinishesExactly(s: State, step: Step, e: Envelope, ok: bool)
    requires Enabled(s, step)
    ensures var s' := Apply(s, step);
            && (Finishing(s', e, ok) ==> Finishing(s, e, ok) || SentAt(s, step, e, ok))
            && (Finishing(s, e, ok) || SentAt(s, step, e, ok) ==>
                  Finishing(s', e, ok) || Completion(e, Answer(ok)) in s'.log.completed)
  {
    var s' := Apply(s, step);
    if k :| 0 <= k < |s'.inserters| && s'.inserters[k].IComplete? && s'.inserters[k].ok == ok &&
            e in s'.inserters[k].rest {
      assert SentAt(s, step, e, ok) ||
             (s.inserters[k].IComplete? && s.inserters[k].ok == ok && e in s.inserters[k].rest);
    }
    if k :| 0 <= k < |s.inserters| && s.inserters[k].IComplete? && s.inserters[k].ok == ok && e in s.inserters[k].rest {
      if !step.Insert? || step.worker != k {
        assert s'.inserters[k] == s.inserters[k];
      } else if s.inserters[k].rest[0] != e {
        assert e in s'.inserters[k].rest;
      }
    }
    if SentAt(s, step, e, ok) {
      assert s'.inserters[step.worker].IComplete? && e in s'.inserters[step.worker].rest;
    }
  }

  /** What the verdicts and answers so far say of the envelope. */
  ghost predicate Accounted(run: seq<State>, steps: seq<Step>, k: nat, e: Envelope)
    requires k < |run|
  {
    var s := run[k];
    && (Beyond(s, e) ==> JudgedBefore(run, steps, k, e, Valid))
    && (JudgedBefore(run, steps, k, e, Valid) ==> Beyond(s, e) || Done(s, e))
    && (JudgedBefore(run, steps, k, e, Invalid) ==> Completion(e, Failure) in s.log.completed)
    && (JudgedBefore(run, steps, k, e, Duplicate) ==> Completion(e, DuplicateIgnored) in s.log.completed)
    && (e in s.log.stored <==> SentBefore(run, steps, k, e, true))
    && (Completion(e, Success) in s.log.completed ==> SentBefore(run, steps, k, e, true))
    && (Completion(e, DuplicateIgnored) in s.log.completed ==> JudgedBefore(run, steps, k, e, Duplicate))
    && (Completion(e, Failure) in s.log.completed ==>
          JudgedBefore(run, steps, k, e, Invalid) || SentBefore(run, steps, k, e, false))
    && SendingAccounted(run, steps, k, e, true) && SendingAccounted(run, steps, k, e, false)
  }

  ghost predicate SendingAccounted(run: seq<State>, steps: seq<Step>, k: nat, e: Envelope, ok: bool)
    requires k < |run|
  {
    && (Finishing(run[k], e, ok) ==> SentBefore(run, steps, k, e, ok))
    && (SentBefore(run, steps, k, e, ok) ==>
          && JudgedBefore(run, steps, k, e, Valid)
          && (Finishing(run[k], e, ok) || Completion(e, Answer(ok)) in run[k].log.completed))
  }

  lemma BeforeGrows(run: seq<State>, steps: seq<Step>, k: nat, e: Envelope)
    requires k < |steps| && k < |run|
    ensures forall v :: JudgedBefore(run, steps, k + 1, e, v) <==>
                        JudgedBefore(run, steps, k, e, v) || Judged(run, steps, k, e, v)
    ensures forall ok :: SentBefore(run, steps, k + 1, e, ok) <==>
                         SentBefore(run, steps, k, e, ok) || Sent(run, steps, k, e, ok)
  {
    hide Judged, Sent;
  }

  lemma NowJudged(run: seq<State>, steps: seq<Step>, k: nat, e: Envelope)
    requires k < |steps| && k < |run| && Enabled(run[k], steps[k])
    ensures Judged(run, steps, k, e, Valid) <==> PassedAt(run[k], steps[k], e)
    ensures Judged(run, steps, k, e, Invalid) <==> RefusedAt(run[k], steps[k], e, Failure)
    ensures Judged(run, steps, k, e, Duplicate) <==> RefusedAt(run[k], steps[k], e, DuplicateIgnored)
    ensures !RefusedAt(run[k], steps[k], e, Success)
    ensures forall ok :: Sent(run, steps, k, e, ok) <==> SentAt(run[k], steps[k], e, ok)
  {
  }

  lemma SentIsBeyond(s: State, step: Step, e: Envelope, ok: bool)
    requires SentAt(s, step, e, ok)
    ensures Beyond(s, e)
  {
    assert e in BatchOf(s.inserters[step.worker]);
  }

  lemma StepAccounts(run: seq<State>, steps: seq<Step>, k: nat, e: Envelope)
    requires k < |steps| && k + 1 < |run| && Enabled(run[k], steps[k]) && run[k + 1] == Apply(run[k], steps[k])
    requires Accounted(run, steps, k, e) && run[k + 1].log.lost == []
    ensures Accounted(run, steps, k + 1, e)
  {
    hide Apply, Enabled, Beyond, Finishing, Judged, Sent, JudgedBefore, SentBefore, PassedAt, RefusedAt, SentAt;
    var s, s', step := run[k], run[k + 1], steps[k];
    BeforeGrows(run, steps, k, e);
    NowJudged(run, steps, k, e);
    if r :| Completion(e, r) in s.log.completed {
      CompletesExactly(s, step, e, r);
    }
    CompletesExactly(s, step, e, Success);
    CompletesExactly(s, step, e, Failure);
    CompletesExactly(s, step, e, DuplicateIgnored);
    if Beyond(s', e) {
      OnlyValidPasses(s, step, e);
    }
    if Beyond(s, e) || PassedAt(s, step, e) {
      NothingDisappears(s, step, e);
    }
    SendingStep(run, steps, k, e, true);
    SendingStep(run, steps, k, e, false);
  }

  lemma SendingStep(run: seq<State>, steps: seq<Step>, k: nat, e: Envelope, ok: bool)
    requires k < |steps| && k + 1 < |run| && Enabled(run[k], steps[k]) && run[k + 1] == Apply(run[k], steps[k])
    requires Accounted(run, steps, k, e)
    ensures SendingAccounted(run, steps, k + 1, e, ok)
  {
    hide Apply, Enabled, Beyond, Finishing, Judged, Sent, JudgedBefore, SentBefore, PassedAt, RefusedAt, SentAt, Done;
    assert SendingAccounted(run, steps, k, e, ok);
    BeforeGrows(run, steps, k, e);
    NowJudged(run, steps, k, e);
    FinishesExactly(run[k], steps[k], e, ok);
    CompletesExactly(run[k], steps[k], e, Answer(ok));
    if SentAt(run[k], steps[k], e, ok) {
      SentIsBeyond(run[k], steps[k], e, ok);
    }
  }

  lemma StartAccounts(run: seq<State>, steps: seq<Step>, c: Config, e: Envelope)
    requires IsRun(run, steps, c)
    ensures Accounted(run, steps, 0, e)
  {
    assert !Beyond(run[0], e);
  }

  lemma {:induction false} RunAccounts(run: seq<State>, steps: seq<Step>, c: Config, k: nat, e: Envelope)
    requires IsRun(run, steps, c) && k < |run|
    ensures Accounted(run, steps, k, e)
  {
    hide Accounted, Inv, Started;
    if k == 0 {
      StartAccounts(run, steps, c, e);
    } else {
      RunAccounts(run, steps, c, k - 1, e);
      NeverLostNeverTwice(run, steps, c, k, e);
      StepAccounts(run, steps, k - 1, e);
    }
  }

  // ---- One verdict, one answer, one completion -------------------------------------------------

  lemma {:induction false} MemberCounts(xs: seq<Envelope>, e: Envelope)
    ensures e in xs ==> Count(xs, e) >= 1
  {
    if xs != [] {
      MemberCounts(xs[1..], e);
      assert xs == [xs[0]] + xs[1..];
    }
  }

  lemma {:induction false} BatchCounts(bs: seq<seq<Envelope>>, b: nat, e: Envelope)
    requires b < |bs| && e in bs[b]
    ensures CountBatches(bs, e) >= 1
  {
    if b == 0 {
      MemberCounts(bs[0], e);
    } else {
      BatchCounts(bs[1..], b - 1, e);
    }
  }

  lemma {:induction false} InserterCounts(xs: seq<Inserter>, k: nat, e: Envelope)
    requires k < |xs| && e in BatchOf(xs[k])
    ensures InInserters(xs, e) >= 1
  {
    if k == 0 {
      MemberCounts(BatchOf(xs[0]), e);
    } else {
      InserterCounts(xs[1..], k - 1, e);
    }
  }

  lemma {:induction false} ValidatorCounts(vs: seq<Validator>, k: nat, e: Envelope)
    requires k < |vs|
    ensures InValidators(vs, e) >= InValidator(vs[k], e)
  {
    if k > 0 {
      ValidatorCounts(vs[1..], k - 1, e);
    }
  }

  lemma {:induction false} TwoValidatorsCount(vs: seq<Validator>, j: nat, k: nat, e: Envelope)
    requires j < k < |vs|
    ensures InValidators(vs, e) >= InValidator(vs[j], e) + InValidator(vs[k], e)
  {
    if j == 0 {
      ValidatorCounts(vs[1..], k - 1, e);
    } else {
      TwoValidatorsCount(vs[1..], j - 1, k - 1, e);
    }
  }

  lemma {:induction false} CompletionCounts(cs: seq<Completion>, x: Completion)
    requires x in cs
    ensures CountCompleted(cs, x.env) >= 1
  {
    if cs[0] != x {
      assert cs == [cs[0]] + cs[1..];
      CompletionCounts(cs[1..], x);
    }
  }

  lemma {:induction false} TwoCompletionsCount(cs: seq<Completion>, x: Completion, y: Completion)
    requires x in cs && y in cs && x != y && x.env == y.env
    ensures CountCompleted(cs, x.env) >= 2
  {
    assert cs == [cs[0]] + cs[1..];
    if cs[0] == x {
      CompletionCounts(cs[1..], y);
    } else if cs[0] == y {
      CompletionCounts(cs[1..], x);
    } else {
      TwoCompletionsCount(cs[1..], x, y);
    }
  }

  /** Behind validation and held for validation at once would be twice. */
  lemma BeyondCounts(s: State, e: Envelope, v: nat)
    requires Beyond(s, e) && v < |s.validators|
    ensures Holding(s, e) >= 1 + if s.validators[v].VHold? && s.validators[v].env == e then 1 else 0
  {
    hide Count, CountBatches, InInserters, InValidators, BatchOf;
    ValidatorCounts(s.validators, v, e);
    MemberCounts(s.validated.items, e);
    MemberCounts(s.agg.active, e);
    MemberCounts(InHand(s.agg.pc), e);
    if j :| 0 <= j < |s.validators| && Passing(s.validators[j], e) {
      if j < v {
        TwoValidatorsCount(s.validators, j, v, e);
      } else if v < j {
        TwoValidatorsCount(s.validators, v, j, e);
      }
    } else if b :| 0 <= b < |s.batches.items| && e in s.batches.items[b] {
      BatchCounts(s.batches.items, b, e);
    } else if j :| 0 <= j < |s.inserters| && e in BatchOf(s.inserters[j]) {
      InserterCounts(s.inserters, j, e);
    }
  }

  /** A worker that holds the envelope for validation is the only place it is, and it is not completed. */
  lemma HeldIsFresh(run: seq<State>, steps: seq<Step>, c: Config, j: nat, e: Envelope, verdict: Verdict)
    requires IsRun(run, steps, c) && Judged(run, steps, j, e, verdict)
    ensures !Beyond(run[j], e) && !Done(run[j], e)
  {
    hide Count, CountBatches, InInserters, InValidators, CountCompleted, Beyond, IsRun;
    NeverLostNeverTwice(run, steps, c, j, e);
    var s, v := run[j], steps[j].worker;
    ValidatorCounts(s.validators, v, e);
    if Beyond(s, e) {
      BeyondCounts(s, e, v);
    }
    if r :| Completion(e, r) in s.log.completed {
      CompletionCounts(s.log.completed, Completion(e, r));
    }
  }

  /** An envelope gets one verdict. */
  lemma JudgedOnce(run: seq<State>, steps: seq<Step>, c: Config, i: nat, j: nat, e: Envelope, v: Verdict, v': Verdict)
    requires IsRun(run, steps, c) && Judged(run, steps, i, e, v) && Judged(run, steps, j, e, v')
    ensures i == j && v == v'
  {
    if i < j {
      NotJudgedAgain(run, steps, c, i, j, e, v, v');
    } else if j < i {
      NotJudgedAgain(run, steps, c, j, i, e, v', v);
    }
  }

  lemma NotJudgedAgain(run: seq<State>, steps: seq<Step>, c: Config, i: nat, j: nat, e: Envelope, v: Verdict,
                       v': Verdict)
    requires IsRun(run, steps, c) && i < j && Judged(run, steps, i, e, v)
    ensures !Judged(run, steps, j, e, v')
  {
    hide Judged, Beyond, SentBefore, Finishing, IsRun;
    assert JudgedBefore(run, steps, j, e, v);
    if Judged(run, steps, j, e, v') {
      JudgedIsAStep(run, steps, j, e, v');
      RunAccounts(run, steps, c, j, e);
      HeldIsFresh(run, steps, c, j, e, v');
    }
  }

  lemma JudgedIsAStep(run: seq<State>, steps: seq<Step>, j: nat, e: Envelope, v: Verdict)
    requires Judged(run, steps, j, e, v)
    ensures j < |run| && j < |steps|
  {
  }

  /** Once its one completion is out, an envelope has no other. */
  lemma CompletedOneWay(run: seq<State>, steps: seq<Step>, c: Config, k: nat, e: Envelope, r: Result, r': Result)
    requires IsRun(run, steps, c) && k < |run|
    requires Completion(e, r) in run[k].log.completed && Completion(e, r') in run[k].log.completed
    ensures r == r'
  {
    NeverLostNeverTwice(run, steps, c, k, e);
    if r != r' {
      TwoCompletionsCount(run[k].log.completed, Completion(e, r), Completion(e, r'));
    }
  }

  /** The verdict decides, in every interleaving and at every moment: an envelope behind validation or
      stored was found valid; one found invalid is completed as a failure, one found a duplicate as
      ignored, and neither is ever stored or handed to the repository. */
  lemma VerdictDecides(run: seq<State>, steps: seq<Step>, c: Config, k: nat, e: Envelope)
    requires IsRun(run, steps, c) && k < |run|
    ensures Beyond(run[k], e) || e in run[k].log.stored ==> JudgedBefore(run, steps, k, e, Valid)
    ensures JudgedBefore(run, steps, k, e, Invalid) ==>
              && Completion(e, Failure) in run[k].log.completed && e !in run[k].log.stored
              && !SentBefore(run, steps, k, e, true) && !SentBefore(run, steps, k, e, false)
    ensures JudgedBefore(run, steps, k, e, Duplicate) ==>
              && Completion(e, DuplicateIgnored) in run[k].log.completed && e !in run[k].log.stored
              && !SentBefore(run, steps, k, e, true) && !SentBefore(run, steps, k, e, false)
  {
    hide Judged, Beyond, Finishing, Sent, IsRun;
    RunAccounts(run, steps, c, k, e);
    if i: nat, j: nat, v :|
      i < k && j < k && Judged(run, steps, i, e, Valid) && Judged(run, steps, j, e, v) && v != Valid {
      JudgedOnce(run, steps, c, i, j, e, Valid, v);
    }
  }

  /** The completion tells the truth: success exactly for a batch the repository accepted, ignored exactly
      for a duplicate, failure exactly for what validation refused or the repository did not accept. */
  lemma CompletionTellsTheTruth(run: seq<State>, steps: seq<Step>, c: Config, k: nat, e: Envelope)
    requires IsRun(run, steps, c) && k < |run| && Done(run[k], e)
    ensures Completion(e, Success) in run[k].log.completed <==> e in run[k].log.stored
    ensures Completion(e, DuplicateIgnored) in run[k].log.completed <==> JudgedBefore(run, steps, k, e, Duplicate)
    ensures Completion(e, Failure) in run[k].log.completed <==>
            JudgedBefore(run, steps, k, e, Invalid) || SentBefore(run, steps, k, e, false)
  {
    hide Judged, Beyond, Sent, IsRun, JudgedBefore;
    RunAccounts(run, steps, c, k, e);
    var r :| Completion(e, r) in run[k].log.completed;
    forall ok | SentBefore(run, steps, k, e, ok) ensures Completion(e, Answer(ok)) in run[k].log.completed {
      assert SendingAccounted(run, steps, k, e, ok);
      if Finishing(run[k], e, ok) {
        FinishingIsNotDone(run, steps, c, k, e, ok);
      }
    }
    if Completion(e, Success) in run[k].log.completed {
      assert SentBefore(run, steps, k, e, true);
    }
  }

  lemma FinishingIsNotDone(run: seq<State>, steps: seq<Step>, c: Config, k: nat, e: Envelope, ok: bool)
    requires IsRun(run, steps, c) && k < |run| && Finishing(run[k], e, ok)
    ensures !Done(run[k], e)
  {
    hide IsRun, Count, CountBatches, InInserters, InValidators, CountCompleted;
    NeverLostNeverTwice(run, steps, c, k, e);
    var j :| 0 <= j < |run[k].inserters| && run[k].inserters[j].IComplete? && e in run[k].inserters[j].rest;
    assert e in BatchOf(run[k].inserters[j]);
    InserterCounts(run[k].inserters, j, e);
    if r :| Completion(e, r) in run[k].log.completed {
      CompletionCounts(run[k].log.completed, Completion(e, r));
    }
  }

  /** Once shutdown has returned, every accepted envelope had its verdict, a valid one was handed to the
      repository, and it was completed accordingly. */
  lemma StoppedPipelineToldEveryone(run: seq<State>, steps: seq<Step>, c: Config, k: nat, e: Envelope)
    requires IsRun(run, steps, c) && k < |run| && run[k].ctl.stage.Stopped? && e in run[k].log.accepted
    ensures Done(run[k], e)
    ensures e in run[k].log.stored <==> Completion(e, Success) in run[k].log.completed
    ensures exists v :: JudgedBefore(run, steps, k, e, v)
    ensures JudgedBefore(run, steps, k, e, Valid) ==> exists ok :: SentBefore(run, steps, k, e, ok)
  {
    hide Judged, Beyond, Sent, IsRun, Finishing, Holding, SentBefore;
    ShutdownCompletesEveryAcceptedEnvelope(run, steps, c, k, e);
    MemberCounts(run[k].log.accepted, e);
    CountedIsDone(run[k].log.completed, e);
    RunAccounts(run, steps, c, k, e);
    CompletionTellsTheTruth(run, steps, c, k, e);
    var r :| Completion(e, r) in run[k].log.completed;
    assert r == Success || r == Failure || r == DuplicateIgnored;
    assert SentBefore(run, steps, k, e, true) || SentBefore(run, steps, k, e, false) ||
           JudgedBefore(run, steps, k, e, Invalid) || JudgedBefore(run, steps, k, e, Duplicate);
    if i: nat, j: nat, v :|
      i < k && j < k && Judged(run, steps, i, e, Valid) && Judged(run, steps, j, e, v) && v != Valid {
      JudgedOnce(run, steps, c, i, j, e, Valid, v);
    }
  }

  lemma {:induction false} CountedIsDone(cs: seq<Completion>, e: Envelope)
    requires CountCompleted(cs, e) >= 1
    ensures exists r :: Completion(e, r) in cs
  {
    assert cs == [cs[0]] + cs[1..];
    if cs[0].env == e {
      assert Completion(e, cs[0].result) in cs;
    } else {
      CountedIsDone(cs[1..], e);
    }
  }
}
