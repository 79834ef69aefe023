/**
 Ticket dispatch in the benchmark: workers share an atomic counter, each index is measured by
 whoever drew it, and the first error cancels the rest. Interleavings are arbitrary.
 */
module Dispatch {
  import opened Prelude

  /** The measurement a request returns. */
  type Sample = int

  datatype Failure = Failure(index: nat, message: string)

  datatype Phase =
    | Drawing
    | Checking(index: nat)
    | Requesting(index: nat)
    | Storing(index: nat, sample: Sample)
    | Exited

  /** What became of one index; Held names the worker that drew it. */
  datatype Fate = Unclaimed | Held(worker: nat) | Written | Dropped | Failed

  /**
   `samples` is the shared result slice (None where nothing was stored), `firstErr` the error kept
   by the once-guard. The rest is history: fates, draws, writes and requests per index, the sample
   each index's request returned, and all errors in order.
   */
  datatype Sys = Sys(
    next: nat, phases: seq<Phase>, samples: seq<Option<Sample>>, firstErr: Option<Failure>, parentCancelled: bool,
    fates: seq<Fate>, draws: seq<nat>, writes: seq<nat>, requests: seq<nat>, answers: seq<Option<Sample>>, errors: seq<Failure>)

  function Start(requests: nat, concurrency: nat): Sys {
    Sys(0, seq(concurrency, i => Drawing), seq(requests, i => None), None, false,
        seq(requests, i => Unclaimed), seq(requests, i => 0), seq(requests, i => 0), seq(requests, i => 0), seq(requests, i => None), [])
  }

  datatype Step =
    | Draw(w: nat)
    | Check(w: nat)
    | Answer(w: nat, sample: Sample)
    | Store(w: nat)
    | Fail(w: nat, message: string)
    | CancelParent

  predicate ContextDone(s: Sys) {
    s.parentCancelled || s.firstErr.Some?
  }

  ghost predicate Shaped(s: Sys) {
    && |s.samples| == |s.fates| == |s.draws| == |s.writes| == |s.requests| == |s.answers|
    && forall w | 0 <= w < |s.phases| :: !s.phases[w].Drawing? && !s.phases[w].Exited? ==> s.phases[w].index < |s.samples|
  }

  ghost predicate Enabled(s: Sys, step: Step) {
    match step
    case Draw(w) => w < |s.phases| && s.phases[w].Drawing?
    case Check(w) => w < |s.phases| && s.phases[w].Checking?
    case Answer(w, _) => w < |s.phases| && s.phases[w].Requesting?
    case Store(w) => w < |s.phases| && s.phases[w].Storing?
    case Fail(w, _) => w < |s.phases| && s.phases[w].Requesting?
    case CancelParent => !s.parentCancelled
  }

  ghost function Do(s: Sys, step: Step): Sys
    requires Shaped(s) && Enabled(s, step)
  {
    match step
    case Draw(w) =>
      var i := s.next;
      if i >= |s.samples| then s.(next := i + 1, phases := s.phases[w := Exited])
      else s.(next := i + 1, phases := s.phases[w := Checking(i)], fates := s.fates[i := Held(w)],
              draws := s.draws[i := s.draws[i] + 1])
    case Check(w) =>
      var i := s.phases[w].index;
      if ContextDone(s) then s.(phases := s.phases[w := Exited], fates := s.fates[i := Dropped])
      else s.(phases := s.phases[w := Requesting(i)], requests := s.requests[i := s.requests[i] + 1])
    case Answer(w, sample) =>
      var i := s.phases[w].index;
      s.(phases := s.phases[w := Storing(i, sample)], answers := s.answers[i := Some(sample)])
    case Store(w) =>
      var i := s.phases[w].index;
      s.(phases := s.phases[w := Drawing], samples := s.samples[i := Some(s.phases[w].sample)],
         writes := s.writes[i := s.writes[i] + 1], fates := s.fates[i := Written])
    case Fail(w, message) =>
      var i := s.phases[w].index;
      var e := Failure(i, message);
      s.(phases := s.phases[w := Exited], firstErr := if s.firstErr.None? then Some(e) else s.firstErr,
         fates := s.fates[i := Failed], errors := s.errors + [e])
    case CancelParent => s.(parentCancelled := true)
  }

  ghost predicate Holds(p: Phase, i: nat) {
    !p.Drawing? && !p.Exited? && p.index == i
  }

  /** The history of one index fits its fate. */
  ghost predicate IndexInv(s: Sys, i: nat)
    requires Shaped(s) && i < |s.samples|
  {
    && (s.fates[i] == Unclaimed <==> i >= s.next)
    && s.draws[i] == (if i < s.next then 1 else 0)
    && (s.fates[i] != Written ==> s.samples[i].None?)
    && (s.requests[i] == 0 ==> s.answers[i].None?)
    && match s.fates[i]
       case Unclaimed => s.writes[i] == 0 && s.requests[i] == 0
       case Held(w) =>
         && w < |s.phases| && Holds(s.phases[w], i) && s.writes[i] == 0
         && s.requests[i] == (if s.phases[w].Checking? then 0 else 1)
         && (s.phases[w].Storing? ==> s.answers[i] == Some(s.phases[w].sample))
       case Written => s.writes[i] == 1 && s.requests[i] == 1 && s.samples[i].Some? && s.samples[i] == s.answers[i]
       case Dropped => s.writes[i] == 0 && s.requests[i] == 0 && ContextDone(s)
       case Failed => s.writes[i] == 0 && s.requests[i] == 1 && s.errors != []
  }

  ghost predicate ErrorsAreFailures(s: Sys) {
    forall e | e in s.errors :: e.index < |s.fates| && s.fates[e.index] == Failed
  }

  ghost predicate Inv(s: Sys) {
    && Shaped(s)
    && (forall i: nat | i < |s.samples| :: IndexInv(s, i))
    && (forall w: nat | w < |s.phases| && !s.phases[w].Drawing? && !s.phases[w].Exited? ::
          s.fates[s.phases[w].index] == Held(w))
    && s.firstErr == (if s.errors == [] then None else Some(s.errors[0]))
    && ErrorsAreFailures(s)
    && (forall w: nat | w < |s.phases| && s.phases[w].Exited? :: s.next >= |s.samples| || ContextDone(s))
  }

  lemma ShapedStep(s: Sys, step: Step)
    requires Shaped(s) && Enabled(s, step)
    ensures Shaped(Do(s, step))
  {
  }

  /** A worker's step on the index it holds, or on another one. */
  lemma WorkerStep(s: Sys, step: Step, i: nat)
    requires Shaped(s) && Enabled(s, step) && i < |s.samples| && Shaped(Do(s, step))
    requires !step.CancelParent? && !step.Draw?
    requires IndexInv(s, i) && IndexInv(s, s.phases[step.w].index)
    requires s.fates[s.phases[step.w].index] == Held(step.w)
    ensures IndexInv(Do(s, step), i)
  {
  }

  lemma DrawStep(s: Sys, step: Step, i: nat)
    requires Shaped(s) && Enabled(s, step) && i < |s.samples| && Shaped(Do(s, step))
    requires step.CancelParent? || step.Draw?
    requires IndexInv(s, i)
    ensures IndexInv(Do(s, step), i)
  {
  }

  lemma IndexStep(s: Sys, step: Step, i: nat)
    requires Inv(s) && Enabled(s, step) && i < |s.samples| && Shaped(Do(s, step))
    ensures IndexInv(Do(s, step), i)
  {
    assert IndexInv(s, i);
    if step.CancelParent? || step.Draw? {
      DrawStep(s, step, i);
    } else {
      assert IndexInv(s, s.phases[step.w].index);
      hide IndexInv, Do, ErrorsAreFailures;
      WorkerStep(s, step, i);
    }
  }

  lemma InvStep(s: Sys, step: Step)
    requires Inv(s) && Enabled(s, step)
    ensures Inv(Do(s, step))
  {
    ShapedStep(s, step);
    forall i: nat | i < |s.samples| ensures IndexInv(Do(s, step), i) {
      IndexStep(s, step, i);
    }
    if step.Draw? && s.next < |s.samples| {
      assert IndexInv(s, s.next);
    }
    hide IndexInv;
  }

  ghost predicate StepAt(states: seq<Sys>, steps: seq<Step>, k: nat)
    requires k < |steps| && k + 1 < |states|
  {
    Shaped(states[k]) && Enabled(states[k], steps[k]) && states[k + 1] == Do(states[k], steps[k])
  }

  /** An execution of `Run` with that many requests and workers, after the warmup. */
  ghost predicate Behaviour(requests: nat, concurrency: nat, states: seq<Sys>, steps: seq<Step>) {
    && |states| == |steps| + 1
    && states[0] == Start(requests, concurrency)
    && forall k: nat | k < |steps| :: StepAt(states, steps, k)
  }

  lemma {:induction false} InvHolds(requests: nat, concurrency: nat, states: seq<Sys>, steps: seq<Step>, k: nat)
    requires Behaviour(requests, concurrency, states, steps) && k < |states|
    ensures Inv(states[k]) && |states[k].samples| == requests && |states[k].phases| == concurrency
  {
    if k > 0 {
      InvHolds(requests, concurrency, states, steps, k - 1);
      assert StepAt(states, steps, k - 1);
      InvStep(states[k - 1], steps[k - 1]);
    }
  }

  /** Over the whole run every index is drawn, requested and written at most once, so no two workers hold it. */
  lemma TicketsAreUnique(requests: nat, concurrency: nat, states: seq<Sys>, steps: seq<Step>, k: nat)
    requires Behaviour(requests, concurrency, states, steps) && k < |states|
    ensures Shaped(states[k])
    ensures forall v, w | 0 <= v < w < concurrency == |states[k].phases| ::
              forall i | Holds(states[k].phases[v], i) :: !Holds(states[k].phases[w], i)
    ensures forall i: nat | i < requests == |states[k].samples| ::
              states[k].draws[i] <= 1 && states[k].writes[i] <= 1 && states[k].requests[i] <= 1
  {
    InvHolds(requests, concurrency, states, steps, k);
    forall i: nat | i < requests
      ensures states[k].draws[i] <= 1 && states[k].writes[i] <= 1 && states[k].requests[i] <= 1
    {
      assert IndexInv(states[k], i);
    }
  }

  ghost predicate Finished(s: Sys) {
    forall w: nat | w < |s.phases| :: s.phases[w].Exited?
  }

  /**
   If the run finishes, no request failed and the caller's context was never cancelled, every slot
   was written exactly once, with the sample that this index's only request returned.
   */
  lemma EverySlotMeasured(requests: nat, concurrency: nat, states: seq<Sys>, steps: seq<Step>, i: nat)
    requires Behaviour(requests, concurrency, states, steps) && concurrency > 0 && i < requests
    requires var s := states[|steps|]; Finished(s) && s.errors == [] && !s.parentCancelled
    ensures var s := states[|steps|];
            && |s.samples| == |s.answers| == |s.writes| == |s.requests| == requests
            && s.samples[i].Some? && s.samples[i] == s.answers[i] && s.writes[i] == 1 && s.requests[i] == 1
  {
    var s := states[|steps|];
    InvHolds(requests, concurrency, states, steps, |steps|);
    assert s.phases[0].Exited?;
    assert IndexInv(s, i);
  }

  /** Once a request has failed or the caller's context is cancelled, no request is sent any more. */
  lemma StoppedStep(s: Sys, step: Step, i: nat)
    requires Inv(s) && Enabled(s, step) && (s.firstErr.Some? || s.parentCancelled) && i < |s.samples|
    ensures Do(s, step).firstErr.Some? || Do(s, step).parentCancelled
    ensures Do(s, step).requests[i] == s.requests[i]
    ensures s.parentCancelled ==> Do(s, step).parentCancelled
  {
    hide IndexInv, ErrorsAreFailures;
  }

  /**
   Cancel on the first error: from the instant at which a request has failed, or the caller's context
   is cancelled, no further request is sent for any index.
   */
  lemma {:induction false} StopSendsNothing(
      requests: nat, concurrency: nat, states: seq<Sys>, steps: seq<Step>, c: nat, k: nat, i: nat)
    requires Behaviour(requests, concurrency, states, steps) && c <= k < |states| && i < requests
    requires states[c].firstErr.Some? || states[c].parentCancelled
    ensures Inv(states[c]) && Inv(states[k]) && |states[c].samples| == |states[k].samples| == requests
    ensures states[k].firstErr.Some? || states[k].parentCancelled
    ensures states[k].requests[i] == states[c].requests[i]
    ensures states[c].parentCancelled ==> states[k].parentCancelled
    decreases k - c
  {
    InvHolds(requests, concurrency, states, steps, c);
    InvHolds(requests, concurrency, states, steps, k);
    hide Inv, IndexInv;
    if c < k {
      StopSendsNothing(requests, concurrency, states, steps, c, k - 1, i);
      assert StepAt(states, steps, k - 1);
      StoppedStep(states[k - 1], steps[k - 1], i);
    }
  }

  /** So after the first error only requests sent before it can still answer or fail. */
  lemma OnlySentRequestsReturn(requests: nat, concurrency: nat, states: seq<Sys>, steps: seq<Step>, c: nat, k: nat, i: nat)
    requires Behaviour(requests, concurrency, states, steps) && c <= k < |states| && i < requests
    requires states[c].firstErr.Some?
    ensures Inv(states[c]) && Inv(states[k]) && |states[c].samples| == |states[k].samples| == requests
    ensures states[c].requests[i] == 0 ==> states[k].answers[i].None? && states[k].samples[i].None?
    ensures forall e | e in states[k].errors :: e.index < requests && states[c].requests[e.index] == 1
  {
    StopSendsNothing(requests, concurrency, states, steps, c, k, i);
    assert IndexInv(states[k], i);
    forall e | e in states[k].errors ensures e.index < requests && states[c].requests[e.index] == 1 {
      FailedWasAsked(states[k], e);
      StopSendsNothing(requests, concurrency, states, steps, c, k, e.index);
    }
  }

  /** No request was sent for index i yet: nobody drew it, it was dropped, or its worker is still before the check. */
  ghost predicate Unasked(s: Sys, i: nat)
    requires Shaped(s) && i < |s.samples|
  {
    match s.fates[i]
    case Unclaimed => true
    case Dropped => true
    case Held(w) => w < |s.phases| && s.phases[w].Checking?
    case _ => false
  }

  /**
   The exact holes of a cancelled run that reports success. Take any instant at which the caller's
   context is cancelled, such as the one right after the cancellation: if the run then finishes
   without an error, slot i is empty if and only if no request had been sent for i at that instant.
   */
  lemma HolesAreExact(requests: nat, concurrency: nat, states: seq<Sys>, steps: seq<Step>, c: nat, i: nat)
    requires Behaviour(requests, concurrency, states, steps) && c < |states| && i < requests
    requires states[c].parentCancelled && Finished(states[|steps|]) && states[|steps|].errors == []
    ensures Shaped(states[c]) && |states[c].samples| == |states[|steps|].samples| == requests
    ensures states[|steps|].firstErr.None?
    ensures states[|steps|].samples[i].None? <==> Unasked(states[c], i)
    ensures |states[|steps|].writes| == requests && (states[|steps|].writes[i] == 0 <==> Unasked(states[c], i))
  {
    var s := states[|steps|];
    StopSendsNothing(requests, concurrency, states, steps, c, |steps|, i);
    assert IndexInv(states[c], i) && IndexInv(s, i);
    FirstErrorIsKept(requests, concurrency, states, steps, c, |steps|);
  }

  lemma FailedWasAsked(s: Sys, e: Failure)
    requires Inv(s) && e in s.errors
    ensures e.index < |s.samples| && s.requests[e.index] == 1
  {
    assert IndexInv(s, e.index);
  }

  /** A context cancelled before the call: no request is ever sent, success is reported, every slot is empty. */
  lemma CancelledBeforehandMeasuresNothing(requests: nat, concurrency: nat, states: seq<Sys>, steps: seq<Step>, i: nat)
    requires Behaviour(requests, concurrency, states, steps) && i < requests
    requires steps != [] && steps[0] == CancelParent && Finished(states[|steps|])
    ensures states[|steps|].firstErr.None? && |states[|steps|].samples| == requests && states[|steps|].samples[i].None?
  {
    var s := states[|steps|];
    assert StepAt(states, steps, 0);
    InvHolds(requests, concurrency, states, steps, |steps|);
    if s.errors != [] {
      FailedWasAsked(s, s.errors[0]);
      StopSendsNothing(requests, concurrency, states, steps, 1, |steps|, s.errors[0].index);
    } else {
      HolesAreExact(requests, concurrency, states, steps, 1, i);
    }
  }

  /** In a finished run that reports success, the empty slots are the unwritten ones, and only cancellation leaves any. */
  lemma HolesAreCancellations(requests: nat, concurrency: nat, states: seq<Sys>, steps: seq<Step>, i: nat)
    requires Behaviour(requests, concurrency, states, steps) && concurrency > 0 && i < requests
    requires Finished(states[|steps|]) && states[|steps|].errors == []
    ensures var s := states[|steps|];
            && Inv(s) && |s.samples| == requests && s.firstErr.None?
            && (s.samples[i].None? <==> s.fates[i] == Dropped || s.fates[i] == Unclaimed)
            && (s.writes[i] == 0 <==> s.samples[i].None?)
            && (s.samples[i].None? ==> s.parentCancelled)
  {
    var s := states[|steps|];
    InvHolds(requests, concurrency, states, steps, |steps|);
    assert s.phases[0].Exited?;
    assert IndexInv(s, i);
  }

  /** The hypothesis on the caller's context is needed: one request, one worker, cancelled beforehand. */
  lemma CancelledParentLeavesHole() returns (states: seq<Sys>, steps: seq<Step>)
    ensures Behaviour(1, 1, states, steps)
    ensures var s := states[|steps|];
            Finished(s) && s.errors == [] && s.firstErr.None? && |s.samples| == 1 && s.samples[0].None?
  {
    var s0 := Start(1, 1);
    var s1 := Do(s0, CancelParent);
    var s2 := Do(s1, Draw(0));
    var s3 := Do(s2, Check(0));
    states, steps := [s0, s1, s2, s3], [CancelParent, Draw(0), Check(0)];
    forall k: nat | k < |steps| ensures StepAt(states, steps, k) {
    }
  }

  /** Exactly one error is kept, the first one raised, and it is never replaced. */
  lemma {:induction false} FirstErrorIsKept(requests: nat, concurrency: nat, states: seq<Sys>, steps: seq<Step>, j: nat, k: nat)
    requires Behaviour(requests, concurrency, states, steps) && j <= k < |states|
    ensures states[j].errors <= states[k].errors
    ensures states[k].firstErr == if states[k].errors == [] then None else Some(states[k].errors[0])
    ensures states[j].firstErr.Some? ==> states[k].firstErr == states[j].firstErr
    decreases k - j
  {
    InvHolds(requests, concurrency, states, steps, j);
    InvHolds(requests, concurrency, states, steps, k);
    hide Inv;
    if j < k {
      FirstErrorIsKept(requests, concurrency, states, steps, j, k - 1);
      assert StepAt(states, steps, k - 1);
    }
  }

  // ---------- termination ----------

  function Weight(p: Phase): nat {
    match p
    case Checking(_) => 4
    case Requesting(_) => 3
    case Storing(_, _) => 2
    case Drawing => 1
    case Exited => 0
  }

  function TotalWeight(phases: seq<Phase>): nat {
    if phases == [] then 0 else TotalWeight(phases[..|phases| - 1]) + Weight(phases[|phases| - 1])
  }

  lemma {:induction false} WeightUpdate(phases: seq<Phase>, w: nat, p: Phase)
    requires w < |phases|
    ensures TotalWeight(phases[w := p]) == TotalWeight(phases) - Weight(phases[w]) + Weight(p)
  {
    var last := |phases| - 1;
    if w == last {
      assert phases[w := p][..last] == phases[..last];
    } else {
      WeightUpdate(phases[..last], w, p);
      assert phases[w := p][..last] == phases[..last][w := p];
    }
  }

  lemma {:induction false} StartWeight(n: nat)
    ensures TotalWeight(seq(n, i => Drawing)) == n
  {
    if n > 0 {
      StartWeight(n - 1);
      assert seq(n, i => Drawing)[..n - 1] == seq(n - 1, i => Drawing);
    }
  }

  /** What is left to do: four actions per undrawn index, what each worker has begun, one cancellation. */
  function Remaining(s: Sys): nat {
    4 * (if s.next < |s.samples| then |s.samples| - s.next else 0) + TotalWeight(s.phases)
    + if s.parentCancelled then 0 else 1
  }

  lemma StepCostsOne(s: Sys, step: Step)
    requires Shaped(s) && Enabled(s, step)
    ensures Remaining(Do(s, step)) < Remaining(s)
  {
    if !step.CancelParent? {
      WeightUpdate(s.phases, step.w, Do(s, step).phases[step.w]);
    }
  }

  /** Every execution is finite: at most 4 * requests + concurrency + 1 atomic actions. */
  lemma {:induction false} RunIsBounded(requests: nat, concurrency: nat, states: seq<Sys>, steps: seq<Step>, k: nat)
    requires Behaviour(requests, concurrency, states, steps) && k < |states|
    ensures k + Remaining(states[k]) <= 4 * requests + concurrency + 1
  {
    if k == 0 {
      StartWeight(concurrency);
    } else {
      RunIsBounded(requests, concurrency, states, steps, k - 1);
      assert StepAt(states, steps, k - 1);
      StepCostsOne(states[k - 1], steps[k - 1]);
    }
  }

  /** And never stuck: while a worker has not exited, some worker can act, so every run can finish. */
  lemma SomeWorkerCanAct(s: Sys) returns (step: Step)
    requires Shaped(s) && !Finished(s)
    ensures Enabled(s, step) && !step.CancelParent?
  {
    var w: nat :| w < |s.phases| && !s.phases[w].Exited?;
    match s.phases[w]
    case Drawing => step := Draw(w);
    case Checking(_) => step := Check(w);
    case Requesting(_) => step := Answer(w, 0);
    case Storing(_, _) => step := Store(w);
  }
}
