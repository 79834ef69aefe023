/** The availability experiment: the shared request budget, and the report's counts and fault timeline. */
module Availability {
  import opened Prelude

  const NANOSECONDS_PER_SECOND := 1000000000.0

  /** The zero value of a time stamp, which the report treats as "not set". */
  const ZERO_TIME: Time := 0

  datatype Sample = Sample(startedAt: Time, finishedAt: Time, worker: string, attempts: nat, streamStarted: bool)

  datatype Attempt = Attempt(
    startedAt: Time, finishedAt: Time, success: bool, worker: string, attempts: nat, streamStarted: bool, error: string)

  /** The error category says whether the request failed, and whether that was after the stream began. */
  predicate Categorised(a: Attempt) {
    && (a.error == "" <==> a.success)
    && (a.error == "stream_incomplete" <==> !a.success && a.streamStarted)
    && (a.error == "upstream_response_failed" <==> !a.success && !a.streamStarted && a.worker != "")
  }

  /** `availabilityAttempt`: raw errors are reduced to a category. */
  function ToAttempt(s: Sample, failed: bool): (a: Attempt)
    ensures Categorised(a) && a.success == !failed
    ensures a.startedAt == s.startedAt && a.finishedAt == s.finishedAt
    ensures a.worker == s.worker && a.attempts == s.attempts && a.streamStarted == s.streamStarted
  {
    var category :=
      if !failed then ""
      else if s.streamStarted then "stream_incomplete"
      else if s.worker != "" then "upstream_response_failed"
      else "request_failed";
    Attempt(s.startedAt, s.finishedAt, !failed, s.worker, s.attempts, s.streamStarted, category)
  }

  // ---------- the request budget under every interleaving ----------

  datatype Phase = Looping | Requesting | Appending(attempt: Attempt) | Exited

  /** `attempts` is the shared slice; `issued` and `produced` are history. */
  datatype Sys = Sys(counter: nat, phases: seq<Phase>, attempts: seq<Attempt>, issued: nat, produced: seq<Attempt>)

  function Start(concurrency: nat): Sys {
    Sys(0, seq(concurrency, i => Looping), [], 0, [])
  }

  /** `stop` says that the deadline has passed or the context is done when the loop head is reached. */
  datatype Step =
    | Enter(w: nat, stop: bool)
    | Return(w: nat, sample: Sample, failed: bool)
    | Append(w: nat)

  ghost predicate Enabled(s: Sys, step: Step) {
    && step.w < |s.phases|
    && match step
       case Enter(w, _) => s.phases[w].Looping?
       case Return(w, _, _) => s.phases[w].Requesting?
       case Append(w) => s.phases[w].Appending?
  }

  ghost function Do(budget: nat, s: Sys, step: Step): Sys
    requires Enabled(s, step)
  {
    match step
    case Enter(w, stop) =>
      if stop then s.(phases := s.phases[w := Exited])
      else if s.counter + 1 > budget then s.(counter := s.counter + 1, phases := s.phases[w := Exited])
      else s.(counter := s.counter + 1, issued := s.issued + 1, phases := s.phases[w := Requesting])
    case Return(w, sample, failed) =>
      var attempt := ToAttempt(sample, failed);
      s.(phases := s.phases[w := Appending(attempt)], produced := s.produced + [attempt])
    case Append(w) =>
      s.(phases := s.phases[w := Looping], attempts := s.attempts + [s.phases[w].attempt])
  }

  ghost predicate StepAt(budget: nat, states: seq<Sys>, steps: seq<Step>, k: nat)
    requires k < |steps| && k + 1 < |states|
  {
    Enabled(states[k], steps[k]) && states[k + 1] == Do(budget, states[k], steps[k])
  }

  ghost predicate Behaviour(budget: nat, concurrency: nat, states: seq<Sys>, steps: seq<Step>) {
    && |states| == |steps| + 1
    && states[0] == Start(concurrency)
    && forall k: nat | k < |steps| :: StepAt(budget, states, steps, k)
  }

  function Carried(p: Phase): multiset<Attempt> {
    if p.Appending? then multiset{p.attempt} else multiset{}
  }

  /** The attempts that workers have built but not yet appended. */
  function Pending(phases: seq<Phase>): multiset<Attempt> {
    if phases == [] then multiset{} else Pending(phases[..|phases| - 1]) + Carried(phases[|phases| - 1])
  }

  function Waiting(phases: seq<Phase>): nat {
    if phases == [] then 0
    else Waiting(phases[..|phases| - 1]) + if phases[|phases| - 1].Requesting? then 1 else 0
  }

  lemma SwapLast(x: multiset<Attempt>, y: multiset<Attempt>, z: multiset<Attempt>)
    ensures (x + y) + z == (x + z) + y
  {
  }

  /** Changing one worker's phase moves its contribution. */
  lemma {:induction false} PhaseUpdate(phases: seq<Phase>, w: nat, p: Phase)
    requires w < |phases|
    ensures Waiting(phases[w := p]) + (if phases[w].Requesting? then 1 else 0) ==
            Waiting(phases) + (if p.Requesting? then 1 else 0)
    ensures Pending(phases[w := p]) + Carried(phases[w]) == Pending(phases) + Carried(p)
  {
    var last := |phases| - 1;
    hide Carried;
    if w == last {
      assert phases[w := p][..last] == phases[..last];
      SwapLast(Pending(phases[..last]), Carried(p), Carried(phases[last]));
    } else {
      var front := phases[..last];
      PhaseUpdate(front, w, p);
      assert phases[w := p][..last] == front[w := p];
      SwapLast(Pending(front[w := p]), Carried(phases[last]), Carried(phases[w]));
      SwapLast(Pending(front), Carried(p), Carried(phases[last]));
    }
  }

  /** Nothing is lost: every request issued within the budget is waiting, pending or appended. */
  ghost predicate Inv(budget: nat, s: Sys) {
    && s.issued == (if s.counter <= budget then s.counter else budget)
    && s.issued == |s.produced| + Waiting(s.phases)
    && multiset(s.produced) == multiset(s.attempts) + Pending(s.phases)
  }

  lemma NoneMoves(p: multiset<Attempt>, q: multiset<Attempt>)
    requires q + multiset{} == p + multiset{}
    ensures q == p
  {
    assert p + multiset{} == p && q + multiset{} == q;
  }

  lemma InvEnter(budget: nat, s: Sys, step: Step)
    requires Inv(budget, s) && Enabled(s, step) && step.Enter?
    ensures Inv(budget, Do(budget, s, step))
  {
    var after := Do(budget, s, step);
    hide Waiting, Pending;
    PhaseUpdate(s.phases, step.w, after.phases[step.w]);
    assert after.phases == s.phases[step.w := after.phases[step.w]];
    assert Carried(s.phases[step.w]) == multiset{} && Carried(after.phases[step.w]) == multiset{};
    NoneMoves(Pending(s.phases), Pending(after.phases));
  }

  lemma InvReturn(budget: nat, s: Sys, step: Step)
    requires Inv(budget, s) && Enabled(s, step) && step.Return?
    ensures Inv(budget, Do(budget, s, step))
  {
    var after := Do(budget, s, step);
    PhaseUpdate(s.phases, step.w, after.phases[step.w]);
    hide Waiting, Pending, ToAttempt;
    var attempt := after.phases[step.w].attempt;
    assert after.produced == s.produced + [attempt];
    assert Pending(after.phases) == Pending(s.phases) + multiset{attempt};
  }

  lemma InvAppend(budget: nat, s: Sys, step: Step)
    requires Inv(budget, s) && Enabled(s, step) && step.Append?
    ensures Inv(budget, Do(budget, s, step))
  {
    var after := Do(budget, s, step);
    PhaseUpdate(s.phases, step.w, after.phases[step.w]);
    hide Waiting, Pending;
    var attempt := s.phases[step.w].attempt;
    assert after.attempts == s.attempts + [attempt];
    assert Pending(after.phases) + multiset{attempt} == Pending(s.phases);
  }

  lemma InvStep(budget: nat, s: Sys, step: Step)
    requires Inv(budget, s) && Enabled(s, step)
    ensures Inv(budget, Do(budget, s, step))
  {
    match step
    case Enter(_, _) => InvEnter(budget, s, step);
    case Return(_, _, _) => InvReturn(budget, s, step);
    case Append(_) => InvAppend(budget, s, step);
  }

  lemma {:induction false} StartIsIdle(n: nat)
    ensures Waiting(seq(n, i => Looping)) == 0 && Pending(seq(n, i => Looping)) == multiset{}
  {
    if n > 0 {
      StartIsIdle(n - 1);
      assert seq(n, i => Looping)[..n - 1] == seq(n - 1, i => Looping);
    }
  }

  lemma {:induction false} InvHolds(budget: nat, concurrency: nat, states: seq<Sys>, steps: seq<Step>, k: nat)
    requires Behaviour(budget, concurrency, states, steps) && k < |states|
    ensures Inv(budget, states[k])
  {
    if k == 0 {
      StartIsIdle(concurrency);
    } else {
      InvHolds(budget, concurrency, states, steps, k - 1);
      assert StepAt(budget, states, steps, k - 1);
      InvStep(budget, states[k - 1], steps[k - 1]);
    }
  }

  lemma {:induction false} ProducedAreCategorised(budget: nat, concurrency: nat, states: seq<Sys>, steps: seq<Step>, k: nat)
    requires Behaviour(budget, concurrency, states, steps) && k < |states|
    ensures forall a | a in states[k].produced :: Categorised(a)
  {
    if k > 0 {
      ProducedAreCategorised(budget, concurrency, states, steps, k - 1);
      assert StepAt(budget, states, steps, k - 1);
      hide ToAttempt, Categorised;
    }
  }

  ghost predicate Finished(s: Sys) {
    forall w | 0 <= w < |s.phases| :: s.phases[w].Exited?
  }

  lemma {:induction false} FinishedIsIdle(phases: seq<Phase>)
    requires forall w | 0 <= w < |phases| :: phases[w].Exited?
    ensures Waiting(phases) == 0 && Pending(phases) == multiset{}
  {
    if phases != [] {
      FinishedIsIdle(phases[..|phases| - 1]);
    }
  }

  /** How many of the first k steps enter the loop with time left. */
  ghost function Entries(steps: seq<Step>, k: nat): nat
    requires k <= |steps|
  {
    if k == 0 then 0 else Entries(steps, k - 1) + if steps[k - 1].Enter? && !steps[k - 1].stop then 1 else 0
  }

  lemma {:induction false} CounterIsEntries(budget: nat, concurrency: nat, states: seq<Sys>, steps: seq<Step>, k: nat)
    requires Behaviour(budget, concurrency, states, steps) && k < |states|
    ensures states[k].counter == Entries(steps, k)
  {
    if k > 0 {
      CounterIsEntries(budget, concurrency, states, steps, k - 1);
      assert StepAt(budget, states, steps, k - 1);
      hide ToAttempt;
    }
  }

  /**
   Exactly one request is issued for each loop entry with time left, until the budget is used up; an
   entry after the deadline issues none and ends its worker for good.
   */
  lemma {:induction false} IssuedExactly(budget: nat, concurrency: nat, states: seq<Sys>, steps: seq<Step>, j: nat, k: nat)
    requires Behaviour(budget, concurrency, states, steps) && j < k < |states|
    ensures states[k].issued == if Entries(steps, k) <= budget then Entries(steps, k) else budget
    ensures steps[j].Enter? && steps[j].stop ==>
              && states[j + 1].issued == states[j].issued
              && steps[j].w < |states[k].phases| && states[k].phases[steps[j].w].Exited?
    decreases k
  {
    InvHolds(budget, concurrency, states, steps, k);
    CounterIsEntries(budget, concurrency, states, steps, k);
    assert StepAt(budget, states, steps, j);
    assert StepAt(budget, states, steps, k - 1);
    hide ToAttempt, Inv;
    if j + 1 < k {
      IssuedExactly(budget, concurrency, states, steps, j, k - 1);
    }
  }

  lemma {:induction false} ExitsWhenUsedUp(
      budget: nat, concurrency: nat, states: seq<Sys>, steps: seq<Step>, k: nat, w: nat)
    requires Behaviour(budget, concurrency, states, steps) && k < |states|
    requires forall j: nat | j < k && steps[j].Enter? :: !steps[j].stop
    ensures |states[k].phases| == concurrency
    ensures w < concurrency && states[k].phases[w].Exited? ==> states[k].counter > budget
  {
    if k > 0 {
      ExitsWhenUsedUp(budget, concurrency, states, steps, k - 1, w);
      assert StepAt(budget, states, steps, k - 1);
      hide ToAttempt;
    }
  }

  /** Workers keep going: if the deadline never stops one, a run ends only when the whole budget was issued. */
  lemma BudgetIsUsedUp(budget: nat, concurrency: nat, states: seq<Sys>, steps: seq<Step>)
    requires Behaviour(budget, concurrency, states, steps) && concurrency > 0 && Finished(states[|steps|])
    requires forall j: nat | j < |steps| && steps[j].Enter? :: !steps[j].stop
    ensures states[|steps|].issued == budget == |states[|steps|].attempts|
  {
    ExitsWhenUsedUp(budget, concurrency, states, steps, |steps|, 0);
    InvHolds(budget, concurrency, states, steps, |steps|);
    BudgetAndConservation(budget, concurrency, states, steps, |steps|);
  }

  /**
   Under every interleaving the number of requests issued never exceeds the budget, and when all
   workers have exited the shared slice holds exactly the attempts that the requests produced, one
   for each request issued.
   */
  lemma BudgetAndConservation(budget: nat, concurrency: nat, states: seq<Sys>, steps: seq<Step>, k: nat)
    requires Behaviour(budget, concurrency, states, steps) && k < |states|
    ensures |states[k].attempts| <= states[k].issued <= budget
    ensures Finished(states[k]) ==>
              && multiset(states[k].attempts) == multiset(states[k].produced)
              && |states[k].attempts| == states[k].issued
  {
    var s := states[k];
    InvHolds(budget, concurrency, states, steps, k);
    assert |multiset(s.produced)| == |s.produced|;
    assert |multiset(s.attempts) + Pending(s.phases)| == |multiset(s.attempts)| + |Pending(s.phases)|;
    if Finished(s) {
      FinishedIsIdle(s.phases);
    }
  }

  // ---------- the report ----------

  datatype ObservedWorker = ObservedWorker(name: string, healthy: bool)

  datatype Observation = Observation(observedAt: Time, workers: seq<ObservedWorker>, error: string)

  datatype Summary = Summary(
    total: nat, successful: nat, failed: nat, successRate: real, failuresAfterFault: nat,
    interruptedStreams: nat, retriedSuccesses: nat, workerSuccesses: map<string, nat>,
    detectedAt: Time, recoveredAt: Time, detectionSeconds: real, recoverySeconds: real)

  /** How many attempts satisfy a property. */
  function Count(attempts: seq<Attempt>, p: Attempt -> bool): (c: nat)
    ensures c <= |attempts|
  {
    if attempts == [] then 0
    else Count(attempts[..|attempts| - 1], p) + if p(attempts[|attempts| - 1]) then 1 else 0
  }

  lemma CountExtend(attempts: seq<Attempt>, i: nat, p: Attempt -> bool)
    requires i < |attempts|
    ensures Count(attempts[..i + 1], p) == Count(attempts[..i], p) + if p(attempts[i]) then 1 else 0
  {
    assert attempts[..i + 1][..i] == attempts[..i];
  }

  /** The sum of a table's entries. */
  ghost function Sum(m: map<string, nat>): nat {
    if m == map[] then 0
    else
      var k :| k in m;
      m[k] + Sum(m - {k})
  }

  /** The sum does not depend on which entry is taken first. */
  lemma {:induction false} SumTakes(m: map<string, nat>, k: string)
    requires k in m
    ensures Sum(m) == m[k] + Sum(m - {k})
  {
    var first :| first in m && Sum(m) == m[first] + Sum(m - {first});
    if first != k {
      SumTakes(m - {first}, k);
      SumTakes(m - {k}, first);
      assert m - {first} - {k} == m - {k} - {first};
    }
  }

  function Credit(m: map<string, nat>, worker: string): map<string, nat> {
    m[worker := if worker in m then m[worker] + 1 else 1]
  }

  lemma CreditAddsOne(m: map<string, nat>, worker: string)
    ensures Sum(Credit(m, worker)) == Sum(m) + 1
  {
    SumTakes(Credit(m, worker), worker);
    assert Credit(m, worker) - {worker} == m - {worker};
    if worker in m {
      SumTakes(m, worker);
    } else {
      assert m - {worker} == m;
    }
  }

  predicate Succeeded(a: Attempt) { a.success }

  predicate SucceededOn(a: Attempt, worker: string) { a.success && a.worker == worker }

  predicate Retried(a: Attempt) { a.success && a.attempts > 1 }

  predicate Interrupted(a: Attempt) { !a.success && a.streamStarted }

  predicate BrokeOff(a: Attempt) { a.error == "stream_incomplete" }

  predicate FailedAfter(a: Attempt, fault: Time) { !a.success && fault != ZERO_TIME && a.finishedAt >= fault }

  /** The table credits exactly the workers that served a success, each with its number of successes. */
  ghost predicate Tabulates(m: map<string, nat>, attempts: seq<Attempt>) {
    forall w :: Count(attempts, a => SucceededOn(a, w)) == if w in m then m[w] else 0
  }

  /** The counting half of `NewAvailabilityReport`. */
  ghost predicate CountsAre(s: Summary, attempts: seq<Attempt>, fault: Time) {
    && s.successful == Count(attempts, Succeeded)
    && s.failed == Count(attempts, a => !Succeeded(a))
    && s.retriedSuccesses == Count(attempts, Retried)
    && s.interruptedStreams == Count(attempts, Interrupted)
    && s.failuresAfterFault == Count(attempts, a => FailedAfter(a, fault))
    && s.successful + s.failed == |attempts|
    && Tabulates(s.workerSuccesses, attempts) && Sum(s.workerSuccesses) == s.successful
  }

  function CountOne(s: Summary, a: Attempt, fault: Time): Summary {
    if a.success then
      s.(successful := s.successful + 1, workerSuccesses := Credit(s.workerSuccesses, a.worker),
         retriedSuccesses := if a.attempts > 1 then s.retriedSuccesses + 1 else s.retriedSuccesses)
    else
      s.(failed := s.failed + 1,
         interruptedStreams := if a.streamStarted then s.interruptedStreams + 1 else s.interruptedStreams,
         failuresAfterFault := if fault != ZERO_TIME && a.finishedAt >= fault then s.failuresAfterFault + 1
                               else s.failuresAfterFault)
  }

  lemma CountOneMore(s: Summary, attempts: seq<Attempt>, i: nat, fault: Time)
    requires i < |attempts| && CountsAre(s, attempts[..i], fault)
    ensures CountsAre(CountOne(s, attempts[i], fault), attempts[..i + 1], fault)
  {
    var a := attempts[i];
    CountExtend(attempts, i, Succeeded);
    CountExtend(attempts, i, a => !Succeeded(a));
    CountExtend(attempts, i, Retried);
    CountExtend(attempts, i, Interrupted);
    CountExtend(attempts, i, a => FailedAfter(a, fault));
    CreditAddsOne(s.workerSuccesses, a.worker);
    var m := CountOne(s, a, fault).workerSuccesses;
    forall w ensures Count(attempts[..i + 1], a => SucceededOn(a, w)) == if w in m then m[w] else 0 {
      CountExtend(attempts, i, a => SucceededOn(a, w));
    }
  }

  /** `observedWorker`: the first entry with that name. */
  function Lookup(workers: seq<ObservedWorker>, name: string): (found: Option<ObservedWorker>)
    ensures found.Some? ==> found.value in workers && found.value.name == name
    ensures found.None? <==> forall w | w in workers :: w.name != name
  {
    if workers == [] then None
    else if workers[0].name == name then Some(workers[0])
    else Lookup(workers[1..], name)
  }

  /** An observation, at or after the fault and with a time stamp, that shows the target in the given health. */
  predicate Shows(o: Observation, target: string, fault: Time, healthy: bool) {
    && o.observedAt >= fault && o.observedAt != ZERO_TIME
    && Lookup(o.workers, target).Some? && Lookup(o.workers, target).value.healthy == healthy
  }

  /** Some observation made at that time shows the target in the given health. */
  ghost predicate ShownAt(obs: seq<Observation>, target: string, fault: Time, healthy: bool, at: Time) {
    exists o | o in obs :: Shows(o, target, fault, healthy) && o.observedAt == at
  }

  /** No observation in [from, to) shows the target in the given health. */
  ghost predicate NoneShows(obs: seq<Observation>, from: nat, to: nat, target: string, fault: Time, healthy: bool)
    requires to <= |obs|
  {
    forall i | from <= i < to :: !Shows(obs[i], target, fault, healthy)
  }

  /** Observation d is the first that shows the target unhealthy. */
  ghost predicate Detects(obs: seq<Observation>, d: nat, target: string, fault: Time) {
    d < |obs| && Shows(obs[d], target, fault, false) && NoneShows(obs, 0, d, target, fault, false)
  }

  /** Observation r is the first after d that shows it healthy. */
  ghost predicate Recovers(obs: seq<Observation>, d: nat, r: nat, target: string, fault: Time) {
    d < r < |obs| && Shows(obs[r], target, fault, true) && NoneShows(obs, d + 1, r, target, fault, true)
  }

  /** The timeline half of the report, as far as the first k observations determine it. */
  ghost predicate TimelineIs(s: Summary, obs: seq<Observation>, k: nat, target: string, fault: Time)
    requires k <= |obs|
  {
    && (s.detectedAt == ZERO_TIME ==> NoneShows(obs, 0, k, target, fault, false) && s.recoveredAt == ZERO_TIME)
    && (s.detectedAt != ZERO_TIME ==> exists d: nat :: Witnessed(s, obs, k, d, target, fault))
  }

  function SecondsBetween(from: Time, to: Time): real {
    (to - from) as real / NANOSECONDS_PER_SECOND
  }

  /** One turn of the timeline scan. */
  function ScanOne(s: Summary, o: Observation, target: string, fault: Time): Summary {
    if o.observedAt < fault then s
    else
      match Lookup(o.workers, target)
      case None => s
      case Some(worker) =>
        if s.detectedAt == ZERO_TIME && !worker.healthy then
          s.(detectedAt := o.observedAt, detectionSeconds := SecondsBetween(fault, o.observedAt))
        else if s.detectedAt != ZERO_TIME && s.recoveredAt == ZERO_TIME && worker.healthy then
          s.(recoveredAt := o.observedAt, recoverySeconds := SecondsBetween(fault, o.observedAt))
        else s
  }

  /** An outage at d, and the recovery after it as far as the first k observations show one. */
  ghost predicate Witnessed(s: Summary, obs: seq<Observation>, k: nat, d: nat, target: string, fault: Time)
    requires k <= |obs|
  {
    && d < k && Detects(obs, d, target, fault) && s.detectedAt == obs[d].observedAt
    && s.detectionSeconds == SecondsBetween(fault, s.detectedAt)
    && (s.recoveredAt == ZERO_TIME ==> NoneShows(obs, d + 1, k, target, fault, true))
    && (s.recoveredAt != ZERO_TIME ==>
          exists r: nat | r < k ::
            && Recovers(obs, d, r, target, fault) && s.recoveredAt == obs[r].observedAt
            && s.recoverySeconds == SecondsBetween(fault, s.recoveredAt))
  }

  lemma ScanBeforeDetection(s: Summary, obs: seq<Observation>, k: nat, target: string, fault: Time)
    requires k < |obs| && TimelineIs(s, obs, k, target, fault) && s.detectedAt == ZERO_TIME
    ensures TimelineIs(ScanOne(s, obs[k], target, fault), obs, k + 1, target, fault)
  {
    hide Lookup, SecondsBetween;
    var t := ScanOne(s, obs[k], target, fault);
    if t.detectedAt != ZERO_TIME {
      assert Witnessed(t, obs, k + 1, k, target, fault);
    }
  }

  lemma ScanAfterDetection(s: Summary, obs: seq<Observation>, k: nat, d: nat, target: string, fault: Time)
    requires k < |obs| && Witnessed(s, obs, k, d, target, fault)
    ensures Witnessed(ScanOne(s, obs[k], target, fault), obs, k + 1, d, target, fault)
  {
    hide Lookup, SecondsBetween;
    var t := ScanOne(s, obs[k], target, fault);
    if s.recoveredAt == ZERO_TIME && t.recoveredAt != ZERO_TIME {
      assert Recovers(obs, d, k, target, fault);
    }
  }

  lemma ScanOneMore(s: Summary, obs: seq<Observation>, k: nat, target: string, fault: Time)
    requires k < |obs| && TimelineIs(s, obs, k, target, fault)
    ensures TimelineIs(ScanOne(s, obs[k], target, fault), obs, k + 1, target, fault)
  {
    if s.detectedAt == ZERO_TIME {
      ScanBeforeDetection(s, obs, k, target, fault);
    } else {
      hide Detects, Recovers, NoneShows;
      var d: nat :| Witnessed(s, obs, k, d, target, fault);
      ScanAfterDetection(s, obs, k, d, target, fault);
    }
  }

  /**
   `NewAvailabilityReport`: exact counts, and the timeline of the first observed outage of the
   target at or after the fault and the first observed recovery after it.
   */
  method NewAvailabilityReport(fault: Time, target: string, attempts: seq<Attempt>, observations: seq<Observation>)
    returns (summary: Summary)
    ensures summary.total == |attempts| && CountsAre(summary, attempts, fault)
    ensures attempts != [] ==> summary.successRate == summary.successful as real / |attempts| as real
    ensures attempts == [] ==> summary.successRate == 0.0
    ensures TimelineIs(summary, observations, |observations|, target, fault)
  {
    summary := Summary(|attempts|, 0, 0, 0.0, 0, 0, 0, map[], ZERO_TIME, ZERO_TIME, 0.0, 0.0);
    assert CountsAre(summary, attempts[..0], fault);
    hide CountsAre;
    for i := 0 to |attempts|
      invariant CountsAre(summary, attempts[..i], fault)
      invariant summary.total == |attempts| && summary.successRate == 0.0
      invariant summary.detectedAt == summary.recoveredAt == ZERO_TIME
    {
      var attempt := attempts[i];
      CountOneMore(summary, attempts, i, fault);
      ghost var counted := CountOne(summary, attempt, fault);
      if attempt.success {
        summary := summary.(successful := summary.successful + 1);
        summary := summary.(workerSuccesses := Credit(summary.workerSuccesses, attempt.worker));
        if attempt.attempts > 1 {
          summary := summary.(retriedSuccesses := summary.retriedSuccesses + 1);
        }
        assert summary == counted;
        continue;
      }
      summary := summary.(failed := summary.failed + 1);
      if attempt.streamStarted {
        summary := summary.(interruptedStreams := summary.interruptedStreams + 1);
      }
      if fault != ZERO_TIME && !(attempt.finishedAt < fault) {
        summary := summary.(failuresAfterFault := summary.failuresAfterFault + 1);
      }
      assert summary == counted;
    }
    assert attempts[..|attempts|] == attempts;
    if summary.total > 0 {
      summary := WithRate(summary, attempts, fault);
    }
    summary := ScanObservations(summary, attempts, fault, target, observations);
  }

  function WithRate(s: Summary, attempts: seq<Attempt>, fault: Time): (t: Summary)
    requires s.total > 0 && CountsAre(s, attempts, fault)
    ensures t == s.(successRate := s.successful as real / s.total as real) && CountsAre(t, attempts, fault)
  {
    s.(successRate := s.successful as real / s.total as real)
  }

  /** The loop over the observations. */
  method ScanObservations(counted: Summary, ghost attempts: seq<Attempt>, fault: Time, target: string,
                          observations: seq<Observation>)
    returns (summary: Summary)
    requires CountsAre(counted, attempts, fault) && counted.detectedAt == counted.recoveredAt == ZERO_TIME
    ensures CountsAre(summary, attempts, fault)
    ensures summary.total == counted.total && summary.successRate == counted.successRate
    ensures summary.successful == counted.successful
    ensures TimelineIs(summary, observations, |observations|, target, fault)
  {
    summary := counted;
    ghost var scanned := counted;
    for i := 0 to |observations|
      invariant summary == counted.(detectedAt := summary.detectedAt, recoveredAt := summary.recoveredAt,
                                    detectionSeconds := summary.detectionSeconds, recoverySeconds := summary.recoverySeconds)
      invariant TimelineIs(summary, observations, i, target, fault)
    {
      var observation := observations[i];
      ScanOneMore(summary, observations, i, target, fault);
      hide TimelineIs;
      scanned := ScanOne(summary, observation, target, fault);
      if observation.observedAt < fault {
        continue;
      }
      var worker := FindObserved(observation.workers, target);
      if worker.None? {
        continue;
      }
      if summary.detectedAt == ZERO_TIME && !worker.value.healthy {
        summary := summary.(detectedAt := observation.observedAt,
                            detectionSeconds := SecondsBetween(fault, observation.observedAt));
        assert summary == scanned;
        continue;
      }
      if summary.detectedAt != ZERO_TIME && summary.recoveredAt == ZERO_TIME && worker.value.healthy {
        summary := summary.(recoveredAt := observation.observedAt,
                            recoverySeconds := SecondsBetween(fault, observation.observedAt));
      }
      assert summary == scanned;
    }
  }

  /** Entry i has the name and no earlier entry has it. */
  ghost predicate IsFirst(workers: seq<ObservedWorker>, i: nat, name: string)
    requires i < |workers|
  {
    workers[i].name == name && forall j | 0 <= j < i :: workers[j].name != name
  }

  /** The search loop of `observedWorker`. */
  method FindObserved(workers: seq<ObservedWorker>, name: string) returns (found: Option<ObservedWorker>)
    ensures found == Lookup(workers, name)
    ensures found.Some? ==> exists i | 0 <= i < |workers| :: IsFirst(workers, i, name) && workers[i] == found.value
    ensures found.None? ==> forall i | 0 <= i < |workers| :: workers[i].name != name
  {
    for i := 0 to |workers|
      invariant Lookup(workers, name) == Lookup(workers[i..], name)
      invariant forall j | 0 <= j < i :: workers[j].name != name
    {
      if workers[i].name == name {
        assert IsFirst(workers, i, name);
        return Some(workers[i]);
      }
      assert workers[i..][1..] == workers[i + 1..];
    }
    return None;
  }

  ghost predicate SortedBy<T>(s: seq<T>, key: T -> Time) {
    forall i, j | 0 <= i <= j < |s| :: key(s[i]) <= key(s[j])
  }

  ghost predicate TimeSorted(obs: seq<Observation>) {
    SortedBy(obs, (o: Observation) => o.observedAt)
  }

  /**
   On time-sorted observations: an outage is reported exactly when one was observed, at the
   earliest time it was observed, whatever the order of equal time stamps; and
   fault <= detected <= recovered.
   */
  lemma TimelineIsEarliest(s: Summary, obs: seq<Observation>, target: string, fault: Time)
    requires TimeSorted(obs) && TimelineIs(s, obs, |obs|, target, fault)
    ensures s.detectedAt != ZERO_TIME <==> exists i | 0 <= i < |obs| :: Shows(obs[i], target, fault, false)
    ensures forall i | 0 <= i < |obs| && Shows(obs[i], target, fault, false) :: s.detectedAt <= obs[i].observedAt
    ensures s.detectedAt != ZERO_TIME ==> fault <= s.detectedAt
    ensures s.detectedAt != ZERO_TIME ==> ShownAt(obs, target, fault, false, s.detectedAt)
    ensures s.detectedAt != ZERO_TIME ==> s.detectionSeconds == (s.detectedAt - fault) as real / 1000000000.0
    ensures s.recoveredAt != ZERO_TIME ==> s.recoverySeconds == (s.recoveredAt - fault) as real / 1000000000.0
    ensures s.recoveredAt != ZERO_TIME ==> s.detectedAt != ZERO_TIME && s.detectedAt <= s.recoveredAt
    ensures s.recoveredAt != ZERO_TIME ==> ShownAt(obs, target, fault, true, s.recoveredAt)
    ensures forall i | 0 <= i < |obs| && Shows(obs[i], target, fault, true) && s.detectedAt != ZERO_TIME
                       && s.detectedAt < obs[i].observedAt ::
              s.recoveredAt != ZERO_TIME && s.recoveredAt <= obs[i].observedAt
  {
    hide Shows;
    if s.detectedAt != ZERO_TIME {
      var d: nat :| Witnessed(s, obs, |obs|, d, target, fault);
      ShownAfterFault(obs[d], target, fault, false);
      if s.recoveredAt != ZERO_TIME {
        var r: nat :| r < |obs| && Recovers(obs, d, r, target, fault) && s.recoveredAt == obs[r].observedAt;
      }
    }
  }

  lemma ShownAfterFault(o: Observation, target: string, fault: Time, healthy: bool)
    requires Shows(o, target, fault, healthy)
    ensures o.observedAt >= fault
  {
  }

  // ---------- from run to report ----------

  ghost predicate StartSorted(attempts: seq<Attempt>) {
    SortedBy(attempts, (a: Attempt) => a.startedAt)
  }

  /** Where a new element goes: behind every element that is not later. */
  method InsertBy<T>(s: seq<T>, x: T, key: T -> Time) returns (r: seq<T>)
    requires SortedBy(s, key)
    ensures SortedBy(r, key) && multiset(r) == multiset(s) + multiset{x}
  {
    var k: nat := |s|;
    while k > 0 && key(x) < key(s[k - 1])
      invariant k <= |s| && forall i | k <= i < |s| :: key(x) < key(s[i])
    {
      k := k - 1;
    }
    assert forall i, j | 0 <= i < k <= j < |s| :: key(s[i]) <= key(x) < key(s[j]) by {
      assert k > 0 ==> forall i | 0 <= i < k :: key(s[i]) <= key(s[k - 1]);
    }
    r := s[..k] + [x] + s[k..];
    Spliced(s, x, k);
  }

  lemma Spliced<T>(s: seq<T>, x: T, k: nat)
    requires k <= |s|
    ensures multiset(s[..k] + [x] + s[k..]) == multiset(s) + multiset{x}
  {
    assert s == s[..k] + s[k..];
  }

  /** The library's sort by a time stamp. */
  method SortBy<T>(s: seq<T>, key: T -> Time) returns (r: seq<T>)
    ensures SortedBy(r, key) && multiset(r) == multiset(s)
  {
    r := [];
    for i := 0 to |s|
      invariant SortedBy(r, key) && multiset(r) == multiset(s[..i])
    {
      assert s[..i + 1] == s[..i] + [s[i]];
      r := InsertBy(r, s[i], key);
    }
    assert s[..|s|] == s;
  }

  /** The admin endpoint answered and listed a worker. */
  predicate IsEvidence(o: Observation) {
    o.error == "" && o.workers != []
  }

  /** `hasWorkerEvidence` */
  method HasWorkerEvidence(observations: seq<Observation>) returns (found: bool)
    ensures found <==> exists o | o in observations :: IsEvidence(o)
  {
    for i := 0 to |observations|
      invariant forall k | 0 <= k < i :: !IsEvidence(observations[k])
    {
      if observations[i].error == "" && observations[i].workers != [] {
        assert IsEvidence(observations[i]);
        return true;
      }
    }
    return false;
  }

  /** The end of `RunAvailability`: both slices are put in time order, and a run without evidence is an error. */
  method Conclude(attempts: seq<Attempt>, observations: seq<Observation>)
    returns (sorted: seq<Attempt>, timeline: seq<Observation>, ok: bool)
    ensures StartSorted(sorted) && multiset(sorted) == multiset(attempts)
    ensures TimeSorted(timeline) && multiset(timeline) == multiset(observations)
    ensures ok <==> exists o | o in observations :: IsEvidence(o)
  {
    sorted := SortBy(attempts, (a: Attempt) => a.startedAt);
    timeline := SortBy(observations, (o: Observation) => o.observedAt);
    SameMembers(timeline, observations);
    ok := HasWorkerEvidence(timeline);
  }

  lemma SameMembers(a: seq<Observation>, b: seq<Observation>)
    requires multiset(a) == multiset(b)
    ensures forall o :: o in a <==> o in b
  {
    forall o ensures o in a <==> o in b {
      assert o in a <==> o in multiset(a);
    }
  }

  /**
   From polling to timeline: however the observations were collected and however the sort orders
   equal time stamps, the report's detection is the earliest observed outage and its recovery the
   earliest later sign of health.
   */
  lemma TimelineIgnoresOrder(collected: seq<Observation>, timeline: seq<Observation>, s: Summary,
                             target: string, fault: Time)
    requires multiset(timeline) == multiset(collected) && TimeSorted(timeline)
    requires TimelineIs(s, timeline, |timeline|, target, fault)
    ensures s.detectedAt != ZERO_TIME <==> exists o | o in collected :: Shows(o, target, fault, false)
    ensures forall o | o in collected && Shows(o, target, fault, false) :: fault <= s.detectedAt <= o.observedAt
    ensures s.detectedAt != ZERO_TIME ==> ShownAt(collected, target, fault, false, s.detectedAt)
    ensures s.detectedAt != ZERO_TIME ==> s.detectionSeconds == (s.detectedAt - fault) as real / 1000000000.0
    ensures s.recoveredAt != ZERO_TIME ==> s.recoverySeconds == (s.recoveredAt - fault) as real / 1000000000.0
    ensures s.recoveredAt != ZERO_TIME ==> s.detectedAt != ZERO_TIME && s.detectedAt <= s.recoveredAt
    ensures s.recoveredAt != ZERO_TIME ==> ShownAt(collected, target, fault, true, s.recoveredAt)
    ensures forall o | o in collected && Shows(o, target, fault, true) && s.detectedAt != ZERO_TIME
                       && s.detectedAt < o.observedAt ::
              s.recoveredAt != ZERO_TIME && s.recoveredAt <= o.observedAt
  {
    SameMembers(timeline, collected);
    TimelineIsEarliest(s, timeline, target, fault);
    hide Shows, TimelineIs;
    forall o | o in collected
      ensures exists i | 0 <= i < |timeline| :: timeline[i] == o
    {
      assert o in timeline;
    }
  }

  lemma {:induction false} CountRemove(attempts: seq<Attempt>, p: Attempt -> bool, i: nat)
    requires i < |attempts|
    ensures Count(attempts, p) == Count(attempts[..i] + attempts[i + 1..], p) + if p(attempts[i]) then 1 else 0
  {
    var last := |attempts| - 1;
    if i == last {
      assert attempts[..i] + attempts[i + 1..] == attempts[..last];
    } else {
      CountRemove(attempts[..last], p, i);
      var without := attempts[..i] + attempts[i + 1..];
      assert without[..|without| - 1] == attempts[..last][..i] + attempts[..last][i + 1..];
      assert without[|without| - 1] == attempts[last];
    }
  }

  /** Counts do not depend on the order of the attempts, so sorting them changes no count. */
  lemma {:induction false} CountIgnoresOrder(a: seq<Attempt>, b: seq<Attempt>, p: Attempt -> bool)
    requires multiset(a) == multiset(b)
    ensures Count(a, p) == Count(b, p)
  {
    assert |a| == |multiset(a)| == |multiset(b)| == |b|;
    if a != [] {
      var last := |a| - 1;
      var x := a[last];
      assert x in multiset(b);
      var i: nat :| i < |b| && b[i] == x;
      CountRemove(b, p, i);
      RemoveAt(a, last);
      RemoveAt(b, i);
      assert a[..last] + a[last + 1..] == a[..last];
      hide Count;
      CountIgnoresOrder(a[..last], b[..i] + b[i + 1..], p);
      CountRemove(a, p, last);
    }
  }

  lemma {:induction false} CountAgrees(attempts: seq<Attempt>, p: Attempt -> bool, q: Attempt -> bool)
    requires forall a | a in attempts :: p(a) == q(a)
    ensures Count(attempts, p) == Count(attempts, q)
  {
    if attempts != [] {
      CountAgrees(attempts[..|attempts| - 1], p, q);
    }
  }

  lemma RemoveAt(s: seq<Attempt>, i: nat)
    requires i < |s|
    ensures multiset(s[..i] + s[i + 1..]) == multiset(s) - multiset{s[i]}
  {
    assert s == s[..i] + [s[i]] + s[i + 1..];
  }

  /**
   From run to report: whatever the interleaving, a report on the finished run's attempts, in any
   order, counts every issued request once: its successes and failures are those the requests
   produced, together as many as were issued, and within the budget. The interrupted streams are
   exactly the attempts whose error category says so.
   */
  lemma ReportAccountsForRun(budget: nat, concurrency: nat, states: seq<Sys>, steps: seq<Step>,
                             sorted: seq<Attempt>, s: Summary, fault: Time)
    requires Behaviour(budget, concurrency, states, steps) && Finished(states[|steps|])
    requires multiset(sorted) == multiset(states[|steps|].attempts) && CountsAre(s, sorted, fault)
    ensures s.successful + s.failed == states[|steps|].issued <= budget
    ensures s.successful == Count(states[|steps|].produced, Succeeded)
    ensures Sum(s.workerSuccesses) == s.successful
    ensures s.interruptedStreams == Count(states[|steps|].produced, BrokeOff)
  {
    var last := states[|steps|];
    BudgetAndConservation(budget, concurrency, states, steps, |steps|);
    assert |sorted| == |multiset(sorted)| == |multiset(last.attempts)| == |last.attempts|;
    CountIgnoresOrder(sorted, last.produced, Succeeded);
    CountIgnoresOrder(sorted, last.produced, Interrupted);
    ProducedAreCategorised(budget, concurrency, states, steps, |steps|);
    CountAgrees(last.produced, Interrupted, BrokeOff);
  }
}
