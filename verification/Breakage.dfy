/**
 Streams that break after commitment. A success is reported when a response arrives and the break
 only later, so a worker's failure count can grow by as many streams as were open at once.
 */
module Breakage {
  import opened Prelude
  import opened Circuit
  import opened WorkerPool
  import opened Stream
  import opened Gateway
  import opened GatewaySafety
  import opened Quarantine

  /** The request was answered by w, and its stream is neither complete nor reported as broken. */
  predicate Streams(q: Request, w: nat) {
    (q.phase.Answering? || q.phase.Relaying? || q.phase.Severed?) && q.phase.worker == w
  }

  /** The number of open streams of w. */
  function Open(requests: seq<Request>, w: nat): (n: nat)
    ensures n <= |requests|
  {
    if requests == [] then 0
    else Open(requests[..|requests| - 1], w) + if Streams(requests[|requests| - 1], w) then 1 else 0
  }

  lemma {:induction false} OpenUpdate(requests: seq<Request>, r: nat, q: Request, w: nat)
    requires r < |requests|
    ensures Open(requests[r := q], w) + (if Streams(requests[r], w) then 1 else 0) ==
            Open(requests, w) + (if Streams(q, w) then 1 else 0)
  {
    var last := |requests| - 1;
    if r == last {
      assert requests[r := q][..last] == requests[..last];
    } else {
      OpenUpdate(requests[..last], r, q, w);
      assert requests[r := q][..last] == requests[..last][r := q];
    }
  }

  lemma OpenArrival(requests: seq<Request>, w: nat)
    ensures Open(requests + [FRESH], w) == Open(requests, w)
  {
    assert (requests + [FRESH])[..|requests|] == requests;
  }

  /** The step reports a failure of w that is not a broken stream: a failed attempt or a failed probe. */
  ghost predicate OtherFailure(s: Sys, step: Step, w: nat) {
    || (step.AttemptFails? && step.r < |s.requests| && s.requests[step.r].phase == Calling(w))
    || (step.Probe? && !step.passes && s.queue != [] && s.queue[0] == w)
  }

  /** The step opens a stream of w. */
  ghost predicate Answers(s: Sys, step: Step, w: nat) {
    step.AttemptAnswers? && step.r < |s.requests| && s.requests[step.r].phase == Calling(w)
  }

  ghost predicate OnlyBreaksFail(states: seq<Sys>, steps: seq<Step>, w: nat)
    requires |states| == |steps| + 1
  {
    forall k: nat | k < |steps| :: !OtherFailure(states[k], steps[k], w)
  }

  ghost predicate AtMostOpen(states: seq<Sys>, w: nat, m: nat) {
    forall k: nat | k < |states| :: Open(states[k].requests, w) <= m
  }

  /** Failures of w so far in its current run, plus those its open streams may still add. */
  function Exposure(s: Sys, w: nat): nat
    requires w < |s.pool.circuits|
  {
    s.pool.circuits[w].failures + Open(s.requests, w)
  }

  /** The step reports a stream of w as broken. */
  ghost predicate Breaks(s: Sys, step: Step, w: nat) {
    step.ReportBreak? && step.r < |s.requests| && s.requests[step.r].phase.Severed? && s.requests[step.r].phase.worker == w
  }

  ghost predicate OnRequest(step: Step) {
    !step.Arrive? && !step.Sweep? && !step.Probe? && !step.Tick?
  }

  /** Only an answer opens a stream, and a reported break closes one. */
  lemma StreamChange(cfg: Config, s: Sys, step: Step, w: nat)
    requires Shaped(cfg, s) && Enabled(s, step) && OnRequest(step)
    ensures var after := Do(cfg, s, step).requests;
            && |after| == |s.requests| && step.r < |after| && after == s.requests[step.r := after[step.r]]
            && (Streams(after[step.r], w) && !Streams(s.requests[step.r], w) ==> Answers(s, step, w))
            && (Breaks(s, step, w) ==> Streams(s.requests[step.r], w) && !Streams(after[step.r], w))
  {
    hide Apply, Mask, Count, Candidates, Choice, Bytes, FinalCode, StatusOf;
  }

  lemma OpenChange(cfg: Config, s: Sys, step: Step, w: nat)
    requires Shaped(cfg, s) && Enabled(s, step)
    ensures Open(Do(cfg, s, step).requests, w) <= Open(s.requests, w) + if Answers(s, step, w) then 1 else 0
    ensures Breaks(s, step, w) ==> Open(Do(cfg, s, step).requests, w) + 1 == Open(s.requests, w)
  {
    if OnRequest(step) {
      StreamChange(cfg, s, step, w);
      var after := Do(cfg, s, step).requests;
      hide Do, Answers, Breaks, Streams;
      OpenUpdate(s.requests, step.r, after[step.r], w);
    } else {
      OpenArrival(s.requests, w);
    }
  }

  /** Without other failures only a broken stream adds to the failure count, and an answer resets it. */
  lemma FailureChange(cfg: Config, s: Sys, step: Step, w: nat)
    requires Shaped(cfg, s) && Enabled(s, step) && w < cfg.workers && !OtherFailure(s, step, w)
    ensures var c, d := s.pool.circuits[w], Do(cfg, s, step).pool.circuits[w];
            && d.failures <= c.failures + (if Breaks(s, step, w) then 1 else 0)
            && (Answers(s, step, w) ==> d.failures == 0)
  {
    hide Mask, Count, Candidates, Choice, Bytes, FinalCode, AfterObserve, AfterRelay;
  }

  /** The exposure of w never grows, except that an answer resets it to the number of open streams. */
  lemma ExposureStep(cfg: Config, s: Sys, step: Step, w: nat)
    requires Shaped(cfg, s) && Enabled(s, step) && w < cfg.workers && !OtherFailure(s, step, w)
    ensures Shaped(cfg, Do(cfg, s, step))
    ensures !Answers(s, step, w) ==> Exposure(Do(cfg, s, step), w) <= Exposure(s, w)
    ensures Answers(s, step, w) ==> Exposure(Do(cfg, s, step), w) == Open(Do(cfg, s, step).requests, w)
  {
    ShapedStep(cfg, s, step);
    OpenChange(cfg, s, step, w);
    FailureChange(cfg, s, step, w);
    hide Do, Answers, Breaks, OtherFailure;
  }

  /**
   Along any stretch of a run in which no attempt on w succeeds and its only failures are broken
   streams, the failure count grows by at most the streams of w that were open at its start.
   */
  lemma {:induction false} BreaksSpendOpenStreams(cfg: Config, states: seq<Sys>, steps: seq<Step>, w: nat, k: nat)
    requires Run(cfg, states, steps) && w < cfg.workers && k < |states|
    requires OnlyBreaksFail(states, steps, w)
    requires forall i: nat | i < |steps| :: !Answers(states[i], steps[i], w)
    ensures Shaped(cfg, states[k])
    ensures Exposure(states[k], w) <= Exposure(states[0], w)
  {
    if k > 0 {
      BreaksSpendOpenStreams(cfg, states, steps, w, k - 1);
      assert StepAt(cfg, states, steps, k - 1);
      ExposureStep(cfg, states[k - 1], steps[k - 1], w);
    }
  }

  /** With successes in between, it never exceeds the greatest number of streams open at once. */
  lemma {:induction false} ExposureIsBounded(cfg: Config, states: seq<Sys>, steps: seq<Step>, w: nat, m: nat, k: nat)
    requires Run(cfg, states, steps) && w < cfg.workers && k < |states|
    requires Exposure(states[0], w) <= m && OnlyBreaksFail(states, steps, w) && AtMostOpen(states, w, m)
    ensures Shaped(cfg, states[k]) && Exposure(states[k], w) <= m
  {
    if k > 0 {
      ExposureIsBounded(cfg, states, steps, w, m, k - 1);
      assert StepAt(cfg, states, steps, k - 1);
      ExposureStep(cfg, states[k - 1], steps[k - 1], w);
      assert Open(states[k].requests, w) <= m;
    }
  }

  /** If fewer streams of w than the threshold are ever open at once, broken streams alone do not open its circuit. */
  lemma FewStreamsStayClosed(cfg: Config, states: seq<Sys>, steps: seq<Step>, w: nat, m: nat)
    requires Behaviour(cfg, states, steps) && w < cfg.workers && m < cfg.settings.threshold
    requires OnlyBreaksFail(states, steps, w) && AtMostOpen(states, w, m)
    ensures Shaped(cfg, states[|steps|]) && states[|steps|].pool.circuits[w].failures <= m
    ensures states[|steps|].pool.circuits[w].openUntil.None?
  {
    ExposureIsBounded(cfg, states, steps, w, m, |steps|);
    ReachableCircuits(cfg, states, steps, |steps|, w);
  }

  /** The sequential case: one stream at a time never opens a circuit whose threshold exceeds one. */
  lemma SequentialBreaksStayClosed(cfg: Config, states: seq<Sys>, steps: seq<Step>, w: nat)
    requires Behaviour(cfg, states, steps) && w < cfg.workers && cfg.settings.threshold > 1
    requires OnlyBreaksFail(states, steps, w) && AtMostOpen(states, w, 1)
    ensures Shaped(cfg, states[|steps|]) && states[|steps|].pool.circuits[w].failures <= 1
    ensures states[|steps|].pool.circuits[w].openUntil.None?
  {
    FewStreamsStayClosed(cfg, states, steps, w, 1);
  }

  // ---------- as many open streams as the threshold do open it ----------

  /** A run from s in which only broken streams of w fail, with at most n requests, that opens the circuit of w. */
  ghost predicate Opens(cfg: Config, s: Sys, w: nat, n: nat, states: seq<Sys>, steps: seq<Step>) {
    && Run(cfg, states, steps) && states[0] == s && OnlyBreaksFail(states, steps, w)
    && (forall k: nat | k < |states| :: |states[k].requests| <= n)
    && Shaped(cfg, states[|steps|]) && w < cfg.workers && states[|steps|].pool.circuits[w].openUntil.Some?
  }

  lemma OpensLater(cfg: Config, s: Sys, step: Step, w: nat, n: nat, states: seq<Sys>, steps: seq<Step>)
    requires Shaped(cfg, s) && Enabled(s, step) && !OtherFailure(s, step, w) && |s.requests| <= n
    requires Opens(cfg, Do(cfg, s, step), w, n, states, steps)
    ensures Opens(cfg, s, w, n, [s] + states, [step] + steps)
  {
    hide Do, OtherFailure, Shaped;
    RunCons(cfg, s, step, states, steps);
    var longer, more := [s] + states, [step] + steps;
    forall k: nat | k < |more| ensures !OtherFailure(longer[k], more[k], w) {
      if k > 0 {
        assert longer[k] == states[k - 1] && more[k] == steps[k - 1];
      }
    }
  }

  const BROKEN := Last([], Lost("connection reset"))

  /** From request b on, every request relays a stream of w that will break; those before are reported. */
  ghost predicate Breaking(cfg: Config, s: Sys, w: nat, b: nat) {
    && Shaped(cfg, s) && w < cfg.workers && b <= |s.requests|
    && s.pool.circuits[w].failures == b
    && forall r: nat | b <= r < |s.requests| :: s.requests[r].phase == Relaying(w, BROKEN)
  }

  lemma {:induction false} BreakTheRest(cfg: Config, s: Sys, w: nat, b: nat) returns (states: seq<Sys>, steps: seq<Step>)
    requires Breaking(cfg, s, w, b) && b < cfg.settings.threshold == |s.requests|
    ensures Opens(cfg, s, w, |s.requests|, states, steps)
    decreases |s.requests| - b
  {
    var cut, report := Relay(b, None), ReportBreak(b, s.now, s.now);
    var severed := Do(cfg, s, cut);
    ShapedStep(cfg, s, cut);
    var t := Do(cfg, severed, report);
    ShapedStep(cfg, severed, report);
    if b + 1 < |s.requests| {
      assert Breaking(cfg, t, w, b + 1);
      states, steps := BreakTheRest(cfg, t, w, b + 1);
    } else {
      states, steps := [t], [];
    }
    OpensLater(cfg, severed, report, w, |s.requests|, states, steps);
    states, steps := [severed] + states, [report] + steps;
    OpensLater(cfg, s, cut, w, |s.requests|, states, steps);
    states, steps := [s] + states, [cut] + steps;
  }

  /** Only w is eligible, its failure count is zero, and every request relays a stream of w that will break. */
  ghost predicate Opening(cfg: Config, s: Sys, w: nat) {
    && Breaking(cfg, s, w, 0) && OnlyEligible(s, w)
  }

  ghost predicate OnlyEligible(s: Sys, w: nat) {
    forall v: nat | v < |s.pool.circuits| :: s.pool.circuits[v].Eligible() <==> v == w
  }

  /** With one eligible worker a new request is given that worker. */
  lemma OnlyChoice(cfg: Config, s: Sys, w: nat)
    requires Shaped(cfg, s) && w < cfg.workers && OnlyEligible(s, w)
    requires s.requests != [] && s.requests[|s.requests| - 1] == FRESH
    ensures var r := |s.requests| - 1;
            var t := Do(cfg, s, Choose(r));
            && t.requests == s.requests[r := FRESH.(phase := Calling(w), tried := [w])]
            && t.pool.circuits == s.pool.circuits && t.now == s.now
  {
    var excluded: set<nat> := set x | x in FRESH.tried;
    assert w !in excluded && s.pool.circuits[w].Eligible();
    assert Choice(s.pool, excluded) == Some(w);
    assert FRESH.tried + [w] == [w];
  }

  /** The four steps that open one more stream of w. */
  function OpeningSteps(r: nat, now: Time): seq<Step> {
    [Arrive, Choose(r), AttemptAnswers(r, 200, BROKEN, now), Observe(r)]
  }

  lemma OneMoreStream(cfg: Config, s: Sys, w: nat) returns (arrived: Sys, calling: Sys, answered: Sys, relaying: Sys)
    requires Opening(cfg, s, w)
    ensures Shaped(cfg, arrived) && Shaped(cfg, calling) && Shaped(cfg, answered)
    ensures var r, acts := |s.requests|, OpeningSteps(|s.requests|, s.now);
            && arrived == Do(cfg, s, acts[0])
            && Enabled(arrived, acts[1]) && calling == Do(cfg, arrived, acts[1])
            && Enabled(calling, acts[2]) && answered == Do(cfg, calling, acts[2])
            && Enabled(answered, acts[3]) && relaying == Do(cfg, answered, acts[3])
            && |arrived.requests| == |calling.requests| == |answered.requests| == |relaying.requests| == r + 1
    ensures Opening(cfg, relaying, w)
  {
    var r := |s.requests|;
    arrived := Do(cfg, s, Arrive);
    ShapedStep(cfg, s, Arrive);
    calling := Do(cfg, arrived, Choose(r));
    ShapedStep(cfg, arrived, Choose(r));
    OnlyChoice(cfg, arrived, w);
    answered := Do(cfg, calling, AttemptAnswers(r, 200, BROKEN, s.now));
    ShapedStep(cfg, calling, AttemptAnswers(r, 200, BROKEN, s.now));
    relaying := Do(cfg, answered, Observe(r));
    ShapedStep(cfg, answered, Observe(r));
  }

  lemma {:induction false} OpenTheRest(cfg: Config, s: Sys, w: nat) returns (states: seq<Sys>, steps: seq<Step>)
    requires Opening(cfg, s, w) && |s.requests| <= cfg.settings.threshold
    ensures Opens(cfg, s, w, cfg.settings.threshold, states, steps)
    decreases cfg.settings.threshold - |s.requests|
  {
    var n := cfg.settings.threshold;
    if |s.requests| == n {
      states, steps := BreakTheRest(cfg, s, w, 0);
    } else {
      var arrived, calling, answered, relaying := OneMoreStream(cfg, s, w);
      var acts := OpeningSteps(|s.requests|, s.now);
      states, steps := OpenTheRest(cfg, relaying, w);
      hide Do, Shaped, Opening, Opens;
      OpensLater(cfg, answered, acts[3], w, n, states, steps);
      states, steps := [answered] + states, [acts[3]] + steps;
      OpensLater(cfg, calling, acts[2], w, n, states, steps);
      states, steps := [calling] + states, [acts[2]] + steps;
      OpensLater(cfg, arrived, acts[1], w, n, states, steps);
      states, steps := [arrived] + states, [acts[1]] + steps;
      OpensLater(cfg, s, acts[0], w, n, states, steps);
      states, steps := [s] + states, [acts[0]] + steps;
    }
  }

  /** The first sweep is under way: nobody is healthy yet, and w is still to be probed. */
  ghost predicate Sweeping(cfg: Config, s: Sys, w: nat) {
    && Shaped(cfg, s) && w < cfg.workers && s.requests == [] && w in s.queue
    && forall v: nat | v < cfg.workers :: !s.pool.circuits[v].healthy
  }

  lemma {:induction false} ProbeTheRest(cfg: Config, s: Sys, w: nat) returns (states: seq<Sys>, steps: seq<Step>)
    requires Sweeping(cfg, s, w)
    ensures Opens(cfg, s, w, cfg.settings.threshold, states, steps)
    decreases |s.queue|
  {
    var step := Probe(s.queue[0] == w, "connection refused", s.now, s.now);
    var t := Do(cfg, s, step);
    ShapedStep(cfg, s, step);
    if s.queue[0] == w {
      assert Opening(cfg, t, w);
      states, steps := OpenTheRest(cfg, t, w);
    } else {
      assert s.queue == [s.queue[0]] + t.queue;
      states, steps := ProbeTheRest(cfg, t, w);
    }
    OpensLater(cfg, s, step, w, cfg.settings.threshold, states, steps);
    states, steps := [s] + states, [step] + steps;
  }

  /** For every configuration and worker, some execution with `threshold` requests opens the circuit by broken streams alone. */
  lemma ManyStreamsOpen(cfg: Config, now: Time, w: nat) returns (states: seq<Sys>, steps: seq<Step>)
    requires cfg.WellFormed() && w < cfg.workers
    ensures Opens(cfg, Start(cfg, now), w, cfg.settings.threshold, states, steps)
  {
    var s := Start(cfg, now);
    var t := Do(cfg, s, Sweep);
    ShapedStep(cfg, s, Sweep);
    assert w in Candidates(s.pool.circuits, s.now);
    states, steps := ProbeTheRest(cfg, t, w);
    OpensLater(cfg, s, Sweep, w, cfg.settings.threshold, states, steps);
    states, steps := [s] + states, [Sweep] + steps;
  }

  /** Executions from the start in which only broken streams of w fail and at most m of its streams are open at once. */
  ghost predicate BreaksOnly(cfg: Config, states: seq<Sys>, steps: seq<Step>, w: nat, m: nat) {
    Behaviour(cfg, states, steps) && OnlyBreaksFail(states, steps, w) && AtMostOpen(states, w, m)
  }

  /**
   When broken streams open a circuit, exactly. For every configuration, worker and bound m: no
   execution whose only failures of w are broken streams, with at most m streams of w open at once,
   ever opens the circuit of w if and only if m is below the threshold.
   */
  lemma BreaksOpenExactlyAtThreshold(cfg: Config, w: nat, m: nat)
    requires cfg.WellFormed() && w < cfg.workers
    ensures (forall states: seq<Sys>, steps: seq<Step> | BreaksOnly(cfg, states, steps, w, m) ::
               && Shaped(cfg, states[|steps|])
               && states[|steps|].pool.circuits[w].openUntil.None?)
            <==> m < cfg.settings.threshold
  {
    if m < cfg.settings.threshold {
      forall states: seq<Sys>, steps: seq<Step> | BreaksOnly(cfg, states, steps, w, m)
        ensures Shaped(cfg, states[|steps|]) && states[|steps|].pool.circuits[w].openUntil.None?
      {
        FewStreamsStayClosed(cfg, states, steps, w, m);
      }
    } else {
      var states, steps := ManyStreamsOpen(cfg, 0, w);
      assert BreaksOnly(cfg, states, steps, w, m);
    }
  }
}
