/**
 How long an opened circuit keeps a worker out of rotation, under every interleaving of requests,
 prober and clock.
 */
module Quarantine {
  import opened Prelude
  import opened Circuit
  import opened WorkerPool
  import opened Stream
  import opened Gateway
  import opened GatewaySafety

  /** Some attempt on w has not reported yet, or the prober still holds w in its candidate list. */
  ghost predicate Outstanding(s: Sys, w: nat) {
    || w in s.queue
    || exists r | 0 <= r < |s.requests| :: s.requests[r].phase == Calling(w)
  }

  /** Circuits follow their logs, and none was opened in the future. */
  ghost predicate Sound(cfg: Config, s: Sys) {
    && CircuitsFollowLogs(cfg, s)
    && forall w | 0 <= w < cfg.workers && s.pool.circuits[w].openUntil.Some? ::
         s.pool.circuits[w].openUntil.value <= s.now + cfg.settings.cooldown
  }

  lemma SoundStep(cfg: Config, s: Sys, step: Step)
    requires Sound(cfg, s) && Enabled(s, step)
    ensures Sound(cfg, Do(cfg, s, step))
  {
    LogStep(cfg, s, step);
    hide Candidates, Choice, Mask, Count, Replay;
  }

  lemma {:induction false} SoundHolds(cfg: Config, states: seq<Sys>, steps: seq<Step>, i: nat)
    requires Behaviour(cfg, states, steps) && i < |states|
    ensures Sound(cfg, states[i])
  {
    if i > 0 {
      SoundHolds(cfg, states, steps, i - 1);
      assert StepAt(cfg, states, steps, i - 1);
      SoundStep(cfg, states[i - 1], steps[i - 1]);
    }
  }

  /** The circuit of w is set, until `release` or later, and no attempt on w is unreported. */
  ghost predicate Parked(cfg: Config, s: Sys, w: nat, release: Time) {
    && Sound(cfg, s) && w < cfg.workers
    && s.pool.circuits[w].openUntil.Some? && s.pool.circuits[w].openUntil.value >= release
    && release <= s.now + cfg.settings.cooldown
    && forall r | 0 <= r < |s.requests| :: s.requests[r].phase != Calling(w)
  }

  /** The step is a sweep that puts w on the candidate list. */
  ghost predicate Lists(s: Sys, step: Step, w: nat)
    requires w < |s.pool.circuits|
  {
    step.Sweep? && s.pool.circuits[w].Probeable(s.now)
  }

  /** The step is a passing probe of w. */
  ghost predicate Readmits(s: Sys, step: Step, w: nat) {
    step.Probe? && step.passes && s.queue != [] && s.queue[0] == w
  }

  lemma ParkedStaysOpen(cfg: Config, s: Sys, step: Step, w: nat, release: Time)
    requires Parked(cfg, s, w, release) && Enabled(s, step) && !Readmits(s, step, w)
    ensures var c := Do(cfg, s, step).pool.circuits[w];
            c.openUntil.Some? && c.openUntil.value >= release
  {
    LogDeterminesState(cfg.settings, s.log[w]);
    hide Candidates, Choice, Mask, Count, Replay;
  }

  lemma NobodyCallsParked(cfg: Config, s: Sys, step: Step, w: nat, release: Time)
    requires Parked(cfg, s, w, release) && Enabled(s, step)
    ensures forall r | 0 <= r < |Do(cfg, s, step).requests| :: Do(cfg, s, step).requests[r].phase != Calling(w)
  {
    assert !s.pool.circuits[w].Eligible();
    hide Apply, Mask, Count, Candidates, Sound;
    forall r: nat | r < |Do(cfg, s, step).requests| ensures Do(cfg, s, step).requests[r].phase != Calling(w) {
      if !ActsOn(step, r) {
        OtherRequestsStay(cfg, s, step, r);
      }
    }
  }

  /** A parked worker stays parked under every step but a passing probe, for however long. */
  lemma ParkedStep(cfg: Config, s: Sys, step: Step, w: nat, release: Time)
    requires Parked(cfg, s, w, release) && Enabled(s, step) && !Readmits(s, step, w)
    ensures Parked(cfg, Do(cfg, s, step), w, release)
  {
    SoundStep(cfg, s, step);
    ShapedStep(cfg, s, step);
    ParkedStaysOpen(cfg, s, step, w, release);
    NobodyCallsParked(cfg, s, step, w, release);
  }

  lemma OnlySweepLists(cfg: Config, s: Sys, step: Step, w: nat)
    requires Shaped(cfg, s) && Enabled(s, step) && w < cfg.workers
    requires w !in s.queue && w in Do(cfg, s, step).queue
    ensures Lists(s, step, w)
  {
    hide Apply, Mask, Count, Choice;
  }

  /** A parked worker that the prober does not hold either: nothing can report on it but broken streams. */
  ghost predicate Confined(cfg: Config, s: Sys, w: nat, release: Time) {
    Parked(cfg, s, w, release) && !Outstanding(s, w)
  }

  /** Confinement survives every step taken before the release time, and excludes w from selection. */
  lemma ConfinedStep(cfg: Config, s: Sys, step: Step, w: nat, release: Time)
    requires Confined(cfg, s, w, release) && Enabled(s, step) && s.now < release
    ensures Confined(cfg, Do(cfg, s, step), w, release)
    ensures !s.pool.circuits[w].Eligible()
  {
    ParkedStep(cfg, s, step, w, release);
    hide Do, Sound;
    if w in Do(cfg, s, step).queue {
      OnlySweepLists(cfg, s, step, w);
    }
  }

  lemma {:induction false} ConfinementLasts(
      cfg: Config, states: seq<Sys>, steps: seq<Step>, i: nat, j: nat, w: nat, release: Time)
    requires Run(cfg, states, steps) && i <= j < |states|
    requires Confined(cfg, states[i], w, release) && states[j].now < release
    ensures Confined(cfg, states[j], w, release) && !states[j].pool.circuits[w].Eligible()
    decreases j - i
  {
    if i < j {
      assert StepAt(cfg, states, steps, j - 1);
      ShapedStep(cfg, states[j - 1], steps[j - 1]);
      ConfinementLasts(cfg, states, steps, i, j - 1, w, release);
      ConfinedStep(cfg, states[j - 1], steps[j - 1], w, release);
    }
    LogDeterminesState(cfg.settings, states[j].log[w]);
  }

  lemma OpeningTime(cfg: Config, s: Sys, step: Step, w: nat)
    requires Shaped(cfg, s) && Enabled(s, step) && w < cfg.workers
    requires s.pool.circuits[w].openUntil.None? && Do(cfg, s, step).pool.circuits[w].openUntil.Some?
    ensures Do(cfg, s, step).pool.circuits[w].openUntil.value == Do(cfg, s, step).now + cfg.settings.cooldown
  {
    hide Candidates, Choice, Mask, Count;
  }

  lemma ChosenWasEligible(cfg: Config, s: Sys, r: nat, w: nat)
    requires Shaped(cfg, s) && Enabled(s, Choose(r)) && w < cfg.workers
    requires Do(cfg, s, Choose(r)).requests[r].phase == Calling(w)
    ensures s.pool.circuits[w].Eligible()
  {
  }

  /**
   Circuit-breaker safety. Suppose a step opens the circuit of w when no attempt on w is
   unreported and the prober does not hold w. Then, until the cooldown after that opening has
   passed, w stays ineligible in every later state of every execution and no request is given w.
   Streams broken meanwhile can only move the end of the cooldown later.
   */
  lemma OpenedCircuitHolds(cfg: Config, states: seq<Sys>, steps: seq<Step>, i: nat, j: nat, w: nat)
    requires Behaviour(cfg, states, steps) && i < j < |states| && w < cfg.workers
    requires Shaped(cfg, states[i]) && Shaped(cfg, states[i + 1])
    requires states[i].pool.circuits[w].openUntil.None? && states[i + 1].pool.circuits[w].openUntil.Some?
    requires !Outstanding(states[i + 1], w)
    requires states[j].now < states[i + 1].now + cfg.settings.cooldown
    ensures Shaped(cfg, states[j])
    ensures !states[j].pool.circuits[w].Eligible()
    ensures states[j].pool.circuits[w].openUntil.Some?
    ensures states[j].pool.circuits[w].openUntil.value >= states[i + 1].now + cfg.settings.cooldown
    ensures forall r: nat | j < |steps| && steps[j] == Choose(r) && r < |states[j + 1].requests| ::
              states[j + 1].requests[r].phase != Calling(w)
  {
    assert StepAt(cfg, states, steps, i);
    SoundHolds(cfg, states, steps, i);
    SoundHolds(cfg, states, steps, i + 1);
    OpeningTime(cfg, states[i], steps[i], w);
    assert states[i + 1].pool.circuits[w].openUntil.value == states[i + 1].now + cfg.settings.cooldown;
    ConfinementLasts(cfg, states, steps, i + 1, j, w, states[i + 1].now + cfg.settings.cooldown);
    if j < |steps| && steps[j].Choose? {
      assert StepAt(cfg, states, steps, j);
      if states[j + 1].requests[steps[j].r].phase == Calling(w) {
        ChosenWasEligible(cfg, states[j], steps[j].r, w);
      }
    }
  }

  // ---------- the way back ----------

  /** Up to its first passing probe a parked worker stays parked. */
  lemma {:induction false} ParkedUntilProbe(
      cfg: Config, states: seq<Sys>, steps: seq<Step>, i: nat, j: nat, w: nat, release: Time) returns (b: nat)
    requires Run(cfg, states, steps) && i <= j < |states| && Parked(cfg, states[i], w, release)
    ensures i <= b <= j && forall k | i <= k <= b :: Parked(cfg, states[k], w, release)
    ensures b < j ==> Readmits(states[b], steps[b], w)
    decreases j - i
  {
    hide Parked, Readmits;
    b := i;
    if i < j {
      b := ParkedUntilProbe(cfg, states, steps, i, j - 1, w, release);
      if b == j - 1 && !Readmits(states[b], steps[b], w) {
        assert StepAt(cfg, states, steps, b);
        ParkedStep(cfg, states[b], steps[b], w, release);
        b := j;
      }
    }
  }

  /** A worker on the candidate list was put there by a sweep. */
  lemma {:induction false} ListedBySweep(cfg: Config, states: seq<Sys>, steps: seq<Step>, i: nat, b: nat, w: nat)
    returns (a: nat)
    requires Run(cfg, states, steps) && i <= b < |states| && w < cfg.workers
    requires w !in states[i].queue && w in states[b].queue
    ensures i <= a < b && w < |states[a].pool.circuits| && Lists(states[a], steps[a], w)
    decreases b - i
  {
    assert StepAt(cfg, states, steps, b - 1);
    if w in states[b - 1].queue {
      a := ListedBySweep(cfg, states, steps, i, b - 1, w);
    } else {
      OnlySweepLists(cfg, states[b - 1], steps[b - 1], w);
      a := b - 1;
    }
  }

  /**
   Half-open safety, with no bound on time. After an opening as in `OpenedCircuitHolds`, w becomes
   eligible again only the documented way: by a sweep at or after the end of its cooldown that puts
   it on the candidate list, followed by a passing probe. Until that probe it is never eligible.
   */
  lemma OnlyAProbeReadmits(cfg: Config, states: seq<Sys>, steps: seq<Step>, i: nat, j: nat, w: nat)
    returns (a: nat, b: nat)
    requires Behaviour(cfg, states, steps) && i < j < |states| && w < cfg.workers
    requires Shaped(cfg, states[i]) && Shaped(cfg, states[i + 1]) && Shaped(cfg, states[j])
    requires states[i].pool.circuits[w].openUntil.None? && states[i + 1].pool.circuits[w].openUntil.Some?
    requires !Outstanding(states[i + 1], w)
    requires states[j].pool.circuits[w].Eligible()
    ensures i < a < b < j && Shaped(cfg, states[a]) && Shaped(cfg, states[b])
    ensures Lists(states[a], steps[a], w) && Readmits(states[b], steps[b], w)
    ensures states[a].pool.circuits[w].openUntil.Some?
    ensures states[a].now >= states[a].pool.circuits[w].openUntil.value >= states[i + 1].now + cfg.settings.cooldown
    ensures forall k | i < k <= b :: Shaped(cfg, states[k]) && !states[k].pool.circuits[w].Eligible()
  {
    var release := states[i + 1].now + cfg.settings.cooldown;
    assert StepAt(cfg, states, steps, i);
    SoundHolds(cfg, states, steps, i + 1);
    OpeningTime(cfg, states[i], steps[i], w);
    assert Parked(cfg, states[i + 1], w, release);
    b := ParkedUntilProbe(cfg, states, steps, i + 1, j, w, release);
    a := ListedBySweep(cfg, states, steps, i + 1, b, w);
  }

  // ---------- exactness ----------

  /** Every execution from s leaves w ineligible for as long as its clock stays before `release`. */
  ghost predicate Held(cfg: Config, s: Sys, w: nat, release: Time)
    requires w < cfg.workers
  {
    forall states: seq<Sys>, steps: seq<Step> | Run(cfg, states, steps) && states[0] == s && states[|steps|].now < release ::
      Shaped(cfg, states[|steps|]) && !states[|steps|].pool.circuits[w].Eligible()
  }

  lemma RunCons(cfg: Config, s: Sys, step: Step, states: seq<Sys>, steps: seq<Step>)
    requires Run(cfg, states, steps)
    requires Shaped(cfg, s) && Enabled(s, step) && states[0] == Do(cfg, s, step)
    ensures Run(cfg, [s] + states, [step] + steps)
    ensures ([s] + states)[0] == s && ([s] + states)[|[step] + steps|] == states[|steps|]
  {
    var longer, more := [s] + states, [step] + steps;
    forall i: nat | i < |more| ensures StepAt(cfg, longer, more, i) {
      if i > 0 {
        assert StepAt(cfg, states, steps, i - 1);
      }
    }
  }

  function PassNow(s: Sys): Step {
    Probe(true, "", s.now, s.now)
  }

  /** A prober that still holds w can make it eligible without any time passing. */
  lemma {:induction false} StaleProbeReadmits(cfg: Config, s: Sys, w: nat) returns (states: seq<Sys>, steps: seq<Step>)
    requires Shaped(cfg, s) && w in s.queue
    ensures w < cfg.workers && Run(cfg, states, steps) && states[0] == s
    ensures forall k | 0 <= k < |steps| :: steps[k].Probe?
    ensures states[|steps|].now == s.now && Shaped(cfg, states[|steps|])
    ensures states[|steps|].pool.circuits[w].Eligible()
    decreases |s.queue|
  {
    var t := Do(cfg, s, PassNow(s));
    ShapedStep(cfg, s, PassNow(s));
    if s.queue[0] == w {
      states, steps := [t], [];
    } else {
      assert s.queue == [s.queue[0]] + t.queue;
      states, steps := StaleProbeReadmits(cfg, t, w);
    }
    RunCons(cfg, s, PassNow(s), states, steps);
    states, steps := [s] + states, [PassNow(s)] + steps;
  }

  lemma LateAnswerReadmits(cfg: Config, s: Sys, r: nat) returns (states: seq<Sys>, steps: seq<Step>)
    requires Shaped(cfg, s) && r < |s.requests| && s.requests[r].phase.Calling?
    ensures Run(cfg, states, steps) && states[0] == s
    ensures states[|steps|].now == s.now && Shaped(cfg, states[|steps|])
    ensures states[|steps|].pool.circuits[s.requests[r].phase.worker].Eligible()
  {
    var step := AttemptAnswers(r, 200, Last([], EndOfFile), s.now);
    var t := Do(cfg, s, step);
    ShapedStep(cfg, s, step);
    states, steps := [t], [];
    RunCons(cfg, s, step, states, steps);
    states, steps := [s] + states, [step] + steps;
  }

  /**
   The hypothesis of `OpenedCircuitHolds` is exact. For every reachable state in which w waits out
   a cooldown: no execution readmits w before the cooldown ends if and only if no attempt on w is
   unreported and the prober does not hold w.
   */
  lemma QuarantineIsExact(cfg: Config, states: seq<Sys>, steps: seq<Step>, i: nat, w: nat)
    requires Behaviour(cfg, states, steps) && i < |states| && w < cfg.workers
    requires Shaped(cfg, states[i]) && states[i].pool.circuits[w].State(states[i].now) == Open
    ensures Held(cfg, states[i], w, states[i].pool.circuits[w].openUntil.value) <==> !Outstanding(states[i], w)
  {
    var s := states[i];
    var release := s.pool.circuits[w].openUntil.value;
    SoundHolds(cfg, states, steps, i);
    if Outstanding(s, w) {
      if w in s.queue {
        var later, path := StaleProbeReadmits(cfg, s, w);
      } else {
        var r :| 0 <= r < |s.requests| && s.requests[r].phase == Calling(w);
        var later, path := LateAnswerReadmits(cfg, s, r);
      }
    } else {
      forall later: seq<Sys>, path: seq<Step> | Run(cfg, later, path) && later[0] == s && later[|path|].now < release
        ensures Shaped(cfg, later[|path|]) && !later[|path|].pool.circuits[w].Eligible()
      {
        ConfinementLasts(cfg, later, path, 0, |path|, w, release);
      }
    }
  }

  /**
   No worker is lost for good: from every reachable state some execution, using only the prober
   and the clock, makes w eligible again.
   */
  lemma {:induction false} RecoveryIsPossible(cfg: Config, s: Sys, w: nat) returns (states: seq<Sys>, steps: seq<Step>)
    requires Shaped(cfg, s) && w < cfg.workers
    ensures Run(cfg, states, steps) && states[0] == s
    ensures forall k | 0 <= k < |steps| :: steps[k].Probe? || steps[k].Sweep? || steps[k].Tick?
    ensures Shaped(cfg, states[|steps|]) && states[|steps|].pool.circuits[w].Eligible()
    decreases |s.queue|, !s.pool.circuits[w].Probeable(s.now)
  {
    var step: Step;
    if s.queue != [] {
      step := PassNow(s);
      ShapedStep(cfg, s, step);
      var t := Do(cfg, s, step);
      if s.queue[0] == w {
        states, steps := [t], [];
      } else {
        states, steps := RecoveryIsPossible(cfg, t, w);
      }
    } else if s.pool.circuits[w].Probeable(s.now) {
      step := Sweep;
      ShapedStep(cfg, s, step);
      states, steps := StaleProbeReadmits(cfg, Do(cfg, s, step), w);
    } else {
      step := Tick(s.pool.circuits[w].openUntil.value);
      ShapedStep(cfg, s, step);
      states, steps := RecoveryIsPossible(cfg, Do(cfg, s, step), w);
    }
    RunCons(cfg, s, step, states, steps);
    states, steps := [s] + states, [step] + steps;
  }
}
