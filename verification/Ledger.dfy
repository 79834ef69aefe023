/** The counters and flags of the gateway against the actions that were taken: what happened is what was recorded. */
module Ledger {
  import opened Prelude
  import opened Circuit
  import opened WorkerPool
  import opened Stream
  import opened Gateway
  import opened GatewaySafety

  // ---------- counters ----------

  /** The step ends an attempt on w. */
  ghost predicate OnAttempt(s: Sys, r: nat, w: nat) {
    r < |s.requests| && s.requests[r].phase == Calling(w)
  }

  /** An attempt on w fails without an answer, or with a server error. */
  ghost predicate FailsAttempt(s: Sys, step: Step, w: nat, transport: bool) {
    step.AttemptFails? && OnAttempt(s, step.r, w) && (step.kind.TransportError? <==> transport)
  }

  ghost predicate AnswersAttempt(s: Sys, step: Step, w: nat) {
    step.AttemptAnswers? && OnAttempt(s, step.r, w)
  }

  ghost predicate BreaksStream(s: Sys, step: Step, w: nat) {
    step.ReportBreak? && step.r < |s.requests| && s.requests[step.r].phase.Severed? && s.requests[step.r].phase.worker == w
  }

  ghost predicate Probes(s: Sys, step: Step, w: nat, passes: bool) {
    step.Probe? && step.passes == passes && s.queue != [] && s.queue[0] == w
  }

  /** The event that a note reports. */
  ghost predicate Event(s: Sys, step: Step, w: nat, due: Due) {
    match due
    case TransportNote => FailsAttempt(s, step, w, true)
    case ServerNote => FailsAttempt(s, step, w, false)
    case SuccessNote => AnswersAttempt(s, step, w)
    case BreakNote => BreaksStream(s, step, w)
    case OpenStream => false
  }

  function Counter(t: Tally, due: Due): nat {
    match due
    case TransportNote => t.transport
    case ServerNote => t.serverError
    case SuccessNote => t.success
    case BreakNote => t.streamError
    case OpenStream => 0
  }

  /** How many of the first k steps are such an event on w. */
  ghost function Events(states: seq<Sys>, steps: seq<Step>, k: nat, w: nat, due: Due): nat
    requires |states| == |steps| + 1 && k <= |steps|
  {
    if k == 0 then 0
    else Events(states, steps, k - 1, w, due) + if Event(states[k - 1], steps[k - 1], w, due) then 1 else 0
  }

  /** A step's effect on one counter and on what its request still owes it. */
  lemma RequestNote(cfg: Config, s: Sys, step: Step, r: nat, w: nat, due: Due)
    requires Shaped(cfg, s) && Enabled(s, step) && w < cfg.workers && ActsOn(step, r) && !due.OpenStream?
    ensures var after := Do(cfg, s, step);
            && r < |s.requests| == |after.requests| && after.requests == s.requests[r := after.requests[r]]
            && Counter(after.tally[w], due) + Share(after.requests[r], w, due) ==
               Counter(s.tally[w], due) + Share(s.requests[r], w, due) + if Event(s, step, w, due) then 1 else 0
  {
    hide Apply, Mask, Candidates, Choice, Bytes, FinalCode, StatusOf, Decimal;
  }

  lemma OtherNote(cfg: Config, s: Sys, step: Step, w: nat, due: Due)
    requires Shaped(cfg, s) && Enabled(s, step) && w < cfg.workers && !due.OpenStream?
    requires step.Arrive? || step.Sweep? || step.Probe? || step.Tick?
    ensures Counter(Do(cfg, s, step).tally[w], due) == Counter(s.tally[w], due) && !Event(s, step, w, due)
    ensures Total(Do(cfg, s, step).requests, w, due) == Total(s.requests, w, due)
  {
    TotalArrival(s.requests, w, due);
    hide Apply, Candidates, Total;
  }

  /** Every action keeps each counter, together with the notes still owed, in step with its events. */
  lemma NoteStep(cfg: Config, s: Sys, step: Step, w: nat, due: Due)
    requires Shaped(cfg, s) && Enabled(s, step) && w < cfg.workers && !due.OpenStream?
    ensures var after := Do(cfg, s, step);
            |after.tally| == cfg.workers &&
            Counter(after.tally[w], due) + Total(after.requests, w, due) ==
            Counter(s.tally[w], due) + Total(s.requests, w, due) + if Event(s, step, w, due) then 1 else 0
  {
    ShapedStep(cfg, s, step);
    if step.Arrive? || step.Sweep? || step.Probe? || step.Tick? {
      OtherNote(cfg, s, step, w, due);
    } else {
      RequestNote(cfg, s, step, step.r, w, due);
      var after := Do(cfg, s, step);
      hide Do, Counter, Share, Event;
      TotalUpdate(s.requests, step.r, after.requests[step.r], w, due);
    }
  }

  lemma {:induction false} NotesAreEvents(cfg: Config, states: seq<Sys>, steps: seq<Step>, k: nat, w: nat, due: Due)
    requires Behaviour(cfg, states, steps) && k < |states| && w < cfg.workers && !due.OpenStream?
    ensures |states[k].tally| == cfg.workers
    ensures Counter(states[k].tally[w], due) + Total(states[k].requests, w, due) == Events(states, steps, k, w, due)
  {
    if k > 0 {
      hide Counter, Total, Event;
      NotesAreEvents(cfg, states, steps, k - 1, w, due);
      assert StepAt(cfg, states, steps, k - 1);
      assert states[k] == Do(cfg, states[k - 1], steps[k - 1]);
      hide Do, Enabled, Shaped;
      NoteStep(cfg, states[k - 1], steps[k - 1], w, due);
    }
  }

  /** How many of the first k steps are a probe of w with that verdict. */
  ghost function ProbesOf(states: seq<Sys>, steps: seq<Step>, k: nat, w: nat, passes: bool): nat
    requires |states| == |steps| + 1 && k <= |steps|
  {
    if k == 0 then 0
    else ProbesOf(states, steps, k - 1, w, passes) + if Probes(states[k - 1], steps[k - 1], w, passes) then 1 else 0
  }

  lemma ProbeStep(cfg: Config, s: Sys, step: Step, w: nat)
    requires Shaped(cfg, s) && Enabled(s, step) && w < cfg.workers && |Do(cfg, s, step).tally| == cfg.workers
    ensures var t, u := s.tally[w], Do(cfg, s, step).tally[w];
            && u.probePassed == t.probePassed + (if Probes(s, step, w, true) then 1 else 0)
            && u.probeFailed == t.probeFailed + (if Probes(s, step, w, false) then 1 else 0)
  {
    hide Apply, Mask, Candidates, Choice, Bytes, AfterRelay, AfterObserve, AfterGivingUp;
  }

  lemma {:induction false} ProbesAreCounted(cfg: Config, states: seq<Sys>, steps: seq<Step>, k: nat, w: nat)
    requires Behaviour(cfg, states, steps) && k < |states| && w < cfg.workers
    ensures |states[k].tally| == cfg.workers
    ensures states[k].tally[w].probePassed == ProbesOf(states, steps, k, w, true)
    ensures states[k].tally[w].probeFailed == ProbesOf(states, steps, k, w, false)
  {
    if k > 0 {
      hide Probes;
      ProbesAreCounted(cfg, states, steps, k - 1, w);
      assert StepAt(cfg, states, steps, k - 1);
      ShapedStep(cfg, states[k - 1], steps[k - 1]);
      ProbeStep(cfg, states[k - 1], steps[k - 1], w);
    }
  }

  /**
   Conservation over whole runs, worker by worker. Whenever no request is mid-note: transport_error
   counts the attempts that failed without an answer, 5xx those answered with a server error, success
   those answered below 500, stream_error the streams reported as broken; every finished attempt is one
   of the first three; `ReportFailure` was called once per transport_error, 5xx, stream_error and failed
   probe; `ReportSuccess` once per success and passed probe. At every instant no more streams broke or
   completed than successes were observed.
   */
  lemma Conservation(cfg: Config, states: seq<Sys>, steps: seq<Step>, k: nat, w: nat)
    requires Behaviour(cfg, states, steps) && k < |states| && w < cfg.workers
    ensures |states[k].tally| == |states[k].log| == cfg.workers
    ensures states[k].tally[w].complete + states[k].tally[w].streamError <= states[k].tally[w].success
    ensures states[k].tally[w].probePassed == ProbesOf(states, steps, k, w, true)
    ensures states[k].tally[w].probeFailed == ProbesOf(states, steps, k, w, false)
    ensures Quiet(states[k].requests) ==>
              var t, log := states[k].tally[w], states[k].log[w];
              && t.transport == Events(states, steps, k, w, TransportNote)
              && t.serverError == Events(states, steps, k, w, ServerNote)
              && t.success == Events(states, steps, k, w, SuccessNote)
              && t.streamError == Events(states, steps, k, w, BreakNote)
              && t.finished == t.transport + t.serverError + t.success
              && Failures(log) == t.transport + t.serverError + t.streamError + t.probeFailed
              && Successes(log) == t.success + t.probePassed
  {
    BooksBalance(cfg, states, steps, k, w);
    ProbesAreCounted(cfg, states, steps, k, w);
    NotesAreEvents(cfg, states, steps, k, w, TransportNote);
    NotesAreEvents(cfg, states, steps, k, w, ServerNote);
    NotesAreEvents(cfg, states, steps, k, w, SuccessNote);
    NotesAreEvents(cfg, states, steps, k, w, BreakNote);
    hide Events, ProbesOf, Balanced, Total;
    if Quiet(states[k].requests) {
      QuietOwesNothing(states[k].requests, w);
    }
  }

  /** A listed worker stays on the list until it is probed. */
  lemma {:induction false} ListedUntilProbed(cfg: Config, states: seq<Sys>, steps: seq<Step>, a: nat, k: nat, w: nat)
    requires Run(cfg, states, steps) && a <= k < |states| && w in states[a].queue
    requires forall j: nat | a <= j < k :: steps[j] != Sweep
    ensures w in states[k].queue || exists j: nat | a <= j < k :: exists p :: Probes(states[j], steps[j], w, p)
    decreases k - a
  {
    if a < k {
      ListedUntilProbed(cfg, states, steps, a, k - 1, w);
      if w in states[k - 1].queue {
        assert StepAt(cfg, states, steps, k - 1);
        StillListed(cfg, states[k - 1], steps[k - 1], w);
      }
    }
  }

  lemma StillListed(cfg: Config, s: Sys, step: Step, w: nat)
    requires Shaped(cfg, s) && Enabled(s, step) && w in s.queue && step != Sweep
    ensures w in Do(cfg, s, step).queue || exists p :: Probes(s, step, w, p)
  {
    hide Apply, Mask, Count, Choice, Candidates, AfterRelay, AfterObserve, AfterGivingUp;
    if step.Probe? {
      assert Probes(s, step, s.queue[0], step.passes);
      assert s.queue == [s.queue[0]] + s.queue[1..];
    }
  }

  /** Sweeps do not overlap: between one sweep and the next, every worker that the first one listed was probed. */
  lemma SweepsAreComplete(cfg: Config, states: seq<Sys>, steps: seq<Step>, a: nat, b: nat, w: nat)
    requires Run(cfg, states, steps) && a < b < |steps| && steps[a] == Sweep && steps[b] == Sweep
    requires forall j: nat | a < j < b :: steps[j] != Sweep
    requires w in states[a + 1].queue
    ensures exists j: nat | a < j < b :: exists p :: Probes(states[j], steps[j], w, p)
  {
    ListedUntilProbed(cfg, states, steps, a + 1, b, w);
    assert StepAt(cfg, states, steps, b);
  }

  // ---------- deadlines ----------

  /** The latest of the first k steps that failed an attempt of request r. */
  ghost function LatestFailure(steps: seq<Step>, k: nat, r: nat): Option<Step>
    requires k <= |steps|
  {
    if k == 0 then None
    else if steps[k - 1].AttemptFails? && steps[k - 1].r == r then Some(steps[k - 1])
    else LatestFailure(steps, k - 1, r)
  }

  /** The latest failed attempt of request r ran into the deadline before any answer arrived. */
  ghost predicate LatestHitDeadline(steps: seq<Step>, k: nat, r: nat)
    requires k <= |steps|
  {
    var latest := LatestFailure(steps, k, r);
    latest.Some? && latest.value.AttemptFails? && latest.value.kind.TransportError? && latest.value.deadline
  }

  ghost predicate HasExpired(steps: seq<Step>, k: nat, r: nat)
    requires k <= |steps|
  {
    exists j | 0 <= j < k :: steps[j] == Expire(r)
  }

  lemma FlagsStep(cfg: Config, s: Sys, step: Step, r: nat)
    requires Shaped(cfg, s) && Enabled(s, step) && r < |Do(cfg, s, step).requests|
    ensures var q, p := if r < |s.requests| then s.requests[r] else FRESH, Do(cfg, s, step).requests[r];
            && (p.lastWasDeadline <==> if step.AttemptFails? && step.r == r then step.kind.TransportError? && step.deadline
                                       else q.lastWasDeadline)
            && (p.expired <==> q.expired || step == Expire(r))
    ensures r >= |s.requests| ==> !ActsOn(step, r)
  {
    hide Apply, Mask, Count, Candidates, Choice, Bytes, FinalCode, StatusOf, Decimal;
    if !ActsOn(step, r) {
      OtherRequestsStay(cfg, s, step, r);
    }
  }

  ghost predicate FlagsMatch(states: seq<Sys>, steps: seq<Step>, k: nat, r: nat)
    requires k < |states| && k <= |steps|
  {
    if r < |states[k].requests| then
      && (states[k].requests[r].lastWasDeadline <==> LatestHitDeadline(steps, k, r))
      && (states[k].requests[r].expired <==> HasExpired(steps, k, r))
    else
      !LatestHitDeadline(steps, k, r) && !HasExpired(steps, k, r)
  }

  lemma {:induction false} FlagsHold(cfg: Config, states: seq<Sys>, steps: seq<Step>, k: nat, r: nat)
    requires Behaviour(cfg, states, steps) && k < |states|
    ensures FlagsMatch(states, steps, k, r)
  {
    if k > 0 {
      FlagsHold(cfg, states, steps, k - 1, r);
      assert StepAt(cfg, states, steps, k - 1);
      RequestsOnlyGrow(cfg, states[k - 1], steps[k - 1]);
      if r < |states[k].requests| {
        FlagsStep(cfg, states[k - 1], steps[k - 1], r);
      }
      hide Do;
    }
  }

  /**
   Which error a request ends with, told by what happened. A finished request was refused with 503 if
   nobody was tried; otherwise with 504 if its latest failed attempt ran into the deadline or the
   deadline had passed, and with 502 if neither; and it was relayed a status below 500 if it was served.
   */
  lemma ErrorsAreExplained(cfg: Config, states: seq<Sys>, steps: seq<Step>, k: nat, r: nat)
    requires Behaviour(cfg, states, steps) && k < |states| && r < |states[k].requests|
    requires states[k].requests[r].phase.Done?
    ensures var q := states[k].requests[r];
            && |q.statuses| == 1
            && (q.reply.Relayed? ==> q.statuses[0] < 500)
            && (q.reply.Refused? ==>
                  && (q.statuses[0] == 503 <==> q.tried == [])
                  && (q.statuses[0] == 504 <==> q.tried != [] && (LatestHitDeadline(steps, k, r) || HasExpired(steps, k, r)))
                  && (q.statuses[0] == 502 <==> q.tried != [] && !LatestHitDeadline(steps, k, r) && !HasExpired(steps, k, r)))
  {
    FinishedRequestsSettled(cfg, states, steps, k, r);
    FlagsHold(cfg, states, steps, k, r);
    hide LatestHitDeadline, HasExpired;
  }
}
