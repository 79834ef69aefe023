/** No request of the running gateway is ever stuck, and each takes a bounded number of actions of its own. */
module Progress {
  import opened Prelude
  import opened Circuit
  import opened WorkerPool
  import opened Stream
  import opened Gateway
  import opened GatewaySafety

  /** An action taken by request r itself; the passing of its deadline is not one. */
  ghost predicate Own(step: Step, r: nat) {
    ActsOn(step, r) && !step.Expire?
  }

  ghost function OwnSteps(steps: seq<Step>, r: nat): nat {
    if steps == [] then 0
    else OwnSteps(steps[..|steps| - 1], r) + if Own(steps[|steps| - 1], r) then 1 else 0
  }

  /** How many reads a body takes. */
  function Reads(u: Upstream): (n: nat)
    ensures n > 0
  {
    match u
    case More(_, rest) => 1 + Reads(rest)
    case Last(_, _) => 1
  }

  /** How far a request has come after n actions of its own. */
  ghost predicate Pace(q: Request, n: nat) {
    var tries := 3 * |q.tried|;
    match q.phase
    case Choosing => n == tries
    case Calling(_) => n + 2 == tries
    case Noting(_, _) => n + 1 == tries
    case Answering(_, _, _) => n + 1 == tries
    case GivingUp => n == tries + 1
    case Relaying(_, rest) => q.reply.Relayed? && n + Reads(rest) == tries + Reads(q.reply.body)
    case Severed(_, _) => q.reply.Relayed? && n <= tries + Reads(q.reply.body)
    case NotingBreak(_) => q.reply.Relayed? && n <= tries + Reads(q.reply.body) + 1
    case Done =>
      match q.reply
      case Nothing => false
      case Relayed(_, _, _, body) => n <= tries + Reads(body) + 2
      case Refused(_) => n == tries + 2
  }

  lemma PaceRelay(q: Request, cut: Option<Cut>, n: nat)
    requires Pace(q, n) && q.phase.Relaying?
    ensures Pace(AfterRelay(q, cut), n + 1)
  {
  }

  /** What the other actions make of the pace, whatever they do to the pool. */
  lemma PaceUpdates(q: Request, n: nat)
    requires Pace(q, n)
    ensures q.phase.Choosing? ==> Pace(q.(phase := GivingUp), n + 1)
    ensures q.phase.Choosing? ==> forall w :: Pace(q.(phase := Calling(w), tried := q.tried + [w]), n + 1)
    ensures q.phase.Calling? ==>
              forall kind, deadline :: Pace(q.(phase := Noting(q.phase.worker, kind), lastWasDeadline := deadline), n + 1)
    ensures q.phase.Calling? ==> forall status, body :: Pace(q.(phase := Answering(q.phase.worker, status, body)), n + 1)
    ensures q.phase.Noting? || q.phase.Answering? || q.phase.NotingBreak? ==> Pace(AfterObserve(q), n + 1)
    ensures q.phase.Severed? ==> Pace(q.(phase := NotingBreak(q.phase.worker)), n + 1)
    ensures q.phase.GivingUp? ==> Pace(AfterGivingUp(q), n + 1)
    ensures Pace(q.(expired := true), n)
  {
    hide Reads, FinalCode, StatusOf;
  }

  lemma ActedPace(cfg: Config, s: Sys, step: Step, r: nat, n: nat)
    requires Shaped(cfg, s) && Enabled(s, step) && r < |s.requests| && Pace(s.requests[r], n) && ActsOn(step, r)
    ensures r < |Do(cfg, s, step).requests|
    ensures Pace(Do(cfg, s, step).requests[r], n + if Own(step, r) then 1 else 0)
  {
    PaceUpdates(s.requests[r], n);
    if step.Relay? {
      PaceRelay(s.requests[r], step.cut, n);
    }
    hide Pace, Apply, Mask, Count, Candidates, Choice, AfterRelay, AfterObserve, AfterGivingUp;
  }

  lemma PaceStep(cfg: Config, s: Sys, step: Step, r: nat, n: nat)
    requires Shaped(cfg, s) && Enabled(s, step) && r < |s.requests| && Pace(s.requests[r], n)
    ensures r < |Do(cfg, s, step).requests|
    ensures Pace(Do(cfg, s, step).requests[r], n + if Own(step, r) then 1 else 0)
  {
    if ActsOn(step, r) {
      ActedPace(cfg, s, step, r, n);
    } else {
      RequestsOnlyGrow(cfg, s, step);
      hide Do, Pace;
      OtherRequestsStay(cfg, s, step, r);
    }
  }

  /** Where request r is after the first k steps of an execution. */
  ghost predicate OnPace(states: seq<Sys>, steps: seq<Step>, k: nat, r: nat)
    requires k < |states| && k <= |steps|
  {
    if r < |states[k].requests| then Pace(states[k].requests[r], OwnSteps(steps[..k], r))
    else OwnSteps(steps[..k], r) == 0
  }

  lemma {:induction false} PaceHolds(cfg: Config, states: seq<Sys>, steps: seq<Step>, k: nat, r: nat)
    requires Behaviour(cfg, states, steps) && k < |states|
    ensures OnPace(states, steps, k, r)
  {
    if k > 0 {
      PaceHolds(cfg, states, steps, k - 1, r);
      assert StepAt(cfg, states, steps, k - 1);
      assert steps[..k][..k - 1] == steps[..k - 1];
      if r < |states[k - 1].requests| {
        PaceStep(cfg, states[k - 1], steps[k - 1], r, OwnSteps(steps[..k - 1], r));
        hide Pace;
      } else {
        Untouched(cfg, states[k - 1], steps[k - 1], r);
      }
    }
  }

  lemma Untouched(cfg: Config, s: Sys, step: Step, r: nat)
    requires Shaped(cfg, s) && Enabled(s, step) && r >= |s.requests|
    ensures !Own(step, r)
    ensures r < |Do(cfg, s, step).requests| ==> Do(cfg, s, step).requests[r] == FRESH
  {
    hide Apply, Mask, Count, Candidates, Choice, Bytes;
    if r < |Do(cfg, s, step).requests| {
      OtherRequestsStay(cfg, s, step, r);
    }
  }

  /**
   Bounded work: under every interleaving a request takes at most three actions for each worker it
   tries, of which there are at most min(maxAttempts, workers), one for each read of the body it
   relays, and two more.
   */
  lemma RequestIsBounded(cfg: Config, states: seq<Sys>, steps: seq<Step>, k: nat, r: nat)
    requires Behaviour(cfg, states, steps) && k < |states| && r < |states[k].requests|
    ensures var q := states[k].requests[r];
            && OwnSteps(steps[..k], r) <= 3 * |q.tried| + 2 + (if q.reply.Relayed? then Reads(q.reply.body) else 0)
            && |q.tried| <= cfg.maxAttempts && |q.tried| <= cfg.workers
  {
    PaceHolds(cfg, states, steps, k, r);
    RetryDiscipline(cfg, states, steps, k, r);
  }

  /** Never stuck: a request that is not done always has an action it can take. */
  lemma RequestCanAct(cfg: Config, s: Sys, r: nat) returns (step: Step)
    requires Shaped(cfg, s) && r < |s.requests| && !s.requests[r].phase.Done?
    ensures Enabled(s, step) && Own(step, r)
  {
    match s.requests[r].phase
    case Choosing => step := Choose(r);
    case Calling(_) => step := AttemptFails(r, TransportError, false, "", s.now, s.now);
    case Noting(_, _) => step := Observe(r);
    case Answering(_, _, _) => step := Observe(r);
    case Relaying(_, _) => step := Relay(r, None);
    case Severed(_, _) => step := ReportBreak(r, s.now, s.now);
    case NotingBreak(_) => step := Observe(r);
    case GivingUp => step := GiveUp(r);
  }
}
