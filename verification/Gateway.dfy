/**
 The running gateway as a state machine: any number of in-flight requests, one health prober
 holding a possibly stale candidate list, and the clock, interleaved arbitrarily. A step is one
 action that is atomic in the source: a pool operation under its mutex, one metric update, one
 iteration of the relay loop.
 */
module Gateway {
  import opened Prelude
  import opened Circuit
  import opened WorkerPool
  import opened Stream

  datatype Config = Config(workers: nat, settings: Settings, maxAttempts: nat) {
    predicate WellFormed() {
      workers > 0 && settings.Positive() && maxAttempts > 0
    }
  }

  datatype FailureKind = TransportError | ServerError(status: nat)

  /** Where a request stands in the attempt loop. */
  datatype Phase =
    | Choosing
    | Calling(worker: nat)
    | Noting(worker: nat, kind: FailureKind)
    | Answering(worker: nat, status: nat, body: Upstream)
    | Relaying(worker: nat, rest: Upstream)
    | Severed(worker: nat, reason: string)
    | NotingBreak(worker: nat)
    | GivingUp
    | Done

  datatype ErrorCode = NoHealthyWorker | RequestTimeout | UpstreamFailure

  function StatusOf(code: ErrorCode): nat {
    match code
    case NoHealthyWorker => 503
    case RequestTimeout => 504
    case UpstreamFailure => 502
  }

  /** What the client is told: which worker's response is relayed, or which error. */
  datatype Reply =
    | Nothing
    | Relayed(status: nat, worker: nat, attempts: nat, body: Upstream)
    | Refused(code: ErrorCode)

  /** One request; `statuses` lists every status line written to its client, `sent` every body byte relayed. */
  datatype Request = Request(
    phase: Phase, attempt: nat, tried: seq<nat>, lastWasDeadline: bool, expired: bool,
    statuses: seq<nat>, reply: Reply, sent: seq<byte>, broken: bool)

  const FRESH := Request(Choosing, 1, [], false, false, [], Nothing, [], false)

  /** The observer's counters for one worker. */
  datatype Tally = Tally(
    finished: nat, transport: nat, serverError: nat, success: nat, streamError: nat,
    complete: nat, probePassed: nat, probeFailed: nat)

  const NO_TALLY := Tally(0, 0, 0, 0, 0, 0, 0, 0)

  datatype Sys = Sys(
    now: Time, pool: PoolState, requests: seq<Request>, queue: seq<nat>,
    log: seq<seq<Report>>, tally: seq<Tally>)

  /** Workers start unhealthy with no circuit, so no traffic precedes the first good report. */
  function Start(cfg: Config, now: Time): Sys {
    var n := cfg.workers;
    Sys(now, PoolState(seq(n, i => INITIAL), 0), [], [], seq(n, i => []), seq(n, i => NO_TALLY))
  }

  /** A failing client write: how many bytes it still accepts, and why it fails. */
  datatype Cut = Cut(accepted: nat, reason: string)

  datatype Step =
    | Arrive
    | Choose(r: nat)
    | AttemptFails(r: nat, kind: FailureKind, deadline: bool, message: string, at: Time, openedAt: Time)
    | AttemptAnswers(r: nat, status: nat, body: Upstream, at: Time)
    | Observe(r: nat)
    | Relay(r: nat, cut: Option<Cut>)
    | ReportBreak(r: nat, at: Time, openedAt: Time)
    | GiveUp(r: nat)
    | Expire(r: nat)
    | Sweep
    | Probe(passes: bool, message: string, at: Time, openedAt: Time)
    | Tick(until: Time)

  ghost predicate Shaped(cfg: Config, s: Sys) {
    && cfg.WellFormed()
    && s.pool.Shaped(cfg.workers)
    && |s.log| == cfg.workers && |s.tally| == cfg.workers
    && (forall k | 0 <= k < |s.queue| :: s.queue[k] < cfg.workers)
    && (forall r | 0 <= r < |s.requests| :: PhaseInRange(cfg, s.requests[r].phase))
  }

  predicate PhaseInRange(cfg: Config, p: Phase) {
    match p
    case Choosing => true
    case GivingUp => true
    case Done => true
    case Calling(w) => w < cfg.workers
    case Noting(w, _) => w < cfg.workers
    case Answering(w, _, _) => w < cfg.workers
    case Relaying(w, _) => w < cfg.workers
    case Severed(w, _) => w < cfg.workers
    case NotingBreak(w) => w < cfg.workers
  }

  /** When a step may happen. Clock readings never run backwards. */
  ghost predicate Enabled(s: Sys, step: Step) {
    match step
    case Arrive => true
    case Choose(r) => r < |s.requests| && s.requests[r].phase.Choosing?
    case AttemptFails(r, kind, _, message, at, openedAt) =>
      && r < |s.requests| && s.requests[r].phase.Calling? && s.now <= at <= openedAt
      && (kind.ServerError? ==> kind.status >= 500 && message == "upstream status " + Decimal(kind.status))
    case AttemptAnswers(r, status, _, at) =>
      r < |s.requests| && s.requests[r].phase.Calling? && status < 500 && s.now <= at
    case Observe(r) =>
      r < |s.requests| && (s.requests[r].phase.Noting? || s.requests[r].phase.Answering? || s.requests[r].phase.NotingBreak?)
    case Relay(r, _) => r < |s.requests| && s.requests[r].phase.Relaying?
    case ReportBreak(r, at, openedAt) =>
      r < |s.requests| && s.requests[r].phase.Severed? && s.now <= at <= openedAt
    case GiveUp(r) => r < |s.requests| && s.requests[r].phase.GivingUp?
    case Expire(r) => r < |s.requests| && !s.requests[r].phase.Done?
    case Sweep => s.queue == []
    case Probe(_, _, at, openedAt) => s.queue != [] && s.now <= at <= openedAt
    case Tick(until) => s.now <= until
  }

  function WithReport(cfg: Config, s: Sys, w: nat, r: Report, now: Time): Sys
    requires w < |s.pool.circuits| && w < |s.log|
  {
    s.(now := now, pool := Reported(cfg.settings, s.pool, w, r), log := s.log[w := s.log[w] + [r]])
  }

  /** The loop head: ask for a worker not tried yet, or give up when attempts or workers run out. */
  function ChooseStep(cfg: Config, s: Sys, r: nat): Sys
    requires r < |s.requests| && s.pool.next < |s.pool.circuits|
  {
    var q := s.requests[r];
    if q.attempt > cfg.maxAttempts then s.(requests := s.requests[r := q.(phase := GivingUp)])
    else
      var excluded := set x | x in q.tried;
      match Choice(s.pool, excluded)
      case None => s.(requests := s.requests[r := q.(phase := GivingUp)])
      case Some(w) =>
        s.(pool := Advance(s.pool, excluded),
           requests := s.requests[r := q.(phase := Calling(w), tried := q.tried + [w])])
  }

  function AfterObserve(q: Request): Request {
    match q.phase
    case Noting(_, _) => q.(phase := Choosing, attempt := q.attempt + 1)
    case Answering(w, status, body) =>
      q.(phase := Relaying(w, body), statuses := q.statuses + [status],
         reply := Relayed(status, w, q.attempt, body))
    case _ => q.(phase := Done)
  }

  function Count(t: Tally, p: Phase): Tally {
    match p
    case Noting(_, TransportError) => t.(transport := t.transport + 1)
    case Noting(_, ServerError(_)) => t.(serverError := t.serverError + 1)
    case Answering(_, _, _) => t.(success := t.success + 1)
    case _ => t.(streamError := t.streamError + 1)
  }

  /** One iteration of the relay loop; `cut` says whether a write fails in it. */
  function AfterRelay(q: Request, cut: Option<Cut>): Request
    requires q.phase.Relaying?
  {
    var w, chunk := q.phase.worker, q.phase.rest.chunk;
    if chunk != [] && cut.Some? then
      q.(sent := q.sent + chunk[..if cut.value.accepted < |chunk| then cut.value.accepted else |chunk|],
         phase := Severed(w, "write downstream response: " + cut.value.reason), broken := true)
    else
      var forwarded := q.(sent := q.sent + chunk);
      match q.phase.rest
      case More(_, rest) => forwarded.(phase := Relaying(w, rest))
      case Last(_, EndOfFile) => forwarded.(phase := Done)
      case Last(_, Lost(reason)) => forwarded.(phase := Severed(w, "read upstream response: " + reason), broken := true)
  }

  function FinalCode(q: Request): ErrorCode {
    if q.tried == [] then NoHealthyWorker
    else if q.lastWasDeadline || q.expired then RequestTimeout
    else UpstreamFailure
  }

  function AfterGivingUp(q: Request): Request {
    q.(phase := Done, statuses := q.statuses + [StatusOf(FinalCode(q))], reply := Refused(FinalCode(q)))
  }

  ghost function Do(cfg: Config, s: Sys, step: Step): Sys
    requires Shaped(cfg, s) && Enabled(s, step)
  {
    match step
    case Arrive => s.(requests := s.requests + [FRESH])
    case Choose(r) => ChooseStep(cfg, s, r)
    case AttemptFails(r, kind, deadline, message, at, openedAt) =>
      var q := s.requests[r];
      var w := q.phase.worker;
      WithReport(cfg, s, w, Failure(at, openedAt, Some(message)), openedAt).(
        requests := s.requests[r := q.(phase := Noting(w, kind), lastWasDeadline := kind.TransportError? && deadline)],
        tally := s.tally[w := s.tally[w].(finished := s.tally[w].finished + 1)])
    case AttemptAnswers(r, status, body, at) =>
      var q := s.requests[r];
      var w := q.phase.worker;
      WithReport(cfg, s, w, Success(at), at).(
        requests := s.requests[r := q.(phase := Answering(w, status, body))],
        tally := s.tally[w := s.tally[w].(finished := s.tally[w].finished + 1)])
    case Observe(r) =>
      var q := s.requests[r];
      var w := q.phase.worker;
      s.(requests := s.requests[r := AfterObserve(q)], tally := s.tally[w := Count(s.tally[w], q.phase)])
    case Relay(r, cut) =>
      var q := s.requests[r];
      var w := q.phase.worker;
      var after := AfterRelay(q, cut);
      s.(requests := s.requests[r := after],
         tally := if after.phase.Done? then s.tally[w := s.tally[w].(complete := s.tally[w].complete + 1)] else s.tally)
    case ReportBreak(r, at, openedAt) =>
      var q := s.requests[r];
      var w := q.phase.worker;
      WithReport(cfg, s, w, Failure(at, openedAt, Some(q.phase.reason)), openedAt).(
        requests := s.requests[r := q.(phase := NotingBreak(w))])
    case GiveUp(r) => s.(requests := s.requests[r := AfterGivingUp(s.requests[r])])
    case Expire(r) => s.(requests := s.requests[r := s.requests[r].(expired := true)])
    case Sweep => s.(queue := Candidates(s.pool.circuits, s.now))
    case Probe(passes, message, at, openedAt) =>
      var w := s.queue[0];
      var t := s.tally[w];
      (if passes then WithReport(cfg, s, w, Success(at), at)
       else WithReport(cfg, s, w, Failure(at, openedAt, Some(message)), openedAt)).(
        queue := s.queue[1..],
        tally := s.tally[w := if passes then t.(probePassed := t.probePassed + 1) else t.(probeFailed := t.probeFailed + 1)])
    case Tick(until) => s.(now := until)
  }

  lemma ShapedStep(cfg: Config, s: Sys, step: Step)
    requires Shaped(cfg, s) && Enabled(s, step)
    ensures Shaped(cfg, Do(cfg, s, step))
    ensures Do(cfg, s, step).now >= s.now
  {
    hide Apply, Candidates, Choice, Mask, Count, FinalCode, Bytes;
  }

  ghost predicate StepAt(cfg: Config, states: seq<Sys>, steps: seq<Step>, i: nat)
    requires i < |steps| && i + 1 < |states|
  {
    Shaped(cfg, states[i]) && Enabled(states[i], steps[i]) && states[i + 1] == Do(cfg, states[i], steps[i])
  }

  /** An execution: consecutive states linked by enabled steps. */
  ghost predicate Run(cfg: Config, states: seq<Sys>, steps: seq<Step>) {
    && |states| == |steps| + 1
    && Shaped(cfg, states[0])
    && forall i: nat | i < |steps| :: StepAt(cfg, states, steps, i)
  }

  /** An execution from the start of the process. */
  ghost predicate Behaviour(cfg: Config, states: seq<Sys>, steps: seq<Step>) {
    Run(cfg, states, steps) && states[0] == Start(cfg, states[0].now)
  }
}
