/** What every reachable state of the gateway satisfies, under every interleaving. */
module GatewaySafety {
  import opened Prelude
  import opened Circuit
  import opened Rotation
  import opened RoundRobin
  import opened WorkerPool
  import opened Stream
  import opened Gateway

  // ---------- circuits follow their logs ----------

  ghost predicate CircuitsFollowLogs(cfg: Config, s: Sys) {
    && Shaped(cfg, s)
    && forall w | 0 <= w < cfg.workers :: s.pool.circuits[w] == Replay(cfg.settings, s.log[w])
  }

  lemma LogStep(cfg: Config, s: Sys, step: Step)
    requires CircuitsFollowLogs(cfg, s) && Enabled(s, step)
    ensures CircuitsFollowLogs(cfg, Do(cfg, s, step))
  {
    ShapedStep(cfg, s, step);
    forall w: nat, r: Report | w < cfg.workers
      ensures Replay(cfg.settings, s.log[w] + [r]) == Apply(cfg.settings, s.pool.circuits[w], r)
    {
      ReplayExtends(cfg.settings, s.log[w], r);
    }
  }

  lemma {:induction false} LogsHold(cfg: Config, states: seq<Sys>, steps: seq<Step>, i: nat)
    requires Behaviour(cfg, states, steps) && i < |states|
    ensures CircuitsFollowLogs(cfg, states[i])
  {
    if i > 0 {
      LogsHold(cfg, states, steps, i - 1);
      assert StepAt(cfg, states, steps, i - 1);
      LogStep(cfg, states[i - 1], steps[i - 1]);
    }
  }

  /** In every reachable state each circuit is the function of its log that `LogDeterminesState` spells out. */
  lemma ReachableCircuits(cfg: Config, states: seq<Sys>, steps: seq<Step>, i: nat, w: nat)
    requires Behaviour(cfg, states, steps) && i < |states| && w < cfg.workers
    ensures CircuitsFollowLogs(cfg, states[i])
    ensures var c, log := states[i].pool.circuits[w], states[i].log[w];
            && FailureRun(log, c.failures)
            && (c.healthy <==> EverSucceeded(log) && c.failures < cfg.settings.threshold)
            && (c.openUntil.Some? <==> c.failures >= cfg.settings.threshold)
            && (c.openUntil.Some? ==> c.openUntil.value == log[|log| - 1].openedAt + cfg.settings.cooldown)
            && (c.Eligible() <==> c.State(states[i].now) == Closed)
            && (c.Probeable(states[i].now) <==> c.State(states[i].now) != Open)
  {
    LogsHold(cfg, states, steps, i);
    LogDeterminesState(cfg.settings, states[i].log[w]);
    ViewsAgree(cfg.settings, states[i].log[w], states[i].now);
  }

  // ---------- one request: retry discipline, single commit, no splice ----------

  /** Distinct workers were tried, within both limits. */
  ghost predicate TriedWithinLimits(cfg: Config, q: Request) {
    && Distinct(q.tried)
    && (forall k | 0 <= k < |q.tried| :: q.tried[k] < cfg.workers)
    && |q.tried| <= cfg.maxAttempts
  }

  ghost predicate NothingSent(q: Request) {
    q.statuses == [] && q.reply == Nothing && q.sent == [] && !q.broken
  }

  /** Exactly one status line went out, for the last worker tried, with the number of tries as the attempt header. */
  ghost predicate CommittedOnce(q: Request) {
    && q.reply.Relayed?
    && q.statuses == [q.reply.status] && q.reply.status < 500
    && q.tried != [] && q.reply.worker == q.tried[|q.tried| - 1]
    && q.reply.attempts == |q.tried|
  }

  ghost predicate OnLastTried(q: Request, w: nat) {
    q.tried != [] && q.tried[|q.tried| - 1] == w && q.attempt == |q.tried|
  }

  ghost predicate RequestInv(cfg: Config, q: Request) {
    && TriedWithinLimits(cfg, q)
    && match q.phase
       case Choosing => NothingSent(q) && q.attempt == |q.tried| + 1
       case GivingUp => NothingSent(q) && q.attempt == |q.tried| + 1
       case Calling(w) => NothingSent(q) && OnLastTried(q, w)
       case Noting(w, _) => NothingSent(q) && OnLastTried(q, w)
       case Answering(w, status, _) => NothingSent(q) && OnLastTried(q, w) && status < 500
       case Relaying(w, rest) =>
         && CommittedOnce(q) && q.reply.worker == w && !q.broken
         && q.sent + Bytes(rest) == Bytes(q.reply.body) && Ends(rest) == Ends(q.reply.body)
       case Severed(w, _) => CommittedOnce(q) && q.reply.worker == w && q.broken && q.sent <= Bytes(q.reply.body)
       case NotingBreak(w) => CommittedOnce(q) && q.reply.worker == w && q.broken && q.sent <= Bytes(q.reply.body)
       case Done => Settled(q)
  }

  /**
   How a request ends. Either one worker's response was relayed: one status, a prefix of that
   worker's bytes, all of them when the copy reported no error. Or one error was written and no
   body byte was relayed: 503 exactly when no worker was tried, 504 exactly when one was and the
   last failure or the request itself hit the deadline, 502 in the other cases.
   */
  ghost predicate Settled(q: Request) {
    match q.reply
    case Nothing => false
    case Relayed(_, _, _, body) =>
      && CommittedOnce(q)
      && q.sent <= Bytes(body)
      && (!q.broken ==> q.sent == Bytes(body) && Ends(body) == EndOfFile)
    case Refused(code) =>
      && q.statuses == [StatusOf(code)] && q.sent == []
      && (q.statuses[0] == 503 <==> q.tried == [])
      && (q.statuses[0] == 504 <==> q.tried != [] && (q.lastWasDeadline || q.expired))
      && (q.statuses[0] == 502 <==> q.tried != [] && !q.lastWasDeadline && !q.expired)
  }

  ghost predicate RequestsInv(cfg: Config, s: Sys) {
    && Shaped(cfg, s)
    && forall r | 0 <= r < |s.requests| :: RequestInv(cfg, s.requests[r])
  }

  lemma ChooseKeepsRequest(cfg: Config, s: Sys, r: nat)
    requires RequestsInv(cfg, s) && Enabled(s, Choose(r))
    ensures RequestInv(cfg, Do(cfg, s, Choose(r)).requests[r])
  {
    var q := s.requests[r];
    assert forall x :: x in q.tried <==> x in set x | x in q.tried;
  }

  lemma ForwardChunk(sent: seq<byte>, chunk: seq<byte>, tail: seq<byte>, whole: seq<byte>)
    requires sent + (chunk + tail) == whole
    ensures (sent + chunk) + tail == whole
  {
  }

  lemma ForwardPart(sent: seq<byte>, chunk: seq<byte>, tail: seq<byte>, whole: seq<byte>, k: nat)
    requires sent + (chunk + tail) == whole && k <= |chunk|
    ensures sent + chunk[..k] <= whole
  {
    assert whole[..|sent| + k] == sent + chunk[..k];
  }

  /** The relayed bytes stay a prefix of the body, with the unread rest as the remainder. */
  lemma RelayKeepsBytes(q: Request, cut: Option<Cut>)
    requires q.phase.Relaying? && q.reply.Relayed?
    requires q.sent + Bytes(q.phase.rest) == Bytes(q.reply.body)
    ensures var after := AfterRelay(q, cut);
            && after.sent <= Bytes(q.reply.body)
            && (after.phase.Relaying? ==> after.sent + Bytes(after.phase.rest) == Bytes(q.reply.body))
            && (after.phase.Done? ==> after.sent == Bytes(q.reply.body))
  {
    var rest := q.phase.rest;
    var chunk, tail := rest.chunk, if rest.More? then Bytes(rest.rest) else [];
    assert Bytes(rest) == chunk + tail;
    hide Bytes;
    ForwardChunk(q.sent, chunk, tail, Bytes(q.reply.body));
    if chunk != [] && cut.Some? {
      ForwardPart(q.sent, chunk, tail, Bytes(q.reply.body), if cut.value.accepted < |chunk| then cut.value.accepted else |chunk|);
    } else if rest.Last? {
      assert (q.sent + chunk) + tail == q.sent + chunk;
    }
  }

  lemma RelayKeepsRequest(cfg: Config, q: Request, cut: Option<Cut>)
    requires RequestInv(cfg, q) && q.phase.Relaying?
    ensures RequestInv(cfg, AfterRelay(q, cut))
  {
    RelayKeepsBytes(q, cut);
    hide Bytes;
  }

  /** The request a step acts on, if it acts on one. */
  ghost predicate ActsOn(step: Step, r: nat) {
    match step
    case Arrive => false
    case Sweep => false
    case Probe(_, _, _, _) => false
    case Tick(_) => false
    case _ => step.r == r
  }

  lemma OtherRequestsStay(cfg: Config, s: Sys, step: Step, r: nat)
    requires Shaped(cfg, s) && Enabled(s, step) && r < |Do(cfg, s, step).requests|
    requires !ActsOn(step, r)
    ensures Do(cfg, s, step).requests[r] == if r < |s.requests| then s.requests[r] else FRESH
  {
    hide Apply, Candidates, Choice, Mask, Count, Bytes;
  }

  lemma RequestsOnlyGrow(cfg: Config, s: Sys, step: Step)
    requires Shaped(cfg, s) && Enabled(s, step)
    ensures |Do(cfg, s, step).requests| >= |s.requests|
  {
    hide Apply, Mask, Count, Candidates, Choice, AfterRelay, AfterObserve, AfterGivingUp;
  }

  lemma ObserveKeepsRequest(cfg: Config, q: Request)
    requires RequestInv(cfg, q) && (q.phase.Noting? || q.phase.Answering? || q.phase.NotingBreak?)
    ensures RequestInv(cfg, AfterObserve(q))
  {
    hide Distinct;
    assert q.phase.Answering? ==> [] + Bytes(q.phase.body) == Bytes(q.phase.body);
  }

  /** What the remaining steps make of a request, whatever they do to the pool. */
  lemma OtherUpdatesKeepRequest(cfg: Config, q: Request)
    requires RequestInv(cfg, q)
    ensures q.phase.Calling? ==>
              forall kind, deadline :: RequestInv(cfg, q.(phase := Noting(q.phase.worker, kind), lastWasDeadline := deadline))
    ensures q.phase.Calling? ==>
              forall status: nat, body | status < 500 :: RequestInv(cfg, q.(phase := Answering(q.phase.worker, status, body)))
    ensures q.phase.Severed? ==> RequestInv(cfg, q.(phase := NotingBreak(q.phase.worker)))
    ensures q.phase.GivingUp? ==> RequestInv(cfg, AfterGivingUp(q))
    ensures !q.phase.Done? ==> RequestInv(cfg, q.(expired := true))
  {
    hide Bytes, Distinct;
  }

  lemma ActedRequestKept(cfg: Config, s: Sys, step: Step, r: nat)
    requires RequestsInv(cfg, s) && Enabled(s, step) && ActsOn(step, r)
    ensures r < |s.requests| == |Do(cfg, s, step).requests|
    ensures RequestInv(cfg, Do(cfg, s, step).requests[r])
  {
    var q := s.requests[r];
    assert RequestInv(cfg, q);
    OtherUpdatesKeepRequest(cfg, q);
    match step
    case Choose(_) => ChooseKeepsRequest(cfg, s, r);
    case Relay(_, cut) => RelayKeepsRequest(cfg, q, cut);
    case Observe(_) => ObserveKeepsRequest(cfg, q);
    case _ =>
      hide RequestInv, Apply, Candidates, Choice, Mask, Count, Bytes;
  }

  lemma RequestsStep(cfg: Config, s: Sys, step: Step)
    requires RequestsInv(cfg, s) && Enabled(s, step)
    ensures RequestsInv(cfg, Do(cfg, s, step))
  {
    ShapedStep(cfg, s, step);
    assert RequestInv(cfg, FRESH);
    hide Do, RequestInv;
    forall r: nat | r < |Do(cfg, s, step).requests| ensures RequestInv(cfg, Do(cfg, s, step).requests[r]) {
      if ActsOn(step, r) {
        ActedRequestKept(cfg, s, step, r);
      } else {
        OtherRequestsStay(cfg, s, step, r);
      }
    }
  }

  lemma {:induction false} RequestsHold(cfg: Config, states: seq<Sys>, steps: seq<Step>, i: nat)
    requires Behaviour(cfg, states, steps) && i < |states|
    ensures RequestsInv(cfg, states[i])
  {
    if i > 0 {
      RequestsHold(cfg, states, steps, i - 1);
      assert StepAt(cfg, states, steps, i - 1);
      RequestsStep(cfg, states[i - 1], steps[i - 1]);
    }
  }

  /**
   Retry discipline under interference: the workers a request tries are pairwise distinct and at
   most min(maxAttempts, workers) many, and before anything is committed nothing reached the client.
   */
  lemma RetryDiscipline(cfg: Config, states: seq<Sys>, steps: seq<Step>, i: nat, r: nat)
    requires Behaviour(cfg, states, steps) && i < |states| && r < |states[i].requests|
    ensures var q := states[i].requests[r];
            && Distinct(q.tried) && |q.tried| <= cfg.maxAttempts && |q.tried| <= cfg.workers
            && (q.phase.Choosing? || q.phase.Calling? || q.phase.GivingUp? ==> NothingSent(q))
            && (q.reply.Relayed? ==> CommittedOnce(q))
            && |q.statuses| <= 1
  {
    RequestsHold(cfg, states, steps, i);
    assert RequestInv(cfg, states[i].requests[r]);
    DistinctBound(states[i].requests[r].tried, cfg.workers);
  }

  /** Single commit, no splice: a finished request is settled by exactly one response. */
  lemma FinishedRequestsSettled(cfg: Config, states: seq<Sys>, steps: seq<Step>, i: nat, r: nat)
    requires Behaviour(cfg, states, steps) && i < |states| && r < |states[i].requests|
    requires states[i].requests[r].phase.Done?
    ensures Settled(states[i].requests[r]) && |states[i].requests[r].statuses| == 1
  {
    RequestsHold(cfg, states, steps, i);
    assert RequestInv(cfg, states[i].requests[r]);
  }

  ghost predicate Committed(q: Request) {
    q.statuses != []
  }

  /** From p on, q keeps the status, the reply and the tries; its relayed bytes only grew. */
  ghost predicate Continues(p: Request, q: Request) {
    && q.statuses == p.statuses && q.reply == p.reply && q.tried == p.tried
    && p.sent <= q.sent
  }

  lemma CommittedUpdates(cfg: Config, q: Request)
    requires RequestInv(cfg, q) && Committed(q)
    ensures !q.phase.Choosing? && !q.phase.Calling? && !q.phase.GivingUp? && !q.phase.Noting? && !q.phase.Answering?
    ensures q.phase.Relaying? ==> forall cut :: Continues(q, AfterRelay(q, cut))
  {
    hide Bytes, Distinct;
  }

  lemma CommitStep(cfg: Config, s: Sys, step: Step, r: nat)
    requires RequestsInv(cfg, s) && Enabled(s, step)
    requires r < |s.requests| && Committed(s.requests[r])
    ensures r < |Do(cfg, s, step).requests|
    ensures Continues(s.requests[r], Do(cfg, s, step).requests[r])
  {
    assert RequestInv(cfg, s.requests[r]);
    CommittedUpdates(cfg, s.requests[r]);
    hide RequestInv, Apply, Candidates, Choice, Mask, Count, AfterRelay;
    if !ActsOn(step, r) {
      OtherRequestsStay(cfg, s, step, r);
    }
  }

  /**
   After the status line nothing is retried: from commit on a request keeps its status, its reply
   and its list of tried workers, its relayed bytes only grow, and it never calls a worker again.
   */
  lemma {:induction false} CommitIsFinal(cfg: Config, states: seq<Sys>, steps: seq<Step>, i: nat, j: nat, r: nat)
    requires Behaviour(cfg, states, steps) && i <= j < |states|
    requires r < |states[i].requests| && Committed(states[i].requests[r])
    ensures r < |states[j].requests|
    ensures Continues(states[i].requests[r], states[j].requests[r])
    ensures !states[j].requests[r].phase.Choosing? && !states[j].requests[r].phase.Calling?
    decreases j - i
  {
    if i < j {
      CommitIsFinal(cfg, states, steps, i, j - 1, r);
      RequestsHold(cfg, states, steps, j - 1);
      assert StepAt(cfg, states, steps, j - 1);
      CommitStep(cfg, states[j - 1], steps[j - 1], r);
    }
    RequestsHold(cfg, states, steps, j);
    assert RequestInv(cfg, states[j].requests[r]);
    CommittedUpdates(cfg, states[j].requests[r]);
  }

  /**
   A request stops early only when nobody is left: when the loop head finds no worker although
   attempts remain, every worker eligible at that instant has already been tried.
   */
  lemma EarlyBreakMeansExhausted(cfg: Config, s: Sys, r: nat, w: nat)
    requires RequestsInv(cfg, s) && Enabled(s, Choose(r)) && w < cfg.workers
    requires Do(cfg, s, Choose(r)).requests[r].phase.GivingUp?
    ensures |s.requests[r].tried| == cfg.maxAttempts || (s.pool.circuits[w].Eligible() ==> w in s.requests[r].tried)
    ensures Do(cfg, s, Choose(r)).pool == s.pool
  {
    assert RequestInv(cfg, s.requests[r]);
  }

  // ---------- conservation of reports and observations ----------

  /** What a request still owes the books of one worker. */
  datatype Due = TransportNote | ServerNote | SuccessNote | BreakNote | OpenStream

  function Share(q: Request, w: nat, due: Due): nat {
    var owes :=
      match due
      case TransportNote => q.phase.Noting? && q.phase.kind.TransportError? && q.phase.worker == w
      case ServerNote => q.phase.Noting? && q.phase.kind.ServerError? && q.phase.worker == w
      case SuccessNote => q.phase.Answering? && q.phase.worker == w
      case BreakNote => q.phase.NotingBreak? && q.phase.worker == w
      case OpenStream => (q.phase.Relaying? || q.phase.Severed? || q.phase.NotingBreak?) && q.phase.worker == w;
    if owes then 1 else 0
  }

  function Total(requests: seq<Request>, w: nat, due: Due): nat {
    if requests == [] then 0
    else Total(requests[..|requests| - 1], w, due) + Share(requests[|requests| - 1], w, due)
  }

  lemma {:induction false} TotalUpdate(requests: seq<Request>, r: nat, q: Request, w: nat, due: Due)
    requires r < |requests|
    ensures Total(requests[r := q], w, due) ==
            Total(requests, w, due) - Share(requests[r], w, due) + Share(q, w, due)
  {
    var last := |requests| - 1;
    if r == last {
      assert requests[r := q][..last] == requests[..last];
    } else {
      TotalUpdate(requests[..last], r, q, w, due);
      assert requests[r := q][..last] == requests[..last][r := q];
    }
  }

  lemma TotalArrival(requests: seq<Request>, w: nat, due: Due)
    ensures Total(requests + [FRESH], w, due) == Total(requests, w, due)
  {
    assert (requests + [FRESH])[..|requests|] == requests;
  }

  function Failures(log: seq<Report>): nat {
    if log == [] then 0 else Failures(log[..|log| - 1]) + if log[|log| - 1].Failure? then 1 else 0
  }

  function Successes(log: seq<Report>): nat {
    if log == [] then 0 else Successes(log[..|log| - 1]) + if log[|log| - 1].Success? then 1 else 0
  }

  lemma ReportCounts(log: seq<Report>, r: Report)
    ensures Failures(log + [r]) == Failures(log) + if r.Failure? then 1 else 0
    ensures Successes(log + [r]) == Successes(log) + if r.Success? then 1 else 0
  {
    assert (log + [r])[..|log|] == log;
  }

  /** The books of one worker balance, up to notes that requests have not written yet. */
  ghost predicate Balanced(log: seq<Report>, t: Tally, requests: seq<Request>, w: nat) {
    && t.finished == t.transport + t.serverError + t.success
                     + Total(requests, w, TransportNote) + Total(requests, w, ServerNote) + Total(requests, w, SuccessNote)
    && Failures(log) == t.transport + t.serverError + t.streamError + t.probeFailed
                        + Total(requests, w, TransportNote) + Total(requests, w, ServerNote) + Total(requests, w, BreakNote)
    && Successes(log) == t.success + t.probePassed + Total(requests, w, SuccessNote)
    && t.success == t.complete + t.streamError + Total(requests, w, OpenStream)
  }

  ghost predicate Books(cfg: Config, s: Sys) {
    && Shaped(cfg, s)
    && forall w | 0 <= w < cfg.workers :: Balanced(s.log[w], s.tally[w], s.requests, w)
  }

  lemma TotalsUpdate(requests: seq<Request>, r: nat, q: Request, w: nat)
    requires r < |requests|
    ensures Total(requests[r := q], w, TransportNote) ==
            Total(requests, w, TransportNote) - Share(requests[r], w, TransportNote) + Share(q, w, TransportNote)
    ensures Total(requests[r := q], w, ServerNote) ==
            Total(requests, w, ServerNote) - Share(requests[r], w, ServerNote) + Share(q, w, ServerNote)
    ensures Total(requests[r := q], w, SuccessNote) ==
            Total(requests, w, SuccessNote) - Share(requests[r], w, SuccessNote) + Share(q, w, SuccessNote)
    ensures Total(requests[r := q], w, BreakNote) ==
            Total(requests, w, BreakNote) - Share(requests[r], w, BreakNote) + Share(q, w, BreakNote)
    ensures Total(requests[r := q], w, OpenStream) ==
            Total(requests, w, OpenStream) - Share(requests[r], w, OpenStream) + Share(q, w, OpenStream)
  {
    TotalUpdate(requests, r, q, w, TransportNote);
    TotalUpdate(requests, r, q, w, ServerNote);
    TotalUpdate(requests, r, q, w, SuccessNote);
    TotalUpdate(requests, r, q, w, BreakNote);
    TotalUpdate(requests, r, q, w, OpenStream);
  }

  /** An attempt is over and reported, but not noted yet. */
  lemma FinishBalances(log: seq<Report>, t: Tally, requests: seq<Request>, r: nat, q: Request, report: Report, w: nat)
    requires r < |requests| && Balanced(log, t, requests, w) && requests[r].phase.Calling?
    requires if report.Success? then q.phase.Answering? else q.phase.Noting?
    requires q.phase.worker == requests[r].phase.worker
    ensures q.phase.worker == w ==>
              Balanced(log + [report], t.(finished := t.finished + 1), requests[r := q], w)
    ensures q.phase.worker != w ==> Balanced(log, t, requests[r := q], w)
  {
    TotalsUpdate(requests, r, q, w);
    ReportCounts(log, report);
  }

  /** A broken stream is reported, but not noted yet. */
  lemma BreakBalances(log: seq<Report>, t: Tally, requests: seq<Request>, r: nat, q: Request, report: Report, w: nat)
    requires r < |requests| && Balanced(log, t, requests, w) && requests[r].phase.Severed? && report.Failure?
    requires q.phase == NotingBreak(requests[r].phase.worker)
    ensures q.phase.worker == w ==> Balanced(log + [report], t, requests[r := q], w)
    ensures q.phase.worker != w ==> Balanced(log, t, requests[r := q], w)
  {
    TotalsUpdate(requests, r, q, w);
    ReportCounts(log, report);
  }

  lemma ObserveBalances(log: seq<Report>, t: Tally, requests: seq<Request>, r: nat, w: nat)
    requires r < |requests| && Balanced(log, t, requests, w)
    requires requests[r].phase.Noting? || requests[r].phase.Answering? || requests[r].phase.NotingBreak?
    ensures Balanced(log, if requests[r].phase.worker == w then Count(t, requests[r].phase) else t,
                     requests[r := AfterObserve(requests[r])], w)
  {
    TotalsUpdate(requests, r, AfterObserve(requests[r]), w);
  }

  lemma RelayBalances(log: seq<Report>, t: Tally, requests: seq<Request>, r: nat, cut: Option<Cut>, w: nat)
    requires r < |requests| && Balanced(log, t, requests, w) && requests[r].phase.Relaying?
    ensures var after := AfterRelay(requests[r], cut);
            Balanced(log, if requests[r].phase.worker == w && after.phase.Done? then t.(complete := t.complete + 1) else t,
                     requests[r := after], w)
  {
    TotalsUpdate(requests, r, AfterRelay(requests[r], cut), w);
  }

  /** A request that owes the same before and after. */
  lemma SameDebtBalances(log: seq<Report>, t: Tally, requests: seq<Request>, r: nat, q: Request, w: nat)
    requires r < |requests| && Balanced(log, t, requests, w)
    requires q.phase == requests[r].phase ||
             ((q.phase.Calling? || q.phase.GivingUp? || q.phase.Done?) &&
              (requests[r].phase.Choosing? || requests[r].phase.GivingUp?))
    ensures Balanced(log, t, requests[r := q], w)
  {
    TotalsUpdate(requests, r, q, w);
  }

  lemma ProbeBalances(log: seq<Report>, t: Tally, requests: seq<Request>, report: Report, w: nat)
    requires Balanced(log, t, requests, w)
    ensures Balanced(log + [report], if report.Success? then t.(probePassed := t.probePassed + 1)
                                     else t.(probeFailed := t.probeFailed + 1), requests, w)
  {
    ReportCounts(log, report);
  }

  lemma ArrivalBalances(log: seq<Report>, t: Tally, requests: seq<Request>, w: nat)
    requires Balanced(log, t, requests, w)
    ensures Balanced(log, t, requests + [FRESH], w)
  {
    TotalArrival(requests, w, TransportNote);
    TotalArrival(requests, w, ServerNote);
    TotalArrival(requests, w, SuccessNote);
    TotalArrival(requests, w, BreakNote);
    TotalArrival(requests, w, OpenStream);
  }

  ghost predicate StillBalanced(cfg: Config, s: Sys, step: Step, w: nat)
    requires Shaped(cfg, s) && Enabled(s, step) && w < cfg.workers
  {
    var after := Do(cfg, s, step);
    Balanced(after.log[w], after.tally[w], after.requests, w)
  }

  lemma FailBooks(cfg: Config, s: Sys, r: nat, kind: FailureKind, deadline: bool, message: string, at: Time, openedAt: Time, w: nat)
    requires Books(cfg, s) && Enabled(s, AttemptFails(r, kind, deadline, message, at, openedAt)) && w < cfg.workers
    ensures StillBalanced(cfg, s, AttemptFails(r, kind, deadline, message, at, openedAt), w)
  {
    var log, t, requests, after := s.log[w], s.tally[w], s.requests, Do(cfg, s, AttemptFails(r, kind, deadline, message, at, openedAt));
    assert Balanced(log, t, requests, w);
    hide Balanced, Apply;
    FinishBalances(log, t, requests, r, after.requests[r], Failure(at, openedAt, Some(message)), w);
  }

  lemma AnswerBooks(cfg: Config, s: Sys, r: nat, status: nat, body: Upstream, at: Time, w: nat)
    requires Books(cfg, s) && Enabled(s, AttemptAnswers(r, status, body, at)) && w < cfg.workers
    ensures StillBalanced(cfg, s, AttemptAnswers(r, status, body, at), w)
  {
    var log, t, requests, after := s.log[w], s.tally[w], s.requests, Do(cfg, s, AttemptAnswers(r, status, body, at));
    assert Balanced(log, t, requests, w);
    hide Balanced, Apply;
    FinishBalances(log, t, requests, r, after.requests[r], Success(at), w);
  }

  lemma BreakBooks(cfg: Config, s: Sys, r: nat, at: Time, openedAt: Time, w: nat)
    requires Books(cfg, s) && Enabled(s, ReportBreak(r, at, openedAt)) && w < cfg.workers
    ensures StillBalanced(cfg, s, ReportBreak(r, at, openedAt), w)
  {
    var log, t, requests, after := s.log[w], s.tally[w], s.requests, Do(cfg, s, ReportBreak(r, at, openedAt));
    assert Balanced(log, t, requests, w);
    hide Balanced, Apply;
    BreakBalances(log, t, requests, r, after.requests[r], Failure(at, openedAt, Some(requests[r].phase.reason)), w);
  }

  lemma ObserveBooks(cfg: Config, s: Sys, r: nat, w: nat)
    requires Books(cfg, s) && Enabled(s, Observe(r)) && w < cfg.workers
    ensures StillBalanced(cfg, s, Observe(r), w)
  {
    var log, t, requests, after := s.log[w], s.tally[w], s.requests, Do(cfg, s, Observe(r));
    assert Balanced(log, t, requests, w);
    hide Balanced, Apply;
    ObserveBalances(log, t, requests, r, w);
  }

  lemma RelayBooks(cfg: Config, s: Sys, r: nat, cut: Option<Cut>, w: nat)
    requires Books(cfg, s) && Enabled(s, Relay(r, cut)) && w < cfg.workers
    ensures StillBalanced(cfg, s, Relay(r, cut), w)
  {
    var log, t, requests, after := s.log[w], s.tally[w], s.requests, Do(cfg, s, Relay(r, cut));
    assert Balanced(log, t, requests, w);
    hide Balanced, Apply;
    RelayBalances(log, t, requests, r, cut, w);
  }

  lemma ProbeBooks(cfg: Config, s: Sys, passes: bool, message: string, at: Time, openedAt: Time, w: nat)
    requires Books(cfg, s) && Enabled(s, Probe(passes, message, at, openedAt)) && w < cfg.workers
    ensures StillBalanced(cfg, s, Probe(passes, message, at, openedAt), w)
  {
    assert Balanced(s.log[w], s.tally[w], s.requests, w);
    hide Balanced, Apply;
    if s.queue[0] == w {
      ProbeBalances(s.log[w], s.tally[w], s.requests,
                    if passes then Success(at) else Failure(at, openedAt, Some(message)), w);
    }
  }

  lemma ChooseBooks(cfg: Config, s: Sys, r: nat, w: nat)
    requires Books(cfg, s) && Enabled(s, Choose(r)) && w < cfg.workers
    ensures StillBalanced(cfg, s, Choose(r), w)
  {
    var log, t, requests, after := s.log[w], s.tally[w], s.requests, Do(cfg, s, Choose(r));
    assert Balanced(log, t, requests, w);
    hide Balanced, Apply;
    SameDebtBalances(log, t, requests, r, after.requests[r], w);
  }

  lemma BooksStep(cfg: Config, s: Sys, step: Step, w: nat)
    requires Books(cfg, s) && Enabled(s, step) && w < cfg.workers
    ensures StillBalanced(cfg, s, step, w)
  {
    var log, t, requests := s.log[w], s.tally[w], s.requests;
    assert Balanced(log, t, requests, w);
    match step
    case AttemptFails(r, kind, deadline, message, at, openedAt) => FailBooks(cfg, s, r, kind, deadline, message, at, openedAt, w);
    case AttemptAnswers(r, status, body, at) => AnswerBooks(cfg, s, r, status, body, at, w);
    case ReportBreak(r, at, openedAt) => BreakBooks(cfg, s, r, at, openedAt, w);
    case Observe(r) => ObserveBooks(cfg, s, r, w);
    case Relay(r, cut) => RelayBooks(cfg, s, r, cut, w);
    case Probe(passes, message, at, openedAt) => ProbeBooks(cfg, s, passes, message, at, openedAt, w);
    case Choose(r) => ChooseBooks(cfg, s, r, w);
    case Arrive => ArrivalBalances(log, t, requests, w);
    case GiveUp(r) => SameDebtBalances(log, t, requests, r, AfterGivingUp(requests[r]), w);
    case Expire(r) => SameDebtBalances(log, t, requests, r, requests[r].(expired := true), w);
    case Sweep =>
    case Tick(_) =>
  }

  lemma {:induction false} BooksHold(cfg: Config, states: seq<Sys>, steps: seq<Step>, i: nat)
    requires Behaviour(cfg, states, steps) && i < |states|
    ensures Books(cfg, states[i])
  {
    if i > 0 {
      BooksHold(cfg, states, steps, i - 1);
      assert StepAt(cfg, states, steps, i - 1);
      ShapedStep(cfg, states[i - 1], steps[i - 1]);
      forall w: nat | w < cfg.workers
        ensures Balanced(states[i].log[w], states[i].tally[w], states[i].requests, w)
      {
        BooksStep(cfg, states[i - 1], steps[i - 1], w);
        assert StillBalanced(cfg, states[i - 1], steps[i - 1], w);
      }
    }
  }

  /** No request is between reporting to the pool and noting it with the observer. */
  ghost predicate Quiet(requests: seq<Request>) {
    forall r | 0 <= r < |requests| ::
      !requests[r].phase.Noting? && !requests[r].phase.Answering? && !requests[r].phase.NotingBreak?
  }

  lemma {:induction false} QuietOwesNothing(requests: seq<Request>, w: nat)
    requires Quiet(requests)
    ensures Total(requests, w, TransportNote) == Total(requests, w, ServerNote) == 0
    ensures Total(requests, w, SuccessNote) == Total(requests, w, BreakNote) == 0
  {
    if requests != [] {
      QuietOwesNothing(requests[..|requests| - 1], w);
    }
  }

  /** Whenever no request is mid-note the books of every worker balance. */
  lemma BooksBalance(cfg: Config, states: seq<Sys>, steps: seq<Step>, i: nat, w: nat)
    requires Behaviour(cfg, states, steps) && i < |states| && w < cfg.workers
    ensures Books(cfg, states[i])
    ensures states[i].tally[w].complete + states[i].tally[w].streamError <= states[i].tally[w].success
    ensures Quiet(states[i].requests) ==>
              var t, log := states[i].tally[w], states[i].log[w];
              && t.finished == t.transport + t.serverError + t.success
              && Failures(log) == t.transport + t.serverError + t.streamError + t.probeFailed
              && Successes(log) == t.success + t.probePassed
  {
    BooksHold(cfg, states, steps, i);
    assert Balanced(states[i].log[w], states[i].tally[w], states[i].requests, w);
    if Quiet(states[i].requests) {
      QuietOwesNothing(states[i].requests, w);
    }
  }

  // ---------- fairness of selection over whole runs ----------

  /** The calls of `Next` made during an execution, oldest first. */
  ghost function NextCalls(cfg: Config, states: seq<Sys>, steps: seq<Step>): (calls: seq<Call>)
    requires |states| == |steps| + 1
  {
    if steps == [] then []
    else
      var k := |steps| - 1;
      NextCalls(cfg, states[..k + 1], steps[..k]) + CallOf(cfg, states[k], steps[k])
  }

  lemma RunPrefix(cfg: Config, states: seq<Sys>, steps: seq<Step>, k: nat)
    requires Run(cfg, states, steps) && k <= |steps|
    ensures Run(cfg, states[..k + 1], steps[..k])
    ensures states[..k + 1][k] == states[k]
  {
    var someStates, someSteps := states[..k + 1], steps[..k];
    forall i: nat | i < |someSteps| ensures StepAt(cfg, someStates, someSteps, i) {
      assert StepAt(cfg, states, steps, i);
    }
  }

  /** The call of `Next` that a step makes, if it makes one. */
  ghost function CallOf(cfg: Config, s: Sys, step: Step): seq<Call> {
    if step.Choose? && step.r < |s.requests| && s.requests[step.r].attempt <= cfg.maxAttempts
    then [Call(Mask(s.pool.circuits, set x | x in s.requests[step.r].tried), s.pool.next)]
    else []
  }

  lemma CursorStep(cfg: Config, s: Sys, step: Step)
    requires Shaped(cfg, s) && Enabled(s, step)
    ensures var calls := CallOf(cfg, s, step);
            && Chained(calls, cfg.workers)
            && (calls != [] ==> calls[0].cursor == s.pool.next)
            && (Do(cfg, s, step).pool.next == if calls == [] then s.pool.next else CursorAfter(calls[0]))
            && (calls != [] ==> Do(cfg, s, step).requests[step.r].phase ==
                                match Selected(calls[0]) case None => GivingUp case Some(w) => Calling(w))
  {
  }

  /** The cursor a rotation that began at `start` has reached. */
  ghost function Reached(calls: seq<Call>, start: nat, n: nat): nat
    requires Sized(calls, n)
  {
    if calls == [] then start else CursorAfter(calls[|calls| - 1])
  }

  lemma ChainAppend(calls: seq<Call>, more: seq<Call>, start: nat, n: nat)
    requires Chained(calls, n) && Chained(more, n) && |more| <= 1
    requires more != [] ==> more[0].cursor == Reached(calls, start, n)
    ensures Chained(calls + more, n)
    ensures Reached(calls + more, start, n) == if more == [] then Reached(calls, start, n) else CursorAfter(more[0])
  {
    if more == [] {
      assert calls + more == calls;
    }
  }

  /** Nothing but `Next` moves the cursor, so the calls of a run form one rotation. */
  lemma {:induction false} NextCallsChain(cfg: Config, states: seq<Sys>, steps: seq<Step>)
    requires Run(cfg, states, steps)
    ensures Chained(NextCalls(cfg, states, steps), cfg.workers)
    ensures states[|steps|].pool.next == Reached(NextCalls(cfg, states, steps), states[0].pool.next, cfg.workers)
  {
    if steps != [] {
      var k := |steps| - 1;
      RunPrefix(cfg, states, steps, k);
      NextCallsChain(cfg, states[..k + 1], steps[..k]);
      assert StepAt(cfg, states, steps, k);
      CursorStep(cfg, states[k], steps[k]);
      ChainAppend(NextCalls(cfg, states[..k + 1], steps[..k]), CallOf(cfg, states[k], steps[k]),
                  states[0].pool.next, cfg.workers);
    }
  }

  /**
   Bounded bypass in the running gateway: if a worker is eligible and untried at each of n
   successive `Next` calls, of whatever requests and with whatever happening in between, one of
   these calls returns it.
   */
  lemma RunBypass(cfg: Config, states: seq<Sys>, steps: seq<Step>, w: nat)
    requires Run(cfg, states, steps) && w < cfg.workers
    requires |NextCalls(cfg, states, steps)| >= cfg.workers
    requires Sized(NextCalls(cfg, states, steps), cfg.workers)
    requires Selectable(NextCalls(cfg, states, steps), cfg.workers, w)
    ensures exists k | 0 <= k < cfg.workers ::
              Selected(NextCalls(cfg, states, steps)[k]) == Some(w)
  {
    var calls := NextCalls(cfg, states, steps);
    NextCallsChain(cfg, states, steps);
    BoundedBypass(calls, cfg.workers, w);
  }

  /**
   Exact rotation in the running gateway: over calls that all choose from the same nonempty set,
   any two members of it were returned equally often, give or take one.
   */
  lemma RunStaysBalanced(cfg: Config, states: seq<Sys>, steps: seq<Step>, mask: seq<bool>, x: nat, y: nat)
    requires Run(cfg, states, steps) && |mask| == cfg.workers
    requires x < |mask| && mask[x] && y < |mask| && mask[y]
    requires forall k | 0 <= k < |NextCalls(cfg, states, steps)| :: NextCalls(cfg, states, steps)[k].mask == mask
    ensures Sized(NextCalls(cfg, states, steps), cfg.workers)
    ensures multiset(Selections(NextCalls(cfg, states, steps), cfg.workers))[Some(x)] <=
            multiset(Selections(NextCalls(cfg, states, steps), cfg.workers))[Some(y)] + 1
  {
    NextCallsChain(cfg, states, steps);
    assert Some(x) in Members(mask) && Some(y) in Members(mask);
    CountsStayBalanced(NextCalls(cfg, states, steps), mask, Some(x), Some(y));
  }

  /** And while the gateway passes over an eligible, untried worker it returns no other worker twice. */
  lemma RunNoDoubleOvertaking(cfg: Config, states: seq<Sys>, steps: seq<Step>, w: nat, i: nat, j: nat)
    requires Run(cfg, states, steps) && w < cfg.workers
    requires i < j < |NextCalls(cfg, states, steps)|
    requires Sized(NextCalls(cfg, states, steps), cfg.workers)
    requires Selectable(NextCalls(cfg, states, steps), cfg.workers, w)
    requires Unselected(NextCalls(cfg, states, steps), cfg.workers, w)
    ensures Selected(NextCalls(cfg, states, steps)[i]) != Selected(NextCalls(cfg, states, steps)[j])
  {
    NextCallsChain(cfg, states, steps);
    NoDoubleOvertaking(NextCalls(cfg, states, steps), cfg.workers, w);
  }
}
