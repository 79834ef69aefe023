/**
 The health sweep on the pool object is an execution of the concurrent gateway in which only the clock
 and the prober act.
 */
module Sweeping {
  import opened Prelude
  import opened Circuit
  import opened WorkerPool
  import opened Gateway
  import opened GatewaySafety
  import opened Proxying
  import opened Health

  ghost predicate ByProber(step: Step) {
    step.Tick? || step.Sweep? || step.Probe?
  }

  ghost predicate ProberPath(cfg: Config, s: Sys, t: Sys, states: seq<Sys>, steps: seq<Step>) {
    && Run(cfg, states, steps) && states[0] == s && states[|steps|] == t
    && forall k: nat | k < |steps| :: ByProber(steps[k])
  }

  /** Some execution in which only clock and prober act leads from s to t, where circuits and logs agree. */
  ghost predicate ProberReaches(cfg: Config, s: Sys, t: Sys) {
    && CircuitsFollowLogs(cfg, t)
    && exists states: seq<Sys>, steps: seq<Step> :: ProberPath(cfg, s, t, states, steps)
  }

  lemma ProberHere(cfg: Config, s: Sys)
    requires CircuitsFollowLogs(cfg, s)
    ensures ProberReaches(cfg, s, s)
  {
    assert ProberPath(cfg, s, s, [s], []);
  }

  lemma ProberOn(cfg: Config, s: Sys, t: Sys, step: Step)
    requires ProberReaches(cfg, s, t) && Enabled(t, step) && ByProber(step)
    ensures ProberReaches(cfg, s, Do(cfg, t, step))
  {
    LogStep(cfg, t, step);
    var states: seq<Sys>, steps: seq<Step> :| ProberPath(cfg, s, t, states, steps);
    var u := Do(cfg, t, step);
    var longer, more := states + [u], steps + [step];
    hide Do, Shaped, Enabled, ByProber, Replay;
    forall k: nat | k < |more| ensures StepAt(cfg, longer, more, k) {
      if k < |steps| {
        assert StepAt(cfg, states, steps, k);
      }
    }
    assert ProberPath(cfg, s, u, longer, more);
  }

  /** A sweep of the gateway in state s, read off the logs before and after it. */
  datatype Round = Round(
    cfg: Config, s: Sys, verdicts: seq<Option<string>>, cs: seq<nat>, log: seq<seq<Report>>, swept: Time)
  {
    ghost predicate Valid() {
      && CircuitsFollowLogs(cfg, s) && s.queue == [] && s.now <= swept
      && |verdicts| == |log| == cfg.workers
      && cs == Candidates(s.pool.circuits, swept) && Increasing(cs)
      && forall i | 0 <= i < |cs| :: cs[i] < cfg.workers
    }

    /** The report that the log holds of the i-th candidate. */
    ghost predicate Reports(i: nat, r: Report) {
      && i < |cs| && cs[i] < |s.log| == |log| && |s.log[cs[i]]| < |log[cs[i]]|
      && r == log[cs[i]][|s.log[cs[i]]|]
    }
  }

  /** The counters of a probed worker. */
  function Probed(t: Tally, verdict: Option<string>): Tally {
    if verdict.None? then t.(probePassed := t.probePassed + 1) else t.(probeFailed := t.probeFailed + 1)
  }

  /** The reports and counts of the first k candidates are in, and of nobody else. */
  ghost predicate Recorded(rd: Round, log: seq<seq<Report>>, tally: seq<Tally>, k: nat)
    requires rd.Valid() && k <= |rd.cs|
  {
    && |log| == |tally| == |rd.s.tally| == rd.cfg.workers
    && (forall w: nat | w < rd.cfg.workers && w !in rd.cs[..k] :: log[w] == rd.s.log[w] && tally[w] == rd.s.tally[w])
    && (forall w: nat | w < rd.cfg.workers && w in rd.cs[..k] ::
          log[w] == rd.log[w] && tally[w] == Probed(rd.s.tally[w], rd.verdicts[w]))
  }

  lemma RecordedNext(rd: Round, log: seq<seq<Report>>, tally: seq<Tally>, k: nat)
    requires rd.Valid() && k < |rd.cs| && Recorded(rd, log, tally, k)
    ensures rd.cs[k] < |log| == |tally| && log[rd.cs[k]] == rd.s.log[rd.cs[k]]
    ensures Recorded(rd, log[rd.cs[k] := rd.log[rd.cs[k]]],
                     tally[rd.cs[k] := Probed(tally[rd.cs[k]], rd.verdicts[rd.cs[k]])], k + 1)
  {
    hide Candidates, Replay, Probed;
    IncreasingIsDistinct(rd.cs);
    hide Increasing;
    assert rd.cs[..k + 1] == rd.cs[..k] + [rd.cs[k]];
    assert rd.cs[k] !in rd.cs[..k];
    assert forall v: nat :: v in rd.cs[..k + 1] <==> v in rd.cs[..k] || v == rd.cs[k];
  }

  /** The first k candidates are probed, reported and counted; the rest are still on the list. */
  ghost predicate Underway(rd: Round, t: Sys, k: nat) {
    && rd.Valid() && k <= |rd.cs| && ProberReaches(rd.cfg, rd.s, t)
    && t.queue == rd.cs[k..] && t.requests == rd.s.requests && t.pool.next == rd.s.pool.next
    && Recorded(rd, t.log, t.tally, k)
    && (k == 0 ==> t.now == rd.swept)
    && (k > 0 ==> exists r: Report :: rd.Reports(k - 1, r) && t.now == Completed(r))
  }

  lemma SweepStarts(rd: Round) returns (t: Sys)
    requires rd.Valid()
    ensures Underway(rd, t, 0)
  {
    var ticked := Do(rd.cfg, rd.s, Tick(rd.swept));
    t := Do(rd.cfg, ticked, Sweep);
    ProberHere(rd.cfg, rd.s);
    ProberOn(rd.cfg, rd.s, rd.s, Tick(rd.swept));
    ProberOn(rd.cfg, rd.s, ticked, Sweep);
    assert rd.cs[0..] == rd.cs;
    hide Candidates, ProberReaches, Replay;
  }

  /** What one probe does to the gateway. */
  lemma ProbeGives(cfg: Config, s: Sys, t: Sys, w: nat, rest: seq<nat>, verdict: Option<string>, report: Report) returns (u: Sys)
    requires ProberReaches(cfg, s, t) && t.queue == [w] + rest
    requires match verdict
             case None => report.Success? && t.now <= report.at
             case Some(error) => report.Failure? && report.message == verdict && t.now <= report.at <= report.openedAt
    ensures w < cfg.workers == |t.log| == |t.tally| && ProberReaches(cfg, s, u)
    ensures u.queue == rest && u.requests == t.requests && u.pool.next == t.pool.next && u.now == Completed(report)
    ensures u.log == t.log[w := t.log[w] + [report]] && u.tally == t.tally[w := Probed(t.tally[w], verdict)]
  {
    var step := Probe(verdict.None?, if verdict.None? then "" else verdict.value, report.at,
                      if report.Failure? then report.openedAt else report.at);
    u := Do(cfg, t, step);
    ProberOn(cfg, s, t, step);
    assert t.queue[0] == w && t.queue[1..] == rest;
    hide ProberReaches, Apply, Replay;
  }

  /** The report on the next candidate. */
  lemma NextVerdict(rd: Round, t: Sys, k: nat, until: Time) returns (report: Report)
    requires Underway(rd, t, k) && k < |rd.cs|
    requires ProbedThrough(rd.verdicts, rd.cs, |rd.cs|, rd.s.log, rd.log, rd.swept, until)
    ensures rd.Reports(k, report) && rd.log[rd.cs[k]] == rd.s.log[rd.cs[k]] + [report] && t.now <= report.at
    ensures match rd.verdicts[rd.cs[k]]
            case None => report.Success?
            case Some(error) => report.Failure? && report.message == rd.verdicts[rd.cs[k]] && report.at <= report.openedAt
  {
    hide ProberReaches, Candidates, Replay, Probed, Increasing, Distinct;
    var w := rd.cs[k];
    assert ProbedOnce(rd.s.log[w], rd.log[w], rd.verdicts[w], rd.swept, until);
    report := rd.log[w][|rd.s.log[w]|];
    if k > 0 {
      assert Precedes(rd.cs[k - 1], rd.cs[k], rd.s.log, rd.log);
    }
  }

  lemma ProbesNext(rd: Round, t: Sys, k: nat, until: Time) returns (u: Sys)
    requires Underway(rd, t, k) && k < |rd.cs|
    requires ProbedThrough(rd.verdicts, rd.cs, |rd.cs|, rd.s.log, rd.log, rd.swept, until)
    ensures Underway(rd, u, k + 1)
  {
    var w := rd.cs[k];
    var report := NextVerdict(rd, t, k, until);
    assert rd.cs[k..] == [w] + rd.cs[k + 1..];
    hide ProberReaches, Candidates, Replay, Probed, ProbedThrough, CircuitsFollowLogs, Increasing, Recorded;
    u := ProbeGives(rd.cfg, rd.s, t, w, rd.cs[k + 1..], rd.verdicts[w], report);
    RecordedNext(rd, t.log, t.tally, k);
  }

  lemma {:induction false} ProbesAll(rd: Round, k: nat, until: Time) returns (t: Sys)
    requires rd.Valid() && k <= |rd.cs|
    requires ProbedThrough(rd.verdicts, rd.cs, |rd.cs|, rd.s.log, rd.log, rd.swept, until)
    ensures Underway(rd, t, k)
    decreases k
  {
    hide Underway, ProbedThrough, Round.Valid;
    if k == 0 {
      t := SweepStarts(rd);
    } else {
      var before := ProbesAll(rd, k - 1, until);
      t := ProbesNext(rd, before, k - 1, until);
    }
  }

  /**
   The sweep on the object is a run of the machine. If nobody else reports meanwhile and the prober is
   idle, some execution in which only clock and prober act leads from the gateway state that shows the
   pool before `CheckOnce` to one that shows it afterwards, with no request touched and every probe
   counted with its verdict.
   */
  method CheckAsRun(checker: HealthChecker, probe: string -> Option<string>, ghost cfg: Config, ghost s: Sys)
    returns (seen: seq<(string, bool)>, ghost swept: Time, ghost t: Sys)
    requires checker.pool.Valid() && s.queue == [] && s.now <= checker.clock.now
    requires cfg.workers == |checker.pool.workers| && cfg.settings == checker.pool.Config() && Shaped(cfg, s)
    requires s.pool == checker.pool.state && s.log == checker.pool.log
    modifies checker.pool`state, checker.pool`log, checker.pool.Records(), checker.clock
    ensures checker.pool.Valid() && t.pool == checker.pool.state && t.log == checker.pool.log
    ensures ProberReaches(cfg, s, t) && t.queue == [] && t.requests == s.requests
    ensures |t.tally| == |s.tally| == |s.pool.circuits| == cfg.workers && old(checker.clock.now) <= swept
    ensures forall w | 0 <= w < cfg.workers ::
              t.tally[w] == if s.pool.circuits[w].Probeable(swept) then Probed(s.tally[w], checker.Verdicts(probe)[w])
                            else s.tally[w]
  {
    assert CircuitsFollowLogs(cfg, s);
    seen, swept := checker.CheckOnce(probe);
    ghost var rd := Round(cfg, s, checker.Verdicts(probe), Candidates(s.pool.circuits, swept), checker.pool.log, swept);
    assert |checker.pool.log| == cfg.workers;
    t := ProbesAll(rd, |rd.cs|, checker.clock.now);
    hide ProberReaches, Candidates, Probed, ProbedOnce, Precedes, Increasing;
    assert rd.cs[..|rd.cs|] == rd.cs;
    assert t.log == rd.log;
    assert forall w: nat | w < cfg.workers :: w in rd.cs <==> s.pool.circuits[w].Probeable(swept);
    assert t.pool.circuits == checker.pool.state.circuits;
  }
}
