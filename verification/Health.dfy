/** One sweep of the health checker over the shared pool. */
module Health {
  import opened Prelude
  import opened Circuit
  import opened WorkerPool
  import opened Proxying

  /** `log` is `before` plus the report of one probe: a success, or a failure with the probe's error. */
  ghost predicate ProbedOnce(before: seq<Report>, log: seq<Report>, verdict: Option<string>, from: Time, until: Time) {
    && |log| == |before| + 1 && log[..|before|] == before
    && match verdict
       case None => log[|before|].Success? && from <= log[|before|].at <= until
       case Some(error) => FailureWithin(log[|before|], error, from, until)
  }

  /** The first k candidates were each reported once, nobody else was. */
  ghost predicate ProbedThrough(verdicts: seq<Option<string>>, cs: seq<nat>, k: nat,
                                before: seq<seq<Report>>, log: seq<seq<Report>>, from: Time, until: Time)
  {
    && |verdicts| == |before| == |log| && k <= |cs|
    && (forall i | 0 <= i < |cs| :: cs[i] < |log|)
    && (forall i | 0 <= i < k :: ProbedOnce(before[cs[i]], log[cs[i]], verdicts[cs[i]], from, until))
    && (forall w: nat | w < |log| && w !in cs[..k] :: log[w] == before[w])
    && (forall i, j | 0 <= i < j < k :: Precedes(cs[i], cs[j], before, log))
  }

  /** The report on v was complete before the one on w was made. */
  ghost predicate Precedes(v: nat, w: nat, before: seq<seq<Report>>, log: seq<seq<Report>>) {
    && v < |before| == |log| && |before[v]| < |log[v]| && w < |log| && |before[w]| < |log[w]|
    && Completed(log[v][|before[v]|]) <= log[w][|before[w]|].at
  }

  /** When the last clock reading of a report was taken. */
  function Completed(r: Report): Time {
    match r
    case Success(at) => at
    case Failure(_, openedAt, _) => openedAt
  }

  lemma OneMoreProbed(verdicts: seq<Option<string>>, cs: seq<nat>, k: nat, before: seq<seq<Report>>, log: seq<seq<Report>>,
                      more: seq<Report>, from: Time, until: Time, later: Time)
    requires ProbedThrough(verdicts, cs, k, before, log, from, until) && Distinct(cs)
    requires k < |cs| && from <= until <= later && ProbedOnce(log[cs[k]], more, verdicts[cs[k]], until, later)
    ensures ProbedThrough(verdicts, cs, k + 1, before, log[cs[k] := more], from, later)
  {
    assert cs[..k + 1] == cs[..k] + [cs[k]];
    assert cs[k] !in cs[..k];
    assert log[cs[k]] == before[cs[k]];
    var now := log[cs[k] := more];
    forall i, j | 0 <= i < j < k + 1 ensures Precedes(cs[i], cs[j], before, now) {
      assert cs[i] != cs[k];
      if j < k {
        assert Precedes(cs[i], cs[j], before, log);
        assert cs[j] != cs[k];
      }
    }
  }

  class HealthChecker {
    const pool: Pool
    const clock: Clock

    constructor (pool: Pool, clock: Clock)
      ensures this.pool == pool && this.clock == clock
    {
      this.pool, this.clock := pool, clock;
    }

    ghost function Verdicts(probe: string -> Option<string>): (s: seq<Option<string>>)
      ensures |s| == |pool.workers|
      ensures forall w | 0 <= w < |s| :: s[w] == probe(pool.workers[w].worker.name)
    {
      seq(|pool.workers|, w requires 0 <= w < |pool.workers| => probe(pool.workers[w].worker.name))
    }

    /** Probe one worker and report the verdict. */
    method ReportProbe(name: string, verdict: Option<string>, ghost w: nat)
      requires pool.Valid() && pool.Named(name, w)
      modifies pool`state, pool`log, pool.Records(), clock
      ensures pool.Valid() && old(clock.now) <= clock.now && pool.state.next == old(pool.state.next)
      ensures |pool.log| == |old(pool.log)| && pool.log == old(pool.log)[w := pool.log[w]]
      ensures ProbedOnce(old(pool.log)[w], pool.log[w], verdict, old(clock.now), clock.now)
    {
      hide Apply, Replay, Distinct;
      var at := clock.Read();
      match verdict {
        case None => pool.ReportSuccess(name, at);
        case Some(error) =>
          var openedAt := clock.Read();
          pool.ReportFailure(name, verdict, at, openedAt);
      }
    }

    /**
     `CheckOnce`: the workers not waiting out a cooldown at the sweep's clock reading are each
     probed and reported exactly once, in configuration order; a passed probe is a success report,
     a failed one a failure report with the probe's error. Nobody else is reported on and the
     cursor stays.
     */
    method CheckOnce(probe: string -> Option<string>) returns (seen: seq<(string, bool)>, ghost swept: Time)
      requires pool.Valid()
      modifies pool`state, pool`log, pool.Records(), clock
      ensures pool.Valid() && old(clock.now) <= swept <= clock.now && pool.state.next == old(pool.state.next)
      ensures forall i | 0 <= i < |Candidates(old(pool.state).circuits, swept)| ::
                Candidates(old(pool.state).circuits, swept)[i] < |pool.workers|
      ensures Increasing(Candidates(old(pool.state).circuits, swept))
      ensures var cs := Candidates(old(pool.state).circuits, swept);
              && ProbedThrough(Verdicts(probe), cs, |cs|, old(pool.log), pool.log, swept, clock.now)
              && |seen| == |cs|
              && forall i | 0 <= i < |cs| ::
                   seen[i] == (pool.workers[cs[i]].worker.name, probe(pool.workers[cs[i]].worker.name).None?)
    {
      ghost var before := pool.log;
      var now := clock.Read();
      swept := now;
      ghost var cs := Candidates(pool.state.circuits, swept);
      var workers := pool.ProbeCandidates(now);
      IncreasingIsDistinct(cs);
      assert ProbedThrough(Verdicts(probe), cs, 0, before, pool.log, swept, clock.now);
      hide *;
      seen := ProbeAll(probe, workers, cs, before, swept);
    }

    /** Probe the listed workers one after the other. */
    method ProbeAll(probe: string -> Option<string>, workers: seq<Worker>, ghost cs: seq<nat>,
                    ghost before: seq<seq<Report>>, ghost from: Time)
      returns (seen: seq<(string, bool)>)
      requires pool.Valid() && Distinct(cs) && |workers| == |cs| && from <= clock.now
      requires forall i | 0 <= i < |cs| :: cs[i] < |pool.workers| && workers[i] == pool.workers[cs[i]].worker
      requires ProbedThrough(Verdicts(probe), cs, 0, before, pool.log, from, clock.now)
      modifies pool`state, pool`log, pool.Records(), clock
      ensures pool.Valid() && old(clock.now) <= clock.now && pool.state.next == old(pool.state.next)
      ensures ProbedThrough(Verdicts(probe), cs, |cs|, before, pool.log, from, clock.now)
      ensures |seen| == |cs|
      ensures forall i | 0 <= i < |cs| :: seen[i] == (workers[i].name, probe(workers[i].name).None?)
    {
      ghost var verdicts := Verdicts(probe);
      seen := [];
      assert |pool.log| == |pool.workers|;
      hide Candidates, ProbedOnce, ProbedThrough, Distinct, Pool.Valid, Verdicts;
      for i := 0 to |workers|
        invariant pool.Valid() && |pool.log| == |pool.workers| && pool.state.next == old(pool.state.next)
        invariant old(clock.now) <= clock.now && from <= clock.now
        invariant ProbedThrough(verdicts, cs, i, before, pool.log, from, clock.now)
        invariant |seen| == i
        invariant forall k | 0 <= k < i :: seen[k] == (workers[k].name, probe(workers[k].name).None?)
      {
        var name := workers[i].name;
        var verdict := probe(name);
        ghost var log, until := pool.log, clock.now;
        ReportProbe(name, verdict, cs[i]);
        OneMoreProbed(verdicts, cs, i, before, log, pool.log[cs[i]], from, until, clock.now);
        seen := seen + [(name, verdict.None?)];
      }
    }
  }
}
