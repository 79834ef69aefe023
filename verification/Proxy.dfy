/** The proxy's attempt loop, as the code runs it on the shared pool object when nobody else reports in between. */
module Proxying {
  import opened Prelude
  import opened Circuit
  import opened CyclicOrder
  import opened RoundRobin
  import opened WorkerPool
  import opened Stream
  import opened Gateway

  /** A clock that never runs backwards. */
  class Clock {
    var now: Time

    constructor (start: Time)
      ensures now == start
    {
      now := start;
    }

    method Read() returns (t: Time)
      modifies this
      ensures old(now) <= now && t == now
    {
      var elapsed: int := *;
      if elapsed > 0 {
        now := now + elapsed;
      }
      t := now;
    }
  }

  /** How one worker answers one attempt. */
  datatype Answer =
    | Failed(message: string, deadline: bool)
    | Answered(status: nat, body: Upstream)
  {
    predicate Serves() {
      Answered? && status < 500
    }

    /** The failure that is reported when the attempt does not serve. */
    function Fault(): string {
      if Failed? then message else "upstream status " + Decimal(status)
    }
  }

  datatype Result =
    | Served(worker: string, status: nat, attempts: nat, sent: seq<byte>, err: Option<CopyError>)
    | Error(code: ErrorCode)

  datatype Observation = TransportErrorSeen | ServerErrorSeen | SuccessSeen | StreamErrorSeen

  datatype Note = Note(worker: string, seen: Observation)

  function NoteOf(a: Answer): Observation {
    if a.Failed? then TransportErrorSeen else if a.status >= 500 then ServerErrorSeen else SuccessSeen
  }

  function Describe(e: CopyError): string {
    match e
    case WriteFailed(reason) => "write downstream response: " + reason
    case ReadFailed(reason) => "read upstream response: " + reason
  }

  /** A failure with that message, stamped within the interval. */
  ghost predicate FailureWithin(r: Report, message: string, from: Time, until: Time) {
    r.Failure? && r.message == Some(message) && from <= r.at <= r.openedAt <= until
  }

  /** `log` is `before` plus one failure report. */
  ghost predicate FailedOnce(before: seq<Report>, log: seq<Report>, message: string, from: Time, until: Time) {
    |log| == |before| + 1 && log[..|before|] == before && FailureWithin(log[|before|], message, from, until)
  }

  /** `log` is `before` plus one success report, followed by one failure report if the stream broke. */
  ghost predicate ServedOnce(before: seq<Report>, log: seq<Report>, err: Option<CopyError>, from: Time, until: Time) {
    && |log| == |before| + (if err.Some? then 2 else 1) && log[..|before|] == before
    && log[|before|].Success? && from <= log[|before|].at <= until
    && (err.Some? ==> FailureWithin(log[|before| + 1], Describe(err.value), log[|before|].at, until))
  }

  lemma SuccessThenBreak(before: seq<Report>, at: Time, log: seq<Report>, err: Option<CopyError>,
                         from: Time, mid: Time, until: Time)
    requires from <= at <= mid <= until
    requires if err.Some? then FailedOnce(before + [Success(at)], log, Describe(err.value), mid, until)
             else log == before + [Success(at)]
    ensures ServedOnce(before, log, err, from, until)
  {
    var served := before + [Success(at)];
    assert log[..|served|] == served;
    assert served[..|before|] == before && served[|before|] == log[|before|];
    assert log[..|before|] == served[..|before|];
  }

  /**
   The first k workers of the ring failed, each was reported once, and nobody else was reported.
   `before` and `log` are the pool's logs at the start and now.
   */
  ghost predicate FailedThrough(answers: seq<Answer>, ring: seq<nat>, k: nat,
                                before: seq<seq<Report>>, log: seq<seq<Report>>, from: Time, until: Time)
  {
    && |answers| == |before| == |log| && k <= |ring|
    && (forall i | 0 <= i < |ring| :: ring[i] < |log|)
    && (forall i | 0 <= i < k ::
          var answer := answers[ring[i]];
          && (answer.Failed? || answer.status >= 500)
          && FailedOnce(before[ring[i]], log[ring[i]],
                        if answer.Failed? then answer.message else "upstream status " + Decimal(answer.status), from, until))
    && (forall w: nat | w < |log| && w !in ring[..k] :: log[w] == before[w])
  }

  lemma OneMoreFails(answers: seq<Answer>, ring: seq<nat>, k: nat, before: seq<seq<Report>>, log: seq<seq<Report>>,
                     more: seq<Report>, from: Time, until: Time, later: Time)
    requires FailedThrough(answers, ring, k, before, log, from, until) && Distinct(ring)
    requires k < |ring| && !answers[ring[k]].Serves() && from <= until <= later
    requires FailedOnce(log[ring[k]], more, answers[ring[k]].Fault(), until, later)
    ensures FailedThrough(answers, ring, k + 1, before, log[ring[k] := more], from, later)
  {
    assert ring[..k + 1] == ring[..k] + [ring[k]];
    assert ring[k] !in ring[..k];
    assert log[ring[k]] == before[ring[k]];
  }

  lemma UntouchedServer(answers: seq<Answer>, ring: seq<nat>, k: nat, before: seq<seq<Report>>, log: seq<seq<Report>>,
                        from: Time, until: Time, later: Time)
    requires FailedThrough(answers, ring, k, before, log, from, until) && Distinct(ring)
    requires k < |ring| && until <= later
    ensures log[ring[k]] == before[ring[k]]
    ensures FailedThrough(answers, ring, k, before, log, from, later)
  {
    assert ring[k] !in ring[..k];
  }

  /** The failure of v was reported no later than what was reported of w. */
  ghost predicate Follows(v: nat, w: nat, before: seq<seq<Report>>, log: seq<seq<Report>>) {
    && v < |before| == |log| && |before[v]| < |log[v]| && log[v][|before[v]|].Failure?
    && w < |log| && |before[w]| < |log[w]|
    && log[v][|before[v]|].openedAt <= log[w][|before[w]|].at
  }

  /** The first k workers of the line were reported one after the other. */
  ghost predicate InTurn(line: seq<nat>, k: nat, before: seq<seq<Report>>, log: seq<seq<Report>>)
    requires k <= |line|
  {
    forall i, j | 0 <= i < j < k :: Follows(line[i], line[j], before, log)
  }

  lemma NextInTurn(answers: seq<Answer>, line: seq<nat>, k: nat, before: seq<seq<Report>>, log: seq<seq<Report>>,
                   more: seq<Report>, from: Time, until: Time)
    requires FailedThrough(answers, line, k, before, log, from, until) && Distinct(line)
    requires k < |line| && InTurn(line, k, before, log)
    requires |before[line[k]]| < |more| && more[|before[line[k]]|].at >= until
    ensures InTurn(line, k + 1, before, log[line[k] := more])
  {
    var later := log[line[k] := more];
    forall i, j | 0 <= i < j < k + 1 ensures Follows(line[i], line[j], before, later) {
      assert line[i] != line[k];
      if j < k {
        assert Follows(line[i], line[j], before, log);
        assert line[j] != line[k];
      }
    }
  }

  /** The metric notes of the first k failed attempts: which of them got an answer, and which did not. */
  ghost function FailureNotes(names: seq<string>, answers: seq<Answer>, ring: seq<nat>, k: nat): seq<Note>
    requires |names| == |answers| && k <= |ring|
    requires forall i | 0 <= i < |ring| :: ring[i] < |names|
  {
    seq(k, i requires 0 <= i < k =>
      Note(names[ring[i]], if answers[ring[i]].Failed? then TransportErrorSeen else ServerErrorSeen))
  }

  lemma RingIsDistinct(mask: seq<bool>, cursor: nat)
    requires cursor < |mask|
    ensures Distinct(Ring(mask, cursor))
  {
    var ring := Ring(mask, cursor);
    forall i, j | 0 <= i < j < |ring| ensures ring[i] != ring[j] {
      assert Ahead(cursor, ring[i], |mask|) < Ahead(cursor, ring[j], |mask|);
    }
  }

  /**
   Excluding the tried workers, `Next` hands out the next one of the ring: circuits of untried
   workers are as at the start.
   */
  lemma NextFollowsRing(start: PoolState, now: PoolState, k: nat, excluded: set<nat>)
    requires start.next < |start.circuits| == |now.circuits|
    requires var ring := Ring(Mask(start.circuits, {}), start.next);
             && k <= |ring|
             && now.next == CursorAt(Mask(start.circuits, {}), start.next, k)
             && excluded == Elements(ring[..k])
             && forall w: nat | w < |now.circuits| && w !in ring[..k] :: now.circuits[w] == start.circuits[w]
    ensures var ring := Ring(Mask(start.circuits, {}), start.next);
            Choice(now, excluded) == if k < |ring| then Some(ring[k]) else None
  {
    hide Ring, CursorAt, Pick;
    var mask := Mask(start.circuits, {});
    var ring, later := Ring(mask, start.next), Mask(now.circuits, excluded);
    RingIsDistinct(mask, start.next);
    assert ring == ring[..k] + ring[k..];
    forall w: nat | w < |mask| ensures later[w] <==> w in ring[k..] {
      if w in ring[..k] {
        var i :| 0 <= i < k && ring[i] == w;
        assert forall j | 0 <= j < |ring[k..]| :: ring[k..][j] == ring[k + j] != ring[i];
      } else {
        assert mask[w] <==> w in ring;
      }
    }
    ExclusionWalksRing(mask, start.next, k, later);
  }

  ghost predicate LastHitDeadline(answers: seq<Answer>, line: seq<nat>, tried: nat)
    requires tried <= |line| && forall i | 0 <= i < |line| :: line[i] < |answers|
  {
    tried > 0 && answers[line[tried - 1]].Failed? && answers[line[tried - 1]].deadline
  }

  /** The first k of the line failed and were noted, and the last of them hit the deadline or not. */
  ghost predicate FailedSoFar(answers: seq<Answer>, names: seq<string>, line: seq<nat>, k: nat,
                              before: seq<seq<Report>>, log: seq<seq<Report>>, from: Time, until: Time,
                              notes: seq<Note>, hitDeadline: bool)
  {
    && |names| == |answers| && FailedThrough(answers, line, k, before, log, from, until)
    && InTurn(line, k, before, log)
    && notes == FailureNotes(names, answers, line, k)
    && (hitDeadline <==> LastHitDeadline(answers, line, k))
  }

  lemma OneMoreNoted(answers: seq<Answer>, names: seq<string>, line: seq<nat>, k: nat, before: seq<seq<Report>>,
                     log: seq<seq<Report>>, more: seq<Report>, from: Time, until: Time, later: Time,
                     notes: seq<Note>, earlier: bool)
    requires FailedSoFar(answers, names, line, k, before, log, from, until, notes, earlier) && Distinct(line)
    requires k < |line| && !answers[line[k]].Serves() && from <= until <= later
    requires FailedOnce(log[line[k]], more, answers[line[k]].Fault(), until, later)
    ensures FailedSoFar(answers, names, line, k + 1, before, log[line[k] := more], from, later,
                        notes + [Note(names[line[k]], NoteOf(answers[line[k]]))],
                        answers[line[k]].Failed? && answers[line[k]].deadline)
  {
    OneMoreFails(answers, line, k, before, log, more, from, until, later);
    assert line[k] !in line[..k];
    NextInTurn(answers, line, k, before, log, more, from, until);
    hide FailedOnce, Distinct, InTurn, FailedThrough;
  }

  /**
   The worker ranked `tried` in the line is the first that answers below 500: it supplied the status and the
   bytes, its rank is the attempt header, and its log gained a success (and a failure if the
   stream broke) while each predecessor's gained one failure, in turn, and nobody else's changed.
   */
  ghost predicate ServedBy(answers: seq<Answer>, names: seq<string>, line: seq<nat>, tried: nat,
                           before: seq<seq<Report>>, log: seq<seq<Report>>, from: Time, until: Time,
                           down: Downstream, result: Result, notes: seq<Note>)
  {
    && 0 < tried <= |line| && |names| == |answers| == |before| == |log|
    && (forall i | 0 <= i < |line| :: line[i] < |log|)
    && var w := line[tried - 1];
       && FailedThrough(answers, line, tried - 1, before, log[w := before[w]], from, until)
       && answers[w].Answered? && answers[w].status < 500
       && result == Served(names[w], answers[w].status, tried, Delivered(answers[w].body, down), Outcome(answers[w].body, down))
       && ServedOnce(before[w], log[w], result.err, from, until)
       && InTurn(line, tried, before, log)
       && notes == FailureNotes(names, answers, line, tried - 1) + [Note(names[w], SuccessSeen)]
                   + if result.err.Some? then [Note(names[w], StreamErrorSeen)] else []
  }

  /** Everybody in the line, up to the attempt limit, failed; the error code says which way. */
  ghost predicate RefusedAfter(answers: seq<Answer>, names: seq<string>, line: seq<nat>, tried: nat,
                               before: seq<seq<Report>>, log: seq<seq<Report>>, from: Time, until: Time,
                               maxAttempts: nat, expired: bool, result: Result, notes: seq<Note>)
  {
    && |names| == |answers| && result.Error?
    && FailedThrough(answers, line, tried, before, log, from, until)
    && InTurn(line, tried, before, log)
    && (tried == maxAttempts || tried == |line|)
    && notes == FailureNotes(names, answers, line, tried)
    && (result.code == NoHealthyWorker <==> tried == 0)
    && (result.code == RequestTimeout <==> tried > 0 && (expired || LastHitDeadline(answers, line, tried)))
  }

  /** After the failures before it, the serving attempt completes the account. */
  lemma ServiceIsExplained(answers: seq<Answer>, names: seq<string>, line: seq<nat>, k: nat, before: seq<seq<Report>>,
                           log: seq<seq<Report>>, more: seq<Report>, from: Time, until: Time, later: Time,
                           down: Downstream, result: Result, noted: seq<Note>, earlier: bool)
    requires FailedSoFar(answers, names, line, k, before, log, from, until, noted, earlier) && Distinct(line)
    requires k < |line| && from <= until <= later && answers[line[k]].Serves()
    requires result == Served(names[line[k]], answers[line[k]].status, k + 1,
                              Delivered(answers[line[k]].body, down), Outcome(answers[line[k]].body, down))
    requires ServedOnce(log[line[k]], more, result.err, until, later)
    ensures ServedBy(answers, names, line, k + 1, before, log[line[k] := more], from, later, down, result,
                     noted + [Note(names[line[k]], SuccessSeen)]
                     + if result.err.Some? then [Note(names[line[k]], StreamErrorSeen)] else [])
  {
    UntouchedServer(answers, line, k, before, log, from, until, later);
    NextInTurn(answers, line, k, before, log, more, from, until);
    hide FailedOnce, Distinct, InTurn, FailureNotes, Delivered, Outcome, Decimal;
    assert log[line[k] := more][line[k] := before[line[k]]] == log;
  }

  /** The error that ends a request nobody served. */
  function RefusalCode(nobodyTried: bool, lastWasDeadline: bool, expired: bool): ErrorCode {
    if nobodyTried then NoHealthyWorker else if lastWasDeadline || expired then RequestTimeout else UpstreamFailure
  }

  lemma RefusalIsExplained(answers: seq<Answer>, names: seq<string>, line: seq<nat>, tried: nat,
                           before: seq<seq<Report>>, log: seq<seq<Report>>, from: Time, until: Time,
                           maxAttempts: nat, expired: bool, notes: seq<Note>, lastWasDeadline: bool)
    requires FailedSoFar(answers, names, line, tried, before, log, from, until, notes, lastWasDeadline)
    requires tried == maxAttempts || tried == |line|
    ensures RefusedAfter(answers, names, line, tried, before, log, from, until, maxAttempts, expired,
                         Error(RefusalCode(tried == 0, lastWasDeadline, expired)), notes)
  {
    hide FailureNotes;
  }

  class Proxy {
    const pool: Pool
    const clock: Clock
    const maxAttempts: nat

    constructor (pool: Pool, clock: Clock, maxAttempts: nat)
      ensures this.pool == pool && this.clock == clock && this.maxAttempts == maxAttempts
    {
      this.pool, this.clock, this.maxAttempts := pool, clock, maxAttempts;
    }

    ghost function Names(): (names: seq<string>)
      ensures |names| == |pool.workers|
      ensures forall w | 0 <= w < |names| :: names[w] == pool.workers[w].worker.name
    {
      seq(|pool.workers|, w requires 0 <= w < |pool.workers| => pool.workers[w].worker.name)
    }

    ghost function ByWorker(answers: string -> Answer): (s: seq<Answer>)
      ensures |s| == |pool.workers|
      ensures forall w | 0 <= w < |s| :: s[w] == answers(pool.workers[w].worker.name)
    {
      seq(|pool.workers|, w requires 0 <= w < |pool.workers| => answers(pool.workers[w].worker.name))
    }

    /** The eligible workers in cyclic order from the cursor. */
    ghost function Line(): (line: seq<nat>)
      requires pool.Valid()
      reads pool, pool.Records()
      ensures forall i | 0 <= i < |line| :: line[i] < |pool.workers|
    {
      Ring(Mask(pool.state.circuits, {}), pool.state.next)
    }

    /**
     After the first k workers of the line were handed out: they, and only they, are excluded and
     may have been reported on, and the cursor is just past the last of them.
     */
    ghost predicate Midway(start: PoolState, before: seq<seq<Report>>, line: seq<nat>, k: nat, attempted: set<string>)
      reads pool, pool.Records()
    {
      && pool.Valid() && start.Shaped(|pool.workers|) && |before| == |pool.workers|
      && line == Ring(Mask(start.circuits, {}), start.next) && k <= |line|
      && pool.state.next == CursorAt(Mask(start.circuits, {}), start.next, k)
      && pool.Positions(attempted) == Elements(line[..k])
      && forall w: nat | w < |before| && w !in line[..k] ::
           pool.state.circuits[w] == start.circuits[w] && pool.log[w] == before[w]
    }

    lemma OneMoreExcluded(attempted: set<string>, line: seq<nat>, k: nat)
      requires pool.DistinctNames() && k < |line| && line[k] < |pool.workers|
      requires pool.Positions(attempted) == Elements(line[..k])
      ensures pool.Positions(attempted + {pool.workers[line[k]].worker.name}) == Elements(line[..k + 1])
      ensures forall w | w in line[..k] :: w in line[..k + 1]
    {
      assert line[..k + 1] == line[..k] + [line[k]];
    }

    /** Ask the pool for a worker not attempted yet: it is the next one of the line. */
    method SelectNext(attempted: set<string>, ghost start: PoolState, ghost before: seq<seq<Report>>,
                      ghost line: seq<nat>, ghost k: nat)
      returns (chosen: Option<Worker>)
      requires Midway(start, before, line, k, attempted)
      modifies pool`next, pool`state
      ensures chosen.Some? <==> k < |line|
      ensures chosen.None? ==> Midway(start, before, line, k, attempted)
      ensures chosen.Some? ==> pool.Named(chosen.value.name, line[k]) &&
                               Midway(start, before, line, k + 1, attempted + {chosen.value.name})
    {
      hide Ring, Mask, Pick, Choice, Elements, Replay;
      NextFollowsRing(start, pool.state, k, pool.Positions(attempted));
      chosen := pool.Next(attempted);
      if chosen.Some? {
        OneMoreExcluded(attempted, line, k);
      }
    }

    /** Read the clock and report one failure of the named worker. */
    method Penalize(name: string, message: string, ghost w: nat)
      requires pool.Valid() && pool.Named(name, w)
      modifies pool`state, pool`log, pool.Records(), clock
      ensures pool.Valid() && old(clock.now) <= clock.now
      ensures pool.state == old(pool.state).(circuits := old(pool.state).circuits[w := pool.state.circuits[w]])
      ensures pool.log == old(pool.log)[w := pool.log[w]]
      ensures FailedOnce(old(pool.log)[w], pool.log[w], message, old(clock.now), clock.now)
    {
      var at := clock.Read();
      var openedAt := clock.Read();
      pool.ReportFailure(name, Some(message), at, openedAt);
    }

    /** The failing branch of the loop: report, observe, go on to the next worker. */
    method FailAttempt(name: string, answer: Answer, noted: seq<Note>, attempted: set<string>, ghost start: PoolState,
                       ghost before: seq<seq<Report>>, ghost line: seq<nat>, ghost k: nat,
                       ghost replies: seq<Answer>, ghost from: Time, ghost earlier: bool)
      returns (notes: seq<Note>, hitDeadline: bool)
      requires Midway(start, before, line, k + 1, attempted) && Distinct(line) && from <= clock.now
      requires FailedSoFar(replies, Names(), line, k, before, pool.log, from, clock.now, noted, earlier)
      requires pool.Named(name, line[k]) && replies[line[k]] == answer && !answer.Serves()
      modifies pool`state, pool`log, pool.Records(), clock
      ensures Midway(start, before, line, k + 1, attempted) && from <= clock.now
      ensures FailedSoFar(replies, Names(), line, k + 1, before, pool.log, from, clock.now, notes, hitDeadline)
    {
      ghost var log, until := pool.log, clock.now;
      assert line[k] in line[..k + 1] by { assert line[..k + 1][k] == line[k]; }
      hide Ring, Mask, CursorAt, Replay, FailedOnce, FailureNotes, NoteOf, Answer.Fault, Elements, Distinct;
      Penalize(name, answer.Fault(), line[k]);
      OneMoreNoted(replies, Names(), line, k, before, log, pool.log[line[k]], from, until, clock.now, noted, earlier);
      notes := noted + [Note(name, NoteOf(answer))];
      hitDeadline := answer.Failed? && answer.deadline;
    }

    /** Report success, write the status line and relay the body; a broken stream is reported once more. */
    method Relay(name: string, body: Upstream, down: Downstream, noted: seq<Note>, ghost w: nat)
      returns (sent: seq<byte>, err: Option<CopyError>, notes: seq<Note>)
      requires pool.Valid() && pool.Named(name, w)
      modifies pool`state, pool`log, pool.Records(), clock
      ensures pool.Valid() && old(clock.now) <= clock.now
      ensures sent == Delivered(body, down) && err == Outcome(body, down)
      ensures pool.state == old(pool.state).(circuits := old(pool.state).circuits[w := pool.state.circuits[w]])
      ensures pool.log == old(pool.log)[w := pool.log[w]]
      ensures ServedOnce(old(pool.log)[w], pool.log[w], err, old(clock.now), clock.now)
      ensures notes == noted + [Note(name, SuccessSeen)] + if err.Some? then [Note(name, StreamErrorSeen)] else []
    {
      hide Delivered, Outcome, Replay, FailedOnce, ServedOnce, Apply;
      ghost var before, from := pool.log[w], clock.now;
      var at := clock.Read();
      pool.ReportSuccess(name, at);
      notes := noted + [Note(name, SuccessSeen)];
      sent, err := CopyStreaming(body, down);
      if err.Some? {
        Penalize(name, Describe(err.value), w);
        notes := notes + [Note(name, StreamErrorSeen)];
      }
      SuccessThenBreak(before, at, pool.log[w], err, from, at, clock.now);
    }

    /** The serving branch of the loop: commit to this worker and return. */
    method Commit(name: string, answer: Answer, down: Downstream, attempt: nat, noted: seq<Note>, attempted: set<string>,
                  ghost start: PoolState, ghost before: seq<seq<Report>>, ghost line: seq<nat>,
                  ghost replies: seq<Answer>, ghost from: Time, ghost earlier: bool)
      returns (result: Result, notes: seq<Note>)
      requires attempt > 0 && Midway(start, before, line, attempt, attempted) && Distinct(line) && from <= clock.now
      requires FailedSoFar(replies, Names(), line, attempt - 1, before, pool.log, from, clock.now, noted, earlier)
      requires pool.Named(name, line[attempt - 1]) && replies[line[attempt - 1]] == answer && answer.Serves()
      modifies pool`state, pool`log, pool.Records(), clock
      ensures Midway(start, before, line, attempt, attempted) && from <= clock.now && result.Served?
      ensures ServedBy(replies, Names(), line, attempt, before, pool.log, from, clock.now, down, result, notes)
    {
      hide Ring, Mask, CursorAt, Replay, Delivered, Outcome, FailedOnce, Decimal, Elements, FailureNotes, ServedOnce,
        InTurn, FailedThrough;
      ghost var log, until := pool.log, clock.now;
      ghost var w := line[attempt - 1];
      assert line[..attempt][attempt - 1] == w;
      var sent, err;
      sent, err, notes := Relay(name, answer.body, down, noted, w);
      result := Served(name, answer.status, attempt, sent, err);
      hide ServedBy, FailedSoFar;
      ServiceIsExplained(replies, Names(), line, attempt - 1, before, log, pool.log[w], from, until, clock.now,
                         down, result, noted, earlier);
    }

    /** Where the walk has left the pool: the cursor past the last worker handed out, the others untouched. */
    lemma MidwayMeans(start: PoolState, before: seq<seq<Report>>, line: seq<nat>, k: nat, attempted: set<string>)
      requires Midway(start, before, line, k, attempted)
      ensures pool.Valid() && k <= |line| && forall i | 0 <= i < |line| :: line[i] < |pool.workers|
      ensures pool.next == if k == 0 then start.next else Successor(line[k - 1], |pool.workers|)
      ensures forall w: nat | w < |pool.workers| && w !in line[..k] ::
                pool.state.circuits[w] == start.circuits[w] && pool.log[w] == before[w]
    {
      hide Ring, Mask, Replay, Elements;
    }

    /** One turn of the loop: ask the selected worker, then commit to its answer or note the failure. */
    method Attempt(name: string, answers: string -> Answer, down: Downstream, attempt: nat, noted: seq<Note>,
                   attempted: set<string>, ghost start: PoolState, ghost before: seq<seq<Report>>,
                   ghost line: seq<nat>, ghost from: Time, ghost earlier: bool)
      returns (result: Option<Result>, notes: seq<Note>, hitDeadline: bool)
      requires attempt > 0 && Midway(start, before, line, attempt, attempted) && Distinct(line) && from <= clock.now
      requires FailedSoFar(ByWorker(answers), Names(), line, attempt - 1, before, pool.log, from, clock.now, noted, earlier)
      requires pool.Named(name, line[attempt - 1])
      modifies pool`state, pool`log, pool.Records(), clock
      ensures Midway(start, before, line, attempt, attempted) && from <= clock.now
      ensures result.Some? ==>
                result.value.Served? &&
                ServedBy(ByWorker(answers), Names(), line, attempt, before, pool.log, from, clock.now, down, result.value, notes)
      ensures result.None? ==>
                FailedSoFar(ByWorker(answers), Names(), line, attempt, before, pool.log, from, clock.now, notes, hitDeadline)
    {
      ghost var replies := ByWorker(answers);
      var answer := answers(name);
      assert replies[line[attempt - 1]] == answer;
      hide *;
      if answer.Serves() {
        var served;
        served, notes := Commit(name, answer, down, attempt, noted, attempted, start, before, line, replies, from, earlier);
        return Some(served), notes, false;
      }
      notes, hitDeadline := FailAttempt(name, answer, noted, attempted, start, before, line, attempt - 1, replies, from, earlier);
      result := None;
    }

    /** The attempt loop: serve from the next worker of the line, or run out of workers or attempts. */
    method TryWorkers(answers: string -> Answer, down: Downstream, ghost start: PoolState, ghost before: seq<seq<Report>>,
                      ghost line: seq<nat>, ghost from: Time)
      returns (result: Option<Result>, notes: seq<Note>, attempted: set<string>, lastWasDeadline: bool, ghost tried: nat)
      requires Midway(start, before, line, 0, {}) && Distinct(line) && from <= clock.now
      requires FailedSoFar(ByWorker(answers), Names(), line, 0, before, pool.log, from, clock.now, [], false)
      modifies pool`next, pool`state, pool`log, pool.Records(), clock
      ensures Midway(start, before, line, tried, attempted) && from <= clock.now
      ensures tried <= maxAttempts && tried <= |line| && (attempted == {} <==> tried == 0)
      ensures result.Some? ==>
                result.value.Served? &&
                ServedBy(ByWorker(answers), Names(), line, tried, before, pool.log, from, clock.now, down, result.value, notes)
      ensures result.None? ==>
                && (tried == maxAttempts || tried == |line|)
                && FailedSoFar(ByWorker(answers), Names(), line, tried, before, pool.log, from, clock.now, notes, lastWasDeadline)
    {
      hide *;
      attempted := {};
      lastWasDeadline := false;
      notes := [];
      tried := 0;
      for attempt := 1 to maxAttempts + 1
        invariant tried == attempt - 1 <= |line| && (attempted == {} <==> tried == 0)
        invariant Midway(start, before, line, tried, attempted) && from <= clock.now
        invariant FailedSoFar(ByWorker(answers), Names(), line, tried, before, pool.log, from, clock.now, notes, lastWasDeadline)
      {
        var chosen := SelectNext(attempted, start, before, line, tried);
        if chosen.None? {
          break;
        }
        var worker := chosen.value;
        attempted := attempted + {worker.name};
        tried := tried + 1;
        result, notes, lastWasDeadline :=
          Attempt(worker.name, answers, down, attempt, notes, attempted, start, before, line, from, lastWasDeadline);
        if result.Some? {
          return;
        }
      }
      result := None;
    }

    /**
     Failover. With no concurrent reports and one fixed answer per worker, the request tries the
     workers eligible at the start in cyclic order from the cursor, at most `maxAttempts` of them.
     It is served by the first that answers below 500; the attempt header is that worker's rank,
     each predecessor received one failure report, and the server one success report, followed by
     one failure report if the stream broke. If none of them serves, one error is returned. The
     cursor ends just past the last worker tried; no other worker's circuit changes.
     */
    method ServeHTTP(answers: string -> Answer, down: Downstream, expired: bool)
      returns (result: Result, notes: seq<Note>, ghost tried: nat)
      requires pool.Valid()
      modifies pool`next, pool`state, pool`log, pool.Records(), clock
      ensures pool.Valid() && old(clock.now) <= clock.now
      ensures tried <= maxAttempts && tried <= |old(Line())|
      ensures pool.next == if tried == 0 then old(pool.next) else Successor(old(Line())[tried - 1], |pool.workers|)
      ensures forall w: nat | w < |pool.workers| && w !in old(Line())[..tried] ::
                pool.state.circuits[w] == old(pool.state).circuits[w] && pool.log[w] == old(pool.log)[w]
      ensures if result.Served?
              then ServedBy(ByWorker(answers), Names(), old(Line()), tried, old(pool.log), pool.log,
                            old(clock.now), clock.now, down, result, notes)
              else RefusedAfter(ByWorker(answers), Names(), old(Line()), tried, old(pool.log), pool.log,
                                old(clock.now), clock.now, maxAttempts, expired, result, notes)
    {
      ghost var start, before, from, line := pool.state, pool.log, clock.now, Line();
      RingIsDistinct(Mask(start.circuits, {}), start.next);
      assert Midway(start, before, line, 0, {});
      assert FailedSoFar(ByWorker(answers), Names(), line, 0, before, pool.log, from, clock.now, [], false);
      hide *;
      var served, attempted, lastWasDeadline;
      served, notes, attempted, lastWasDeadline, tried := TryWorkers(answers, down, start, before, line, from);
      MidwayMeans(start, before, line, tried, attempted);
      if served.Some? {
        result := served.value;
      } else {
        result := Error(RefusalCode(attempted == {}, lastWasDeadline, expired));
        RefusalIsExplained(ByWorker(answers), Names(), line, tried, before, pool.log, from, clock.now,
                           maxAttempts, expired, notes, lastWasDeadline);
      }
    }
  }
}
