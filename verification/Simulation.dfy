/**
 The attempt loop on the pool object is an execution of the concurrent gateway: whatever `ServeHTTP`
 does is a run of the state machine in which only one new request acts.
 */
module Simulation {
  import opened Prelude
  import opened Circuit
  import opened CyclicOrder
  import opened RoundRobin
  import opened WorkerPool
  import opened Stream
  import opened Gateway
  import opened GatewaySafety
  import opened Proxying

  // ---------- executions of one request ----------

  ghost predicate Path(cfg: Config, s: Sys, t: Sys, r: nat, states: seq<Sys>, steps: seq<Step>) {
    && Run(cfg, states, steps) && states[0] == s && states[|steps|] == t
    && forall k: nat | k < |steps| :: steps[k].Arrive? || ActsOn(steps[k], r)
  }

  /** Some execution in which only request r acts leads from s to t. */
  ghost predicate Leads(cfg: Config, s: Sys, t: Sys, r: nat) {
    exists states: seq<Sys>, steps: seq<Step> :: Path(cfg, s, t, r, states, steps)
  }

  /** And circuits and logs agree in t. */
  ghost predicate Reaches(cfg: Config, s: Sys, t: Sys, r: nat) {
    Leads(cfg, s, t, r) && CircuitsFollowLogs(cfg, t)
  }

  lemma LeadsHere(cfg: Config, s: Sys, r: nat)
    requires Shaped(cfg, s)
    ensures Leads(cfg, s, s, r)
  {
    assert Path(cfg, s, s, r, [s], []);
  }

  lemma LeadsOn(cfg: Config, s: Sys, t: Sys, r: nat, step: Step)
    requires Leads(cfg, s, t, r) && Shaped(cfg, t) && Enabled(t, step)
    requires step.Arrive? || ActsOn(step, r)
    ensures Leads(cfg, s, Do(cfg, t, step), r) && Shaped(cfg, Do(cfg, t, step))
  {
    ShapedStep(cfg, t, step);
    var states: seq<Sys>, steps: seq<Step> :| Path(cfg, s, t, r, states, steps);
    var u := Do(cfg, t, step);
    var longer, more := states + [u], steps + [step];
    hide Do, Shaped, Enabled;
    forall k: nat | k < |more| ensures StepAt(cfg, longer, more, k) {
      if k < |steps| {
        assert StepAt(cfg, states, steps, k);
      }
    }
    assert Path(cfg, s, u, r, longer, more);
  }

  // ---------- relaying the body ----------

  /** What the client connection does to the next chunk when `writes` chunks were written before. */
  function CutOf(down: Downstream, writes: nat, chunk: Chunk): Option<Cut> {
    if chunk != [] && down.FailsAt? && down.write == writes then Some(Cut(down.accepted, down.reason)) else None
  }

  /** How a relay ends: done, or severed with the error that `copyStreaming` returns. */
  function EndOfRelay(w: nat, err: Option<CopyError>): Phase {
    match err
    case None => Done
    case Some(e) => Severed(w, Describe(e))
  }

  /** The request has relayed the first `writes` chunks of the body. */
  ghost predicate RelayedSoFar(q: Request, body: Upstream, down: Downstream, writes: nat) {
    && q.phase.Relaying? && !q.broken
    && Remaining(body, writes, q.phase.rest) && q.sent == Flatten(Pieces(body)[..writes])
    && (down.FailsAt? ==> writes <= down.write)
  }

  ghost predicate RelayedAll(q: Request, after: Request, body: Upstream, down: Downstream)
    requires q.phase.Relaying?
  {
    after == q.(phase := EndOfRelay(q.phase.worker, Outcome(body, down)), sent := Delivered(body, down),
                broken := Outcome(body, down).Some?)
  }

  lemma TurnCut(q: Request, body: Upstream, down: Downstream, writes: nat)
    requires RelayedSoFar(q, body, down, writes) && CutOf(down, writes, q.phase.rest.chunk).Some?
    ensures RelayedAll(q, AfterRelay(q, CutOf(down, writes, q.phase.rest.chunk)), body, down)
  {
    var chunk := q.phase.rest.chunk;
    hide Flatten, Bytes, Pieces, Delivered, Outcome;
    ReadPiece(body, writes, q.phase.rest);
    CutDelivery(body, down, if down.accepted < |chunk| then down.accepted else |chunk|);
    hide Remaining;
  }

  /** After the last read everything has been written. */
  lemma LastRead(body: Upstream, writes: nat, source: Upstream)
    requires Remaining(body, writes, source) && source.Last?
    ensures |Pieces(body)| == if |source.chunk| > 0 then writes + 1 else writes
    ensures Flatten(Pieces(body)[..writes]) + source.chunk == Bytes(body)
    ensures Ends(body) == source.ending
  {
    assert |source.chunk| == 0 ==> Flatten(Pieces(body)[..writes]) + source.chunk == Flatten(Pieces(body)[..writes]);
    assert |source.chunk| == 0 ==> Pieces(source) == [];
    hide Flatten, Bytes, Pieces;
    if |source.chunk| > 0 {
      ReadPiece(body, writes, source);
      AllWritten(body, writes + 1);
    } else {
      AllWritten(body, writes);
    }
  }

  lemma TurnLast(q: Request, body: Upstream, down: Downstream, writes: nat)
    requires RelayedSoFar(q, body, down, writes) && CutOf(down, writes, q.phase.rest.chunk).None?
    requires q.phase.rest.Last?
    ensures RelayedAll(q, AfterRelay(q, None), body, down)
  {
    hide Flatten, Bytes, Pieces, Delivered, Ends;
    LastRead(body, writes, q.phase.rest);
    WholeDelivery(body, down);
    hide Remaining;
  }

  /** After any other read the rest remains, and the chunk, if any, was written. */
  lemma OtherRead(body: Upstream, writes: nat, source: Upstream)
    requires Remaining(body, writes, source) && source.More?
    ensures var after := if |source.chunk| > 0 then writes + 1 else writes;
            && Remaining(body, after, source.rest)
            && Flatten(Pieces(body)[..writes]) + source.chunk == Flatten(Pieces(body)[..after])
  {
    assert Ends(source) == Ends(source.rest);
    if |source.chunk| > 0 {
      hide Flatten, Bytes, Pieces, Ends;
      ReadPiece(body, writes, source);
    } else {
      assert Pieces(source) == Pieces(source.rest);
      hide Flatten, Bytes, Pieces, Ends;
      assert Flatten(Pieces(body)[..writes]) + source.chunk == Flatten(Pieces(body)[..writes]);
    }
  }

  lemma TurnMore(q: Request, body: Upstream, down: Downstream, writes: nat)
    requires RelayedSoFar(q, body, down, writes) && CutOf(down, writes, q.phase.rest.chunk).None?
    requires q.phase.rest.More?
    ensures var after := AfterRelay(q, None);
            && after == q.(phase := Relaying(q.phase.worker, q.phase.rest.rest), sent := after.sent)
            && RelayedSoFar(after, body, down, if |q.phase.rest.chunk| > 0 then writes + 1 else writes)
  {
    OtherRead(body, writes, q.phase.rest);
    hide Flatten, Bytes, Pieces, Ends, Remaining;
  }

  /** Relaying the rest of the body changes nothing but the request and the metrics. */
  lemma {:induction false} RelayRun(cfg: Config, s: Sys, t: Sys, r: nat, body: Upstream, down: Downstream, writes: nat)
    returns (u: Sys)
    requires Leads(cfg, s, t, r) && Shaped(cfg, t) && r < |t.requests|
    requires RelayedSoFar(t.requests[r], body, down, writes)
    ensures Leads(cfg, s, u, r) && Shaped(cfg, u) && SameButRequest(t, u, r)
    ensures RelayedAll(t.requests[r], u.requests[r], body, down)
    decreases t.requests[r].phase.rest
  {
    var q := t.requests[r];
    var cut := CutOf(down, writes, q.phase.rest.chunk);
    var step := Relay(r, cut);
    var next := Do(cfg, t, step);
    assert SameButRequest(t, next, r) && next.requests[r] == AfterRelay(q, cut);
    LeadsOn(cfg, s, t, r, step);
    hide Do, Leads, AfterRelay, Outcome, Delivered, Remaining, CutOf, Flatten, Pieces;
    if cut.Some? {
      TurnCut(q, body, down, writes);
      u := next;
    } else if q.phase.rest.Last? {
      TurnLast(q, body, down, writes);
      u := next;
    } else {
      TurnMore(q, body, down, writes);
      u := RelayRun(cfg, s, next, r, body, down, if |q.phase.rest.chunk| > 0 then writes + 1 else writes);
    }
  }

  /** The two states differ at most in request r and in the count of complete streams. */
  ghost predicate SameButRequest(t: Sys, u: Sys, r: nat)
    requires r < |t.requests|
  {
    && u.now == t.now && u.pool == t.pool && u.queue == t.queue && u.log == t.log && SameNotes(t.tally, u.tally)
    && |u.requests| == |t.requests| && u.requests == t.requests[r := u.requests[r]]
  }

  // ---------- the metrics ----------

  /** The counters of one worker that the observer's notes count, before and after one note. */
  ghost predicate Noted(t: Tally, u: Tally, seen: Observation) {
    && u.transport == t.transport + (if seen.TransportErrorSeen? then 1 else 0)
    && u.serverError == t.serverError + (if seen.ServerErrorSeen? then 1 else 0)
    && u.success == t.success + (if seen.SuccessSeen? then 1 else 0)
    && u.streamError == t.streamError + (if seen.StreamErrorSeen? then 1 else 0)
  }

  ghost predicate NotedOn(tally: seq<Tally>, after: seq<Tally>, w: nat, seen: Observation) {
    w < |tally| == |after| && after == tally[w := after[w]] && Noted(tally[w], after[w], seen)
  }

  ghost predicate SameNotes(tally: seq<Tally>, after: seq<Tally>) {
    && |tally| == |after|
    && forall w | 0 <= w < |tally| ::
         && after[w].transport == tally[w].transport && after[w].serverError == tally[w].serverError
         && after[w].success == tally[w].success && after[w].streamError == tally[w].streamError
  }

  /** From `tally` to `after` every worker's counters grew by exactly its notes of that kind. */
  ghost predicate CountsNotes(tally: seq<Tally>, after: seq<Tally>, names: seq<string>, notes: seq<Note>) {
    && |tally| == |after| == |names|
    && forall w | 0 <= w < |names| ::
         && after[w].transport == tally[w].transport + multiset(notes)[Note(names[w], TransportErrorSeen)]
         && after[w].serverError == tally[w].serverError + multiset(notes)[Note(names[w], ServerErrorSeen)]
         && after[w].success == tally[w].success + multiset(notes)[Note(names[w], SuccessSeen)]
         && after[w].streamError == tally[w].streamError + multiset(notes)[Note(names[w], StreamErrorSeen)]
  }

  lemma CountsNothing(tally: seq<Tally>, names: seq<string>)
    requires |tally| == |names|
    ensures CountsNotes(tally, tally, names, [])
  {
  }

  lemma CountsOneMore(tally: seq<Tally>, middle: seq<Tally>, after: seq<Tally>, names: seq<string>, notes: seq<Note>,
                      w: nat, seen: Observation)
    requires CountsNotes(tally, middle, names, notes) && Distinct(names) && NotedOn(middle, after, w, seen)
    ensures CountsNotes(tally, after, names, notes + [Note(names[w], seen)])
  {
    assert forall v | 0 <= v < |names| && v != w :: names[v] != names[w];
    assert multiset(notes + [Note(names[w], seen)]) == multiset(notes) + multiset{Note(names[w], seen)};
  }

  lemma CountsSame(tally: seq<Tally>, middle: seq<Tally>, after: seq<Tally>, names: seq<string>, notes: seq<Note>)
    requires CountsNotes(tally, middle, names, notes) && SameNotes(middle, after)
    ensures CountsNotes(tally, after, names, notes)
  {
  }

  // ---------- the attempts ----------

  /** What the new request does: `s` is where it arrives and `log` what the pool's logs will be. */
  datatype Scenario = Scenario(
    cfg: Config, s: Sys, names: seq<string>, answers: seq<Answer>, line: seq<nat>, log: seq<seq<Report>>)
  {
    ghost predicate Valid() {
      && CircuitsFollowLogs(cfg, s) && |answers| == |log| == |names| == cfg.workers && Distinct(names)
      && line == Ring(Mask(s.pool.circuits, {}), s.pool.next)
      && Distinct(line) && forall i | 0 <= i < |line| :: line[i] < cfg.workers
    }

    ghost function Request(): nat {
      |s.requests|
    }

    /** The report of the worker ranked i. */
    ghost predicate Reports(i: nat, r: Report) {
      && i < |line| && line[i] < |s.log| == |log| && |s.log[line[i]]| < |log[line[i]]|
      && r == log[line[i]][|s.log[line[i]]|]
    }
  }

  /** The request as it looks after k failed attempts. */
  ghost function Attempted(sc: Scenario, k: nat): Request
    requires sc.Valid() && k <= |sc.line|
  {
    FRESH.(attempt := k + 1, tried := sc.line[..k], lastWasDeadline := LastHitDeadline(sc.answers, sc.line, k))
  }

  /** The reports on the first k workers of the line are in, and on nobody else. */
  ghost predicate ReportedThrough(sc: Scenario, circuits: seq<Circuit>, log: seq<seq<Report>>, k: nat)
    requires sc.Valid() && k <= |sc.line|
  {
    && |circuits| == |log| == sc.cfg.workers
    && (forall w: nat | w < sc.cfg.workers && w !in sc.line[..k] ::
          circuits[w] == sc.s.pool.circuits[w] && log[w] == sc.s.log[w])
    && (forall w: nat | w < sc.cfg.workers && w in sc.line[..k] :: log[w] == sc.log[w])
  }

  /** The first k workers of the line have failed and were reported; everything else is as it was. */
  ghost predicate Trying(sc: Scenario, t: Sys, k: nat) {
    && sc.Valid() && k <= |sc.line|
    && Reaches(sc.cfg, sc.s, t, sc.Request())
    && t.queue == sc.s.queue && t.requests == sc.s.requests + [Attempted(sc, k)]
    && t.pool.next == CursorAt(Mask(sc.s.pool.circuits, {}), sc.s.pool.next, k)
    && ReportedThrough(sc, t.pool.circuits, t.log, k)
    && CountsNotes(sc.s.tally, t.tally, sc.names, FailureNotes(sc.names, sc.answers, sc.line, k))
    && (k == 0 ==> t.now == sc.s.now)
    && (k > 0 ==> exists r: Report :: sc.Reports(k - 1, r) && r.Failure? && t.now == r.openedAt)
  }

  lemma Arrival(sc: Scenario) returns (t: Sys)
    requires sc.Valid()
    ensures Trying(sc, t, 0)
  {
    t := Do(sc.cfg, sc.s, Arrive);
    LeadsHere(sc.cfg, sc.s, sc.Request());
    LeadsOn(sc.cfg, sc.s, sc.s, sc.Request(), Arrive);
    CountsNothing(sc.s.tally, sc.names);
    hide Leads, Ring, CountsNotes;
  }

  /** What the pool offers after k failed attempts. */
  lemma OffersNext(sc: Scenario, t: Sys, k: nat)
    requires Trying(sc, t, k)
    ensures Shaped(sc.cfg, t) && sc.Request() < |t.requests| && t.requests[sc.Request()] == Attempted(sc, k)
    ensures Choice(t.pool, Elements(sc.line[..k])) == if k < |sc.line| then Some(sc.line[k]) else None
  {
    hide Leads, Ring, Mask, Pick, CursorAt, LastHitDeadline, Choice, Replay;
    NextFollowsRing(sc.s.pool, t.pool, k, Elements(sc.line[..k]));
  }

  lemma ChooseGives(cfg: Config, t: Sys, r: nat, q: Request, w: nat)
    requires Shaped(cfg, t) && r < |t.requests| && t.requests[r] == q && q.phase.Choosing?
    requires q.attempt <= cfg.maxAttempts && Choice(t.pool, Elements(q.tried)) == Some(w)
    ensures Do(cfg, t, Choose(r)) ==
            t.(pool := t.pool.(next := Successor(w, |t.pool.circuits|)),
               requests := t.requests[r := q.(phase := Calling(w), tried := q.tried + [w])])
  {
    assert (set x | x in q.tried) == Elements(q.tried);
    hide Choice, Elements, Successor;
  }

  lemma ReplaceLast(requests: seq<Request>, q: Request, p: Request)
    ensures (requests + [q])[|requests| := p] == requests + [p]
    ensures (requests + [p])[..|requests|] == requests
  {
  }

  lemma ExtendPrefix(line: seq<nat>, k: nat)
    requires k < |line|
    ensures line[..k] + [line[k]] == line[..k + 1]
  {
  }

  /** From t to u one report on w came in, and only request r changed. */
  ghost predicate ReportedOn(t: Sys, u: Sys, r: nat, w: nat, report: Report)
    requires w < |t.log| == |t.pool.circuits| && r < |t.requests|
  {
    && |u.log| == |t.log| && u.log == t.log[w := t.log[w] + [report]]
    && |u.pool.circuits| == |t.pool.circuits|
    && u.pool == t.pool.(circuits := t.pool.circuits[w := u.pool.circuits[w]])
    && u.queue == t.queue && |u.requests| == |t.requests| && u.requests == t.requests[r := u.requests[r]]
  }

  /** The step lets request r go on from t to u, which keeps circuits and logs in agreement. */
  lemma GoesOn(cfg: Config, s: Sys, t: Sys, r: nat, step: Step)
    requires Reaches(cfg, s, t, r) && Enabled(t, step) && ActsOn(step, r)
    ensures Reaches(cfg, s, Do(cfg, t, step), r)
  {
    hide Do, Leads, Enabled, ActsOn;
    LeadsOn(cfg, s, t, r, step);
    LogStep(cfg, t, step);
  }

  /** A failing attempt, reported and noted. */
  lemma FailTurn(cfg: Config, s: Sys, t: Sys, r: nat, w: nat, kind: FailureKind, deadline: bool, report: Report) returns (u: Sys)
    requires Reaches(cfg, s, t, r) && r < |t.requests| && w < cfg.workers
    requires t.requests[r].phase == Calling(w)
    requires report.Failure? && report.message.Some? && t.now <= report.at <= report.openedAt
    requires kind.ServerError? ==> kind.status >= 500 && report.message.value == "upstream status " + Decimal(kind.status)
    ensures Reaches(cfg, s, u, r) && ReportedOn(t, u, r, w, report) && u.now == report.openedAt
    ensures NotedOn(t.tally, u.tally, w, if kind.TransportError? then TransportErrorSeen else ServerErrorSeen)
    ensures var q := t.requests[r];
            u.requests[r] == q.(phase := Choosing, attempt := q.attempt + 1,
                                lastWasDeadline := kind.TransportError? && deadline)
  {
    var fails := AttemptFails(r, kind, deadline, report.message.value, report.at, report.openedAt);
    var failed := Do(cfg, t, fails);
    GoesOn(cfg, s, t, r, fails);
    u := Do(cfg, failed, Observe(r));
    GoesOn(cfg, s, failed, r, Observe(r));
    hide Leads, Apply, Replay, Decimal;
  }

  /** An answer, reported, noted and committed. */
  lemma AnswerTurn(cfg: Config, s: Sys, t: Sys, r: nat, w: nat, status: nat, body: Upstream, at: Time) returns (u: Sys)
    requires Reaches(cfg, s, t, r) && r < |t.requests| && w < cfg.workers
    requires t.requests[r].phase == Calling(w) && status < 500 && t.now <= at
    ensures Reaches(cfg, s, u, r) && ReportedOn(t, u, r, w, Success(at)) && u.now == at
    ensures NotedOn(t.tally, u.tally, w, SuccessSeen)
    ensures var q := t.requests[r];
            u.requests[r] == q.(phase := Relaying(w, body), statuses := q.statuses + [status],
                                reply := Relayed(status, w, q.attempt, body))
  {
    var answers := AttemptAnswers(r, status, body, at);
    var answered := Do(cfg, t, answers);
    GoesOn(cfg, s, t, r, answers);
    u := Do(cfg, answered, Observe(r));
    GoesOn(cfg, s, answered, r, Observe(r));
    hide Leads, Apply, Replay;
  }

  /** A broken stream, reported and noted. */
  lemma BreakTurn(cfg: Config, s: Sys, t: Sys, r: nat, w: nat, report: Report) returns (u: Sys)
    requires Reaches(cfg, s, t, r) && r < |t.requests| && w < cfg.workers
    requires t.requests[r].phase.Severed? && t.requests[r].phase.worker == w
    requires report.Failure? && report.message == Some(t.requests[r].phase.reason)
    requires t.now <= report.at <= report.openedAt
    ensures Reaches(cfg, s, u, r) && ReportedOn(t, u, r, w, report)
    ensures NotedOn(t.tally, u.tally, w, StreamErrorSeen)
    ensures u.requests[r] == t.requests[r].(phase := Done)
  {
    var breaks := ReportBreak(r, report.at, report.openedAt);
    var broken := Do(cfg, t, breaks);
    GoesOn(cfg, s, t, r, breaks);
    u := Do(cfg, broken, Observe(r));
    GoesOn(cfg, s, broken, r, Observe(r));
    hide Leads, Apply, Replay;
  }

  /** The first k workers of the line each failed once, in turn, and no earlier than `from`. */
  ghost predicate Failing(sc: Scenario, k: nat, from: Time, until: Time)
    requires sc.Valid() && k <= |sc.line|
  {
    && sc.s.now <= from && k <= sc.cfg.maxAttempts && InTurn(sc.line, k, sc.s.log, sc.log)
    && forall i | 0 <= i < k ::
         var answer := sc.answers[sc.line[i]];
         && (answer.Failed? || answer.status >= 500)
         && FailedOnce(sc.s.log[sc.line[i]], sc.log[sc.line[i]], answer.Fault(), from, until)
  }

  /** The clock has not passed the next report's stamp. */
  lemma NextStamp(sc: Scenario, t: Sys, k: nat, from: Time, report: Report)
    requires Trying(sc, t, k) && sc.Reports(k, report)
    requires InTurn(sc.line, k + 1, sc.s.log, sc.log) && sc.s.now <= from <= report.at
    ensures t.now <= report.at
  {
    hide Leads, Ring, Mask, CircuitsFollowLogs, Distinct, CursorAt;
    if k > 0 {
      assert Follows(sc.line[k - 1], sc.line[k], sc.s.log, sc.log);
    }
  }

  /** The request as it looks while it calls the worker ranked k. */
  ghost function Called(sc: Scenario, k: nat): Request
    requires sc.Valid() && k < |sc.line|
  {
    Attempted(sc, k).(phase := Calling(sc.line[k]), tried := sc.line[..k + 1])
  }

  /** The loop head hands out the next worker of the line. */
  lemma NextCall(sc: Scenario, t: Sys, k: nat) returns (u: Sys)
    requires Trying(sc, t, k) && k < |sc.line| && k < sc.cfg.maxAttempts
    ensures Reaches(sc.cfg, sc.s, u, sc.Request())
    ensures u == t.(pool := t.pool.(next := CursorAt(Mask(sc.s.pool.circuits, {}), sc.s.pool.next, k + 1)),
                    requests := sc.s.requests + [Called(sc, k)])
    ensures u.requests[sc.Request()].phase == Calling(sc.line[k])
    ensures sc.line[k] < |u.log| == |u.pool.circuits|
  {
    var r, q := sc.Request(), Attempted(sc, k);
    OffersNext(sc, t, k);
    assert CursorAt(Mask(sc.s.pool.circuits, {}), sc.s.pool.next, k + 1) == Successor(sc.line[k], |t.pool.circuits|);
    u := Do(sc.cfg, t, Choose(r));
    hide Do, Leads, Ring, Mask, Pick, CursorAt, Replay, LastHitDeadline, Choice, Elements, Successor, ReportedThrough;
    ChooseGives(sc.cfg, t, r, q, sc.line[k]);
    ExtendPrefix(sc.line, k);
    ReplaceLast(sc.s.requests, q, Called(sc, k));
    GoesOn(sc.cfg, sc.s, t, r, Choose(r));
  }

  lemma CalledThenFailed(sc: Scenario, k: nat)
    requires sc.Valid() && k < |sc.line|
    ensures var answer := sc.answers[sc.line[k]];
            Called(sc, k).(phase := Choosing, attempt := Called(sc, k).attempt + 1,
                           lastWasDeadline := answer.Failed? && answer.deadline) == Attempted(sc, k + 1)
  {
    hide Ring, Mask, CircuitsFollowLogs, Distinct;
  }

  lemma OneMoreReported(sc: Scenario, circuits: seq<Circuit>, log: seq<seq<Report>>, k: nat, c: Circuit)
    requires sc.Valid() && k < |sc.line| && ReportedThrough(sc, circuits, log, k)
    ensures sc.line[k] < |circuits| == |log| && log[sc.line[k]] == sc.s.log[sc.line[k]]
    ensures ReportedThrough(sc, circuits[sc.line[k] := c], log[sc.line[k] := sc.log[sc.line[k]]], k + 1)
  {
    hide Ring, Mask, CircuitsFollowLogs;
    ExtendPrefix(sc.line, k);
    assert sc.line[k] !in sc.line[..k];
    assert forall w: nat :: w in sc.line[..k + 1] <==> w in sc.line[..k] || w == sc.line[k];
  }

  lemma NoteAfterFailure(sc: Scenario, tally: seq<Tally>, after: seq<Tally>, k: nat)
    requires sc.Valid() && k < |sc.line|
    requires CountsNotes(sc.s.tally, tally, sc.names, FailureNotes(sc.names, sc.answers, sc.line, k))
    requires NotedOn(tally, after, sc.line[k],
                     if sc.answers[sc.line[k]].Failed? then TransportErrorSeen else ServerErrorSeen)
    ensures CountsNotes(sc.s.tally, after, sc.names, FailureNotes(sc.names, sc.answers, sc.line, k + 1))
  {
    hide Ring, Mask, CircuitsFollowLogs, CountsNotes, NotedOn;
    var seen := if sc.answers[sc.line[k]].Failed? then TransportErrorSeen else ServerErrorSeen;
    assert FailureNotes(sc.names, sc.answers, sc.line, k + 1) ==
           FailureNotes(sc.names, sc.answers, sc.line, k) + [Note(sc.names[sc.line[k]], seen)];
    CountsOneMore(sc.s.tally, tally, after, sc.names, FailureNotes(sc.names, sc.answers, sc.line, k), sc.line[k], seen);
  }

  /** The report on the worker ranked k makes k attempts k + 1. */
  lemma OneMoreTried(sc: Scenario, t: Sys, calling: Sys, u: Sys, k: nat, report: Report)
    requires Trying(sc, t, k) && k < |sc.line| && sc.Reports(k, report) && report.Failure?
    requires calling == t.(pool := t.pool.(next := CursorAt(Mask(sc.s.pool.circuits, {}), sc.s.pool.next, k + 1)),
                           requests := sc.s.requests + [Called(sc, k)])
    requires Reaches(sc.cfg, sc.s, u, sc.Request())
    requires sc.line[k] < |calling.log| == |calling.pool.circuits|
    requires ReportedOn(calling, u, sc.Request(), sc.line[k], report) && u.now == report.openedAt
    requires u.requests[sc.Request()] == Attempted(sc, k + 1)
    requires sc.log[sc.line[k]] == sc.s.log[sc.line[k]] + [report]
    requires NotedOn(calling.tally, u.tally, sc.line[k],
                     if sc.answers[sc.line[k]].Failed? then TransportErrorSeen else ServerErrorSeen)
    ensures Trying(sc, u, k + 1)
  {
    NoteAfterFailure(sc, t.tally, u.tally, k);
    OneMoreReported(sc, t.pool.circuits, t.log, k, u.pool.circuits[sc.line[k]]);
    ReplaceLast(sc.s.requests, Called(sc, k), Attempted(sc, k + 1));
    hide Leads, Ring, Mask, CursorAt, Attempted, Called, ReportedThrough, CircuitsFollowLogs, Distinct, CountsNotes,
      FailureNotes, NotedOn;
  }

  /** The report that the log holds of the worker ranked k. */
  lemma NextFailure(sc: Scenario, t: Sys, k: nat, from: Time, until: Time) returns (report: Report)
    requires Trying(sc, t, k) && k < |sc.line| && Failing(sc, k + 1, from, until)
    ensures sc.Reports(k, report) && report.Failure? && report.message.Some? && t.now <= report.at <= report.openedAt
    ensures sc.log[sc.line[k]] == sc.s.log[sc.line[k]] + [report]
    ensures var answer := sc.answers[sc.line[k]];
            answer.Failed? || (answer.status >= 500 && report.message.value == "upstream status " + Decimal(answer.status))
  {
    hide Ring, Mask, Replay, Distinct, Decimal, InTurn, Leads, CursorAt, ReportedThrough, Attempted;
    var w := sc.line[k];
    assert FailedOnce(sc.s.log[w], sc.log[w], sc.answers[w].Fault(), from, until);
    report := sc.log[w][|sc.s.log[w]|];
    NextStamp(sc, t, k, from, report);
  }

  /** One failing attempt of the loop: choose, fail, note. */
  lemma FailsNext(sc: Scenario, t: Sys, k: nat, from: Time, until: Time) returns (u: Sys)
    requires Trying(sc, t, k) && k < |sc.line| && Failing(sc, k + 1, from, until)
    ensures Trying(sc, u, k + 1)
  {
    var answer := sc.answers[sc.line[k]];
    var report := NextFailure(sc, t, k, from, until);
    var calling := NextCall(sc, t, k);
    hide Leads, Ring, Mask, CursorAt, InTurn, Attempted, CircuitsFollowLogs, Trying, Failing, Distinct, Decimal;
    u := FailTurn(sc.cfg, sc.s, calling, sc.Request(), sc.line[k],
                  if answer.Failed? then TransportError else ServerError(answer.status),
                  answer.Failed? && answer.deadline, report);
    CalledThenFailed(sc, k);
    hide Called;
    OneMoreTried(sc, t, calling, u, k, report);
  }

  lemma FailingBefore(sc: Scenario, k: nat, from: Time, until: Time)
    requires sc.Valid() && 0 < k <= |sc.line| && Failing(sc, k, from, until)
    ensures Failing(sc, k - 1, from, until)
  {
    hide FailedOnce, Follows, CircuitsFollowLogs, Ring, Mask, Distinct;
  }

  lemma {:induction false} FailsAll(sc: Scenario, k: nat, from: Time, until: Time) returns (t: Sys)
    requires sc.Valid() && k <= |sc.line| && Failing(sc, k, from, until)
    ensures Trying(sc, t, k)
    decreases k
  {
    hide Trying, Failing, Scenario.Valid;
    if k == 0 {
      t := Arrival(sc);
    } else {
      FailingBefore(sc, k, from, until);
      var before := FailsAll(sc, k - 1, from, until);
      t := FailsNext(sc, before, k - 1, from, until);
    }
  }

  // ---------- the whole request ----------

  /** The gateway in state t mirrors a pool whose logs are `log` and whose cursor is past the last worker tried, and an observer with these notes. */
  ghost predicate Mirrors(sc: Scenario, t: Sys, tried: nat, notes: seq<Note>) {
    && sc.Valid() && tried <= |sc.line|
    && Reaches(sc.cfg, sc.s, t, sc.Request())
    && t.log == sc.log && t.queue == sc.s.queue
    && t.pool.next == CursorAt(Mask(sc.s.pool.circuits, {}), sc.s.pool.next, tried)
    && |t.requests| == |sc.s.requests| + 1 && t.requests[..|sc.s.requests|] == sc.s.requests
    && t.requests[sc.Request()].phase.Done? && t.requests[sc.Request()].tried == sc.line[..tried]
    && CountsNotes(sc.s.tally, t.tally, sc.names, notes)
  }

  /** What the client of the new request is told is what the attempt loop returns. */
  ghost predicate Answered(q: Request, result: Result) {
    match result
    case Served(_, status, attempts, sent, err) =>
      && q.reply.Relayed? && q.reply.status == status && q.reply.attempts == attempts
      && q.statuses == [status] && q.sent == sent && (q.broken <==> err.Some?)
    case Error(code) => q.reply == Refused(code) && q.sent == []
  }

  /** The loop head gives up, as attempts or workers have run out; the request's deadline may have passed before. */
  lemma GivesUp(cfg: Config, s: Sys, t: Sys, r: nat, expired: bool) returns (u: Sys)
    requires Reaches(cfg, s, t, r) && r < |t.requests|
    requires t.requests[r].phase.Choosing? && !t.requests[r].expired
    requires t.requests[r].attempt > cfg.maxAttempts || Choice(t.pool, Elements(t.requests[r].tried)).None?
    ensures Reaches(cfg, s, u, r) && SameButRequest(t, u, r)
    ensures u.requests[r] == AfterGivingUp(t.requests[r].(phase := GivingUp, expired := expired))
  {
    var timed := t;
    if expired {
      GoesOn(cfg, s, t, r, Expire(r));
      timed := Do(cfg, t, Expire(r));
    }
    var q := timed.requests[r];
    assert (set x | x in q.tried) == Elements(q.tried);
    var stuck := Do(cfg, timed, Choose(r));
    GoesOn(cfg, s, timed, r, Choose(r));
    u := Do(cfg, stuck, GiveUp(r));
    GoesOn(cfg, s, stuck, r, GiveUp(r));
    hide Leads, Replay, Choice, Elements, FinalCode, StatusOf;
  }

  /** A request that nobody serves ends in the gateway with the code that the loop returns. */
  lemma RefusalIsRun(sc: Scenario, tried: nat, from: Time, until: Time,
                     expired: bool, result: Result, notes: seq<Note>) returns (t: Sys)
    requires sc.Valid() && tried <= sc.cfg.maxAttempts && sc.s.now <= from
    requires RefusedAfter(sc.answers, sc.names, sc.line, tried, sc.s.log, sc.log, from, until, sc.cfg.maxAttempts, expired, result, notes)
    ensures Mirrors(sc, t, tried, notes) && Answered(t.requests[sc.Request()], result)
  {
    var r := sc.Request();
    hide FailedOnce, FailureNotes, InTurn, Follows, Leads, Ring, Mask, CursorAt, Choice, Replay;
    assert Failing(sc, tried, from, until);
    var trying := FailsAll(sc, tried, from, until);
    OffersNext(sc, trying, tried);
    hide Failing;
    assert trying.log == sc.log;
    assert trying.requests[..r] == sc.s.requests;
    hide FailedThrough, ReportedThrough, CountsNotes;
    t := GivesUp(sc.cfg, sc.s, trying, r, expired);
    CountsSame(sc.s.tally, trying.tally, t.tally, sc.names, notes);
  }

  /** Which reports of the serving worker the log holds. */
  lemma ServerReports(before: seq<Report>, log: seq<Report>, err: Option<CopyError>, from: Time, until: Time)
    returns (success: Report, breaks: Option<Report>)
    requires ServedOnce(before, log, err, from, until)
    ensures success == log[|before|] && success.Success? && from <= success.at
    ensures breaks.Some? <==> err.Some?
    ensures log == before + [success] + if breaks.Some? then [breaks.value] else []
    ensures breaks.Some? ==>
              && breaks.value.Failure? && breaks.value.message == Some(Describe(err.value))
              && success.at <= breaks.value.at <= breaks.value.openedAt
  {
    success := log[|before|];
    breaks := if err.Some? then Some(log[|before| + 1]) else None;
  }

  /** A log with the reports of a serving attempt. */
  function WithService(log: seq<Report>, success: Report, breaks: Option<Report>): seq<Report> {
    log + [success] + if breaks.Some? then [breaks.value] else []
  }

  lemma LogTwice(log: seq<seq<Report>>, w: nat, success: Report, breaks: Report)
    requires w < |log|
    ensures var once := log[w := log[w] + [success]];
            once[w := once[w] + [breaks]] == log[w := WithService(log[w], success, Some(breaks))]
    ensures log[w := log[w] + [success]] == log[w := WithService(log[w], success, None)]
  {
    assert log[w] + [success] + [] == log[w] + [success];
  }

  /** The request at the end of a serving attempt. */
  function Ended(q: Request, w: nat, status: nat, body: Upstream, down: Downstream): Request {
    q.(phase := Done, statuses := q.statuses + [status], reply := Relayed(status, w, q.attempt, body),
       sent := Delivered(body, down), broken := Outcome(body, down).Some?)
  }

  /** One success was noted, and one stream error if the stream broke. */
  ghost predicate NotedAsServed(tally: seq<Tally>, after: seq<Tally>, w: nat, broken: bool) {
    exists answered: seq<Tally>, relayed: seq<Tally> ::
      && NotedOn(tally, answered, w, SuccessSeen) && SameNotes(answered, relayed)
      && if broken then NotedOn(relayed, after, w, StreamErrorSeen) else relayed == after
  }

  lemma CountsService(tally: seq<Tally>, middle: seq<Tally>, after: seq<Tally>, names: seq<string>, notes: seq<Note>,
                      w: nat, broken: bool)
    requires CountsNotes(tally, middle, names, notes) && Distinct(names)
    requires w < |names| && NotedAsServed(middle, after, w, broken)
    ensures CountsNotes(tally, after, names, notes + [Note(names[w], SuccessSeen)]
                                             + if broken then [Note(names[w], StreamErrorSeen)] else [])
  {
    hide CountsNotes;
    var answered: seq<Tally>, relayed: seq<Tally> :|
      && NotedOn(middle, answered, w, SuccessSeen) && SameNotes(answered, relayed)
      && if broken then NotedOn(relayed, after, w, StreamErrorSeen) else relayed == after;
    hide NotedOn, SameNotes, Distinct;
    var served := notes + [Note(names[w], SuccessSeen)];
    CountsOneMore(tally, middle, answered, names, notes, w, SuccessSeen);
    CountsSame(tally, answered, relayed, names, served);
    if broken {
      CountsOneMore(tally, relayed, after, names, served, w, StreamErrorSeen);
    } else {
      assert served + [] == served;
    }
  }

  /** A relayed body, followed by the report and the note of a broken stream. */
  lemma RelayTurns(cfg: Config, s: Sys, t: Sys, r: nat, w: nat, body: Upstream, down: Downstream, breaks: Option<Report>)
    returns (u: Sys)
    requires Reaches(cfg, s, t, r) && r < |t.requests| && w < cfg.workers
    requires t.requests[r].phase == Relaying(w, body) && t.requests[r].sent == [] && !t.requests[r].broken
    requires breaks.Some? <==> Outcome(body, down).Some?
    requires breaks.Some? ==>
               && breaks.value.Failure? && breaks.value.message == Some(Describe(Outcome(body, down).value))
               && t.now <= breaks.value.at <= breaks.value.openedAt
    ensures Reaches(cfg, s, u, r)
    ensures u.queue == t.queue && u.pool.next == t.pool.next
    ensures u.log == if breaks.Some? then t.log[w := t.log[w] + [breaks.value]] else t.log
    ensures |u.requests| == |t.requests| && u.requests == t.requests[r := u.requests[r]]
    ensures u.requests[r] == t.requests[r].(phase := Done, sent := Delivered(body, down), broken := Outcome(body, down).Some?)
    ensures exists middle: seq<Tally> :: SameNotes(t.tally, middle) &&
              if breaks.Some? then NotedOn(middle, u.tally, w, StreamErrorSeen) else middle == u.tally
  {
    assert Pieces(body)[..0] == [] && Pieces(body)[0..] == Pieces(body);
    assert RelayedSoFar(t.requests[r], body, down, 0);
    hide Leads, Replay, Outcome, Delivered, Describe, RelayedSoFar;
    u := RelayRun(cfg, s, t, r, body, down, 0);
    if breaks.Some? {
      u := BreakTurn(cfg, s, u, r, w, breaks.value);
    }
  }

  /** The serving turn of the loop: answer, relay and, if the stream broke, report. */
  lemma ServeTurn(cfg: Config, s: Sys, t: Sys, r: nat, w: nat, status: nat, body: Upstream, down: Downstream,
                  success: Report, breaks: Option<Report>) returns (u: Sys)
    requires Reaches(cfg, s, t, r) && r < |t.requests| && w < cfg.workers
    requires t.requests[r].phase == Calling(w) && t.requests[r].sent == [] && !t.requests[r].broken
    requires status < 500 && success.Success? && t.now <= success.at
    requires breaks.Some? <==> Outcome(body, down).Some?
    requires breaks.Some? ==>
               && breaks.value.Failure? && breaks.value.message == Some(Describe(Outcome(body, down).value))
               && success.at <= breaks.value.at <= breaks.value.openedAt
    ensures Reaches(cfg, s, u, r)
    ensures u.queue == t.queue && u.pool.next == t.pool.next
    ensures u.log == t.log[w := WithService(t.log[w], success, breaks)]
    ensures u.requests == t.requests[r := Ended(t.requests[r], w, status, body, down)]
    ensures NotedAsServed(t.tally, u.tally, w, breaks.Some?)
  {
    hide Leads, Replay, Outcome, Delivered, Describe, WithService;
    var relaying := AnswerTurn(cfg, s, t, r, w, status, body, success.at);
    u := RelayTurns(cfg, s, relaying, r, w, body, down, breaks);
    LogTwice(t.log, w, success, if breaks.Some? then breaks.value else success);
  }

  lemma AllReported(sc: Scenario, circuits: seq<Circuit>, log: seq<seq<Report>>, k: nat)
    requires sc.Valid() && k < |sc.line| && ReportedThrough(sc, circuits, log, k)
    requires forall v: nat | v < sc.cfg.workers && v !in sc.line[..k] && v != sc.line[k] :: sc.log[v] == sc.s.log[v]
    ensures sc.line[k] < |log| && log[sc.line[k]] == sc.s.log[sc.line[k]]
    ensures log[sc.line[k] := sc.log[sc.line[k]]] == sc.log
  {
    hide Ring, Mask, Replay;
    assert sc.line[k] !in sc.line[..k];
  }

  /** After the failures before it, the serving worker is called. */
  lemma ReachServer(sc: Scenario, k: nat, from: Time, until: Time, success: Report) returns (calling: Sys)
    requires sc.Valid() && k < |sc.line| && k < sc.cfg.maxAttempts && Failing(sc, k, from, until)
    requires sc.Reports(k, success) && InTurn(sc.line, k + 1, sc.s.log, sc.log) && from <= success.at
    requires forall v: nat | v < sc.cfg.workers && v !in sc.line[..k] && v != sc.line[k] :: sc.log[v] == sc.s.log[v]
    ensures Reaches(sc.cfg, sc.s, calling, sc.Request())
    ensures calling.now <= success.at && calling.queue == sc.s.queue
    ensures calling.pool.next == CursorAt(Mask(sc.s.pool.circuits, {}), sc.s.pool.next, k + 1)
    ensures calling.requests == sc.s.requests + [Called(sc, k)]
    ensures sc.line[k] < |calling.log| && calling.log[sc.line[k]] == sc.s.log[sc.line[k]]
    ensures calling.log[sc.line[k] := sc.log[sc.line[k]]] == sc.log
    ensures CountsNotes(sc.s.tally, calling.tally, sc.names, FailureNotes(sc.names, sc.answers, sc.line, k))
  {
    hide Ring, Mask, Replay, CursorAt, Leads, InTurn, Called, Attempted, ReportedThrough, CountsNotes, FailureNotes;
    var trying := FailsAll(sc, k, from, until);
    AllReported(sc, trying.pool.circuits, trying.log, k);
    NextStamp(sc, trying, k, from, success);
    calling := NextCall(sc, trying, k);
  }

  /** What `ServedBy` says of the serving worker w. */
  lemma ServerFacts(sc: Scenario, tried: nat, from: Time, until: Time,
                    down: Downstream, result: Result, notes: seq<Note>)
    returns (w: nat, success: Report, breaks: Option<Report>)
    requires sc.Valid() && tried <= sc.cfg.maxAttempts && sc.s.now <= from
    requires ServedBy(sc.answers, sc.names, sc.line, tried, sc.s.log, sc.log, from, until, down, result, notes)
    ensures 0 < tried <= |sc.line| && w == sc.line[tried - 1] && sc.answers[w].Serves()
    ensures result.Served? && result.status == sc.answers[w].status && result.attempts == tried
    ensures result.sent == Delivered(sc.answers[w].body, down) && result.err == Outcome(sc.answers[w].body, down)
    ensures Failing(sc, tried - 1, from, until) && InTurn(sc.line, tried, sc.s.log, sc.log)
    ensures forall v: nat | v < sc.cfg.workers && v !in sc.line[..tried - 1] && v != w :: sc.log[v] == sc.s.log[v]
    ensures sc.Reports(tried - 1, success) && success.Success? && from <= success.at
    ensures breaks.Some? <==> result.err.Some?
    ensures notes == FailureNotes(sc.names, sc.answers, sc.line, tried - 1) + [Note(sc.names[w], SuccessSeen)]
                     + if breaks.Some? then [Note(sc.names[w], StreamErrorSeen)] else []
    ensures sc.log[w] == WithService(sc.s.log[w], success, breaks)
    ensures breaks.Some? ==>
              && breaks.value.Failure? && breaks.value.message == Some(Describe(result.err.value))
              && success.at <= breaks.value.at <= breaks.value.openedAt
  {
    w := sc.line[tried - 1];
    hide FailedOnce, Follows, Ring, Mask, Replay, Delivered, Outcome, FailureNotes, ServedOnce;
    assert Failing(sc, tried - 1, from, until);
    hide Failing, FailedThrough, InTurn, Distinct;
    success, breaks := ServerReports(sc.s.log[w], sc.log[w], result.err, from, until);
  }

  /** A request that is served is relayed by the gateway from the same worker, with the same bytes. */
  lemma ServiceIsRun(sc: Scenario, tried: nat, from: Time, until: Time,
                     down: Downstream, result: Result, notes: seq<Note>) returns (t: Sys)
    requires sc.Valid() && tried <= sc.cfg.maxAttempts && sc.s.now <= from
    requires ServedBy(sc.answers, sc.names, sc.line, tried, sc.s.log, sc.log, from, until, down, result, notes)
    ensures Mirrors(sc, t, tried, notes) && Answered(t.requests[sc.Request()], result)
    ensures tried > 0 && t.requests[sc.Request()].reply.worker == sc.line[tried - 1]
  {
    var k, r := tried - 1, sc.Request();
    hide Ring, Mask, Replay, CursorAt, Leads, Delivered, Outcome, Describe, Failing, InTurn, Distinct, ServedBy, CountsNotes, FailureNotes,
      NotedAsServed;
    var w, success, breaks := ServerFacts(sc, tried, from, until, down, result, notes);
    var calling := ReachServer(sc, k, from, until, success);
    var q := Called(sc, k);
    assert q.phase == Calling(w) && q.attempt == tried && q.tried == sc.line[..tried] && q.statuses == [];
    assert calling.requests[r] == q;
    hide Called, Attempted;
    t := ServeTurn(sc.cfg, sc.s, calling, r, w, result.status, sc.answers[w].body, down, success, breaks);
    ReplaceLast(sc.s.requests, q, Ended(q, w, result.status, sc.answers[w].body, down));
    CountsService(sc.s.tally, calling.tally, t.tally, sc.names, FailureNotes(sc.names, sc.answers, sc.line, k), w, breaks.Some?);
  }

  function ConfigOf(proxy: Proxy): Config {
    Config(|proxy.pool.workers|, proxy.pool.Config(), proxy.maxAttempts)
  }

  /** The gateway state s shows the proxy's pool. */
  ghost predicate Reflects(s: Sys, proxy: Proxy)
    reads proxy.pool, proxy.clock
  {
    s.pool == proxy.pool.state && s.log == proxy.pool.log && s.now <= proxy.clock.now
  }

  /** Whichever way the loop ended. */
  lemma LoopIsRun(sc: Scenario, tried: nat, from: Time, until: Time, down: Downstream,
                  expired: bool, result: Result, notes: seq<Note>, pool: PoolState) returns (t: Sys)
    requires sc.Valid() && tried <= |sc.line| && tried <= sc.cfg.maxAttempts && sc.s.now <= from
    requires if result.Served?
             then ServedBy(sc.answers, sc.names, sc.line, tried, sc.s.log, sc.log, from, until, down, result, notes)
             else RefusedAfter(sc.answers, sc.names, sc.line, tried, sc.s.log, sc.log, from, until, sc.cfg.maxAttempts,
                               expired, result, notes)
    requires |pool.circuits| == sc.cfg.workers
    requires forall w | 0 <= w < sc.cfg.workers :: pool.circuits[w] == Replay(sc.cfg.settings, sc.log[w])
    requires pool.next == if tried == 0 then sc.s.pool.next else Successor(sc.line[tried - 1], sc.cfg.workers)
    ensures Mirrors(sc, t, tried, notes) && Answered(t.requests[sc.Request()], result) && t.pool == pool
  {
    hide ServedBy, RefusedAfter, Leads, Ring, Mask, Replay, Answered, Distinct;
    if result.Served? {
      t := ServiceIsRun(sc, tried, from, until, down, result, notes);
    } else {
      t := RefusalIsRun(sc, tried, from, until, expired, result, notes);
    }
    assert t.pool.circuits == pool.circuits;
  }

  lemma RingInRange(mask: seq<bool>, cursor: nat)
    requires cursor < |mask|
    ensures forall i | 0 <= i < |Ring(mask, cursor)| :: Ring(mask, cursor)[i] < |mask|
  {
  }

  lemma MirrorsMeans(sc: Scenario, t: Sys, tried: nat, notes: seq<Note>)
    requires Mirrors(sc, t, tried, notes)
    ensures Leads(sc.cfg, sc.s, t, |sc.s.requests|) && t.log == sc.log && t.queue == sc.s.queue
    ensures |t.requests| == |sc.s.requests| + 1 && t.requests[..|sc.s.requests|] == sc.s.requests
    ensures t.requests[|sc.s.requests|].phase.Done? && sc.Request() == |sc.s.requests|
    ensures t.requests[|sc.s.requests|].tried <= sc.line
    ensures CountsNotes(sc.s.tally, t.tally, sc.names, notes)
  {
  }

  lemma OtherLog(cfg: Config, s: Sys, names: seq<string>, answers: seq<Answer>, line: seq<nat>, log: seq<seq<Report>>, later: seq<seq<Report>>)
    requires Scenario(cfg, s, names, answers, line, log).Valid() && |log| == |later|
    ensures Scenario(cfg, s, names, answers, line, later).Valid()
  {
    hide Ring, Mask, CircuitsFollowLogs, Distinct;
  }

  lemma PoolShows(proxy: Proxy)
    requires proxy.pool.Valid()
    ensures |proxy.pool.state.circuits| == |proxy.pool.log| == ConfigOf(proxy).workers
    ensures proxy.pool.state.next == proxy.pool.next
    ensures forall w | 0 <= w < ConfigOf(proxy).workers ::
              proxy.pool.state.circuits[w] == Replay(ConfigOf(proxy).settings, proxy.pool.log[w])
  {
  }

  lemma Prepared(proxy: Proxy, answers: string -> Answer, s: Sys)
    requires proxy.pool.Valid() && proxy.maxAttempts > 0 && Shaped(ConfigOf(proxy), s) && Reflects(s, proxy)
    ensures Scenario(ConfigOf(proxy), s, proxy.Names(), proxy.ByWorker(answers), proxy.Line(), s.log).Valid()
    ensures s.pool == proxy.pool.state && s.log == proxy.pool.log && s.now <= proxy.clock.now
    ensures |s.log| == ConfigOf(proxy).workers == |proxy.pool.workers| && proxy.maxAttempts == ConfigOf(proxy).maxAttempts
    ensures s.pool.next == proxy.pool.next
  {
    RingInRange(Mask(s.pool.circuits, {}), s.pool.next);
    RingIsDistinct(Mask(s.pool.circuits, {}), s.pool.next);
    assert CircuitsFollowLogs(ConfigOf(proxy), s);
    hide Ring, Mask, Replay, Distinct;
  }

  /**
   The loop on the object is a run of the machine. Whatever else is going on in the gateway, if it
   stands still while `ServeHTTP` runs, then some execution in which only the new request acts leads
   from the state that shows the pool before the call to one that shows it afterwards; in it the
   request is done, it tried the workers from the front of the same line, its client got the same answer,
   and the machine's metrics grew by exactly the notes that the loop gave its observer.
   */
  method ServeAsRun(proxy: Proxy, answers: string -> Answer, down: Downstream, expired: bool, ghost s: Sys)
    returns (result: Result, notes: seq<Note>, ghost t: Sys)
    requires proxy.pool.Valid() && proxy.maxAttempts > 0
    requires Shaped(ConfigOf(proxy), s) && Reflects(s, proxy)
    modifies proxy.pool`next, proxy.pool`state, proxy.pool`log, proxy.pool.Records(), proxy.clock
    ensures proxy.pool.Valid() && t.pool == proxy.pool.state && t.log == proxy.pool.log && t.queue == s.queue
    ensures Leads(ConfigOf(proxy), s, t, |s.requests|)
    ensures |t.requests| == |s.requests| + 1 && t.requests[..|s.requests|] == s.requests
    ensures t.requests[|s.requests|].phase.Done? && Answered(t.requests[|s.requests|], result)
    ensures t.requests[|s.requests|].tried <= old(proxy.Line())
    ensures CountsNotes(s.tally, t.tally, proxy.Names(), notes)
  {
    ghost var cfg, from, line := ConfigOf(proxy), proxy.clock.now, proxy.Line();
    Prepared(proxy, answers, s);
    ghost var tried;
    hide *;
    result, notes, tried := proxy.ServeHTTP(answers, down, expired);
    PoolShows(proxy);
    ghost var sc := Scenario(cfg, s, proxy.Names(), proxy.ByWorker(answers), line, proxy.pool.log);
    OtherLog(cfg, s, proxy.Names(), proxy.ByWorker(answers), line, s.log, proxy.pool.log);
    t := LoopIsRun(sc, tried, from, proxy.clock.now, down, expired, result, notes, proxy.pool.state);
    MirrorsMeans(sc, t, tried, notes);
  }
}
