/** One worker's circuit: how reports change it and why its state is a function of their log. */
module Circuit {
  import opened Prelude

  datatype Settings = Settings(threshold: nat, cooldown: Time) {
    predicate Positive() {
      threshold > 0 && cooldown > 0
    }
  }

  datatype Circuit = Circuit(
    healthy: bool, failures: nat, lastCheck: Option<Time>, lastError: string, openUntil: Option<Time>)
  {
    /** What `Next` requires of a worker. */
    predicate Eligible() {
      healthy && openUntil.None?
    }

    /** What `ProbeCandidates` requires of a worker at one clock reading. */
    predicate Probeable(now: Time) {
      openUntil.None? || now >= openUntil.value
    }

    function State(now: Time): CircuitState {
      if openUntil.Some? && now < openUntil.value then Open
      else if !healthy then Probing
      else Closed
    }
  }

  datatype CircuitState = Open | Probing | Closed

  const INITIAL := Circuit(false, 0, None, "", None)

  /**
   What a caller reports. A failure reads the clock twice inside the critical section: `at` for
   the check time and `openedAt` for the circuit, so `at <= openedAt`.
   */
  datatype Report =
    | Success(at: Time)
    | Failure(at: Time, openedAt: Time, message: Option<string>)

  function Apply(settings: Settings, c: Circuit, r: Report): Circuit {
    match r
    case Success(at) => Circuit(true, 0, Some(at), "", None)
    case Failure(at, openedAt, message) =>
      var noted := c.(failures := c.failures + 1, lastCheck := Some(at),
                      lastError := if message.Some? then message.value else c.lastError);
      if noted.failures >= settings.threshold
      then noted.(healthy := false, openUntil := Some(openedAt + settings.cooldown))
      else noted
  }

  function Replay(settings: Settings, log: seq<Report>): Circuit {
    if log == [] then INITIAL
    else Apply(settings, Replay(settings, log[..|log| - 1]), log[|log| - 1])
  }

  lemma ReplayExtends(settings: Settings, log: seq<Report>, r: Report)
    ensures Replay(settings, log + [r]) == Apply(settings, Replay(settings, log), r)
  {
    assert (log + [r])[..|log|] == log;
  }

  /** The last k reports are failures, and a success (or the beginning) precedes them. */
  ghost predicate FailureRun(log: seq<Report>, k: nat) {
    && k <= |log|
    && (forall i | |log| - k <= i < |log| :: log[i].Failure?)
    && (k < |log| ==> log[|log| - k - 1].Success?)
  }

  lemma FailureRunIsLongest(log: seq<Report>, j: nat, k: nat)
    requires FailureRun(log, j) && FailureRun(log, k)
    ensures k <= j
  {
    if j < |log| {
      assert log[|log| - j - 1].Success?;
    }
  }

  /** A log has one failure run, so the run's length is well defined. */
  lemma FailureRunIsUnique(log: seq<Report>, j: nat, k: nat)
    requires FailureRun(log, j) && FailureRun(log, k)
    ensures j == k
  {
    FailureRunIsLongest(log, j, k);
    FailureRunIsLongest(log, k, j);
  }

  ghost predicate EverSucceeded(log: seq<Report>) {
    exists i | 0 <= i < |log| :: log[i].Success?
  }

  /**
   State is a function of the log: the failure count is the length of the current run of failures,
   the worker is healthy exactly when it once succeeded and the run is below the threshold, and
   the circuit is open exactly from the threshold on, until the last failure plus the cooldown.
   */
  lemma {:induction false} LogDeterminesState(settings: Settings, log: seq<Report>)
    requires settings.Positive()
    ensures var c := Replay(settings, log);
            && FailureRun(log, c.failures)
            && (c.healthy <==> EverSucceeded(log) && c.failures < settings.threshold)
            && (c.openUntil.Some? <==> c.failures >= settings.threshold)
            && (c.openUntil.Some? ==>
                  log[|log| - 1].Failure? && c.openUntil.value == log[|log| - 1].openedAt + settings.cooldown)
            && c.lastCheck == (if log == [] then None else Some(log[|log| - 1].at))
  {
    if log != [] {
      var before, last := log[..|log| - 1], log[|log| - 1];
      LogDeterminesState(settings, before);
      if EverSucceeded(before) {
        var i :| 0 <= i < |before| && before[i].Success?;
        assert log[i].Success?;
      }
      assert last.Failure? ==> (EverSucceeded(log) ==> EverSucceeded(before));
    }
  }

  /**
   The error shown is the message of the latest failure that had one, as far back as the last
   success; if no failure of the current run had one, it is empty.
   */
  lemma {:induction false} LastErrorIsLatest(settings: Settings, log: seq<Report>)
    requires settings.Positive()
    ensures var c := Replay(settings, log);
            && c.failures <= |log|
            && (forall i | |log| - c.failures <= i < |log| :: log[i].Failure?)
            && ((forall i | |log| - c.failures <= i < |log| :: log[i].message.None?) ==> c.lastError == "")
            && (forall i | |log| - c.failures <= i < |log| && log[i].message.Some?
                           && (forall j | i < j < |log| :: log[j].Failure? && log[j].message.None?) ::
                  c.lastError == log[i].message.value)
  {
    if log != [] {
      var before, last := log[..|log| - 1], log[|log| - 1];
      LastErrorIsLatest(settings, before);
      assert forall i | 0 <= i < |before| :: before[i] == log[i];
    }
  }

  /**
   The public views agree: eligible for `Next`, healthy, and CLOSED are one set; the probe
   candidates at one clock reading are exactly the workers that are not OPEN; an OPEN worker
   is waiting out a cooldown.
   */
  lemma ViewsAgree(settings: Settings, log: seq<Report>, now: Time)
    requires settings.Positive()
    ensures var c := Replay(settings, log);
            && (c.Eligible() <==> c.State(now) == Closed)
            && (c.Eligible() <==> c.healthy)
            && (c.Probeable(now) <==> c.State(now) != Open)
            && (c.State(now) == Open <==>
                  c.failures >= settings.threshold && now < log[|log| - 1].openedAt + settings.cooldown)
  {
    LogDeterminesState(settings, log);
  }
}
