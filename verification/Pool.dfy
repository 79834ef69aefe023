/** The worker pool: its value-level specification and the mutable object that implements it. */
module WorkerPool {
  import opened Prelude
  import opened Circuit
  import opened Remainder
  import opened Rotation
  import opened RoundRobin

  /** The shared state as a value: one circuit per configured worker and the cursor. */
  datatype PoolState = PoolState(circuits: seq<Circuit>, next: nat) {
    ghost predicate Shaped(n: nat) {
      |circuits| == n && next < n
    }
  }

  /** The workers a call of `Next` may return, given the positions it must skip. */
  function Mask(circuits: seq<Circuit>, excluded: set<nat>): (mask: seq<bool>)
    ensures |mask| == |circuits|
    ensures forall i: nat | i < |circuits| :: mask[i] <==> circuits[i].Eligible() && i !in excluded
  {
    seq(|circuits|, i requires 0 <= i < |circuits| => circuits[i].Eligible() && i !in excluded)
  }

  function Choice(p: PoolState, excluded: set<nat>): (w: Option<nat>)
    requires p.next < |p.circuits|
    ensures w.Some? ==> w.value < |p.circuits| && p.circuits[w.value].Eligible() && w.value !in excluded
    ensures w.None? ==> forall i: nat | i < |p.circuits| && p.circuits[i].Eligible() :: i in excluded
  {
    var mask := Mask(p.circuits, excluded);
    assert forall i | 0 <= i < |mask| && mask[i] :: Pick(mask, p.next).Some?;
    Pick(mask, p.next)
  }

  /** `Next` moves only the cursor, to just past the worker it returns. */
  function Advance(p: PoolState, excluded: set<nat>): PoolState
    requires p.next < |p.circuits|
  {
    match Choice(p, excluded)
    case None => p
    case Some(w) => p.(next := Successor(w, |p.circuits|))
  }

  function Reported(settings: Settings, p: PoolState, w: nat, r: Report): PoolState
    requires w < |p.circuits|
  {
    p.(circuits := p.circuits[w := Apply(settings, p.circuits[w], r)])
  }

  function EligibleCount(circuits: seq<Circuit>): nat {
    if circuits == [] then 0
    else EligibleCount(circuits[..|circuits| - 1]) + if circuits[|circuits| - 1].Eligible() then 1 else 0
  }

  /** What `HealthyCount` returns is the size of the set `Next` chooses from. */
  lemma {:induction false} CountIsCardinality(circuits: seq<Circuit>)
    ensures EligibleCount(circuits) == |Members(Mask(circuits, {}))|
  {
    if circuits == [] {
      assert Members(Mask(circuits, {})) == {};
    } else {
      var k := |circuits| - 1;
      var front := circuits[..k];
      CountIsCardinality(front);
      var mask, fewer := Mask(circuits, {}), Mask(front, {});
      assert forall i: nat | i < k :: mask[i] <==> fewer[i];
      if circuits[k].Eligible() {
        assert Members(mask) == Members(fewer) + {Some(k)};
      } else {
        assert Members(mask) == Members(fewer);
      }
    }
  }

  /** The workers to probe, in configuration order. */
  function Candidates(circuits: seq<Circuit>, now: Time): (s: seq<nat>)
    ensures forall k | 0 <= k < |s| :: s[k] < |circuits| && circuits[s[k]].Probeable(now)
    ensures forall w: nat | w < |circuits| && circuits[w].Probeable(now) :: w in s
    ensures Increasing(s)
  {
    if circuits == [] then []
    else
      var k := |circuits| - 1;
      var rest := Candidates(circuits[..k], now);
      if circuits[k].Probeable(now) then rest + [k] else rest
  }

  lemma CandidatesExtend(circuits: seq<Circuit>, i: nat, now: Time)
    requires i < |circuits|
    ensures Candidates(circuits[..i + 1], now) ==
            Candidates(circuits[..i], now) + if circuits[i].Probeable(now) then [i] else []
  {
    assert circuits[..i + 1][..i] == circuits[..i];
  }

  /** What an operator configures; `parses` says whether the URL parser accepts the address. */
  datatype WorkerConfig = WorkerConfig(name: string, url: string, parses: bool)

  datatype Worker = Worker(name: string, url: string)

  datatype Snapshot = Snapshot(
    name: string, url: string, healthy: bool, state: CircuitState, failures: nat,
    lastCheck: Option<Time>, lastError: string, openUntil: Option<Time>)

  datatype Rejection = NoWorkers | BadSettings | DuplicateName | BadURL

  datatype Built = Accepted(pool: Pool) | Rejected(why: Rejection)

  class WorkerRecord {
    const worker: Worker
    var healthy: bool
    var consecutiveFailures: nat
    var lastCheck: Option<Time>
    var lastError: string
    var circuitOpenUntil: Option<Time>

    constructor (worker: Worker)
      ensures this.worker == worker && Value() == INITIAL
    {
      this.worker := worker;
      healthy, consecutiveFailures, lastCheck, lastError, circuitOpenUntil := false, 0, None, "", None;
    }

    function Value(): Circuit
      reads this
    {
      Circuit(healthy, consecutiveFailures, lastCheck, lastError, circuitOpenUntil)
    }
  }

  class Pool {
    const workers: seq<WorkerRecord>
    var next: nat
    const failureThreshold: nat
    const cooldown: Time
    /** The value of the pool: what the records and the cursor hold. */
    ghost var state: PoolState
    /** Every report each worker has received, oldest first. */
    ghost var log: seq<seq<Report>>

    ghost function Records(): set<WorkerRecord> {
      set i | 0 <= i < |workers| :: workers[i]
    }

    ghost predicate DistinctNames() {
      forall i, j | 0 <= i < j < |workers| :: workers[i].worker.name != workers[j].worker.name
    }

    function Config(): Settings {
      Settings(failureThreshold, cooldown)
    }

    /** Records and cursor hold the state, names identify workers, and the state is what the log implies. */
    ghost predicate Valid()
      reads this, Records()
    {
      && Config().Positive() && DistinctNames()
      && next == state.next < |workers| == |state.circuits| == |log|
      && (forall i | 0 <= i < |workers| :: workers[i].Value() == state.circuits[i])
      && (forall i | 0 <= i < |workers| :: state.circuits[i] == Replay(Config(), log[i]))
    }

    ghost predicate Named(name: string, w: nat) {
      w < |workers| && workers[w].worker.name == name
    }

    /** The positions of the names in a set. */
    ghost function Positions(names: set<string>): (s: set<nat>)
      ensures forall i: nat :: i in s <==> i < |workers| && workers[i].worker.name in names
    {
      set i: nat | i < |workers| && workers[i].worker.name in names
    }

    constructor (workers: seq<WorkerRecord>, failureThreshold: nat, cooldown: Time)
      requires |workers| > 0 && failureThreshold > 0 && cooldown > 0
      requires forall i, j | 0 <= i < j < |workers| :: workers[i].worker.name != workers[j].worker.name
      requires forall i | 0 <= i < |workers| :: workers[i].Value() == INITIAL
      ensures Valid() && this.workers == workers
      ensures this.failureThreshold == failureThreshold && this.cooldown == cooldown
      ensures state == PoolState(seq(|workers|, i => INITIAL), 0) && log == seq(|workers|, i => [])
    {
      this.workers, this.failureThreshold, this.cooldown := workers, failureThreshold, cooldown;
      next := 0;
      state := PoolState(seq(|workers|, i => INITIAL), 0);
      log := seq(|workers|, i => []);
    }

    /**
     `Next`: the eligible worker nearest to the cursor that is not excluded, or nothing exactly
     when there is none. Only the cursor moves.
     */
    method Next(exclude: set<string>) returns (result: Option<Worker>)
      requires Valid()
      modifies this`next, this`state
      ensures Valid()
      ensures state == Advance(old(state), Positions(exclude))
      ensures result == match Choice(old(state), Positions(exclude))
                        case None => None
                        case Some(w) => Some(workers[w].worker)
    {
      var n := |workers|;
      ghost var mask := Mask(state.circuits, Positions(exclude));
      hide PickFrom, Slot, Ahead, Successor;
      for offset := 0 to n
        invariant next == old(next) && state == old(state)
        invariant PickFrom(mask, next, offset) == Pick(mask, next)
      {
        PickStep(mask, next, offset);
        var index := (next + offset) % n;
        var candidate := workers[index];
        if !candidate.healthy || candidate.circuitOpenUntil.Some? || candidate.worker.name in exclude {
          continue;
        }
        SuccessorIsModulo(index, n);
        next := (index + 1) % n;
        state := state.(next := next);
        return Some(candidate.worker);
      }
      return None;
    }

    /** `find`: the record with that name, if there is one. */
    method Find(name: string) returns (index: Option<nat>)
      ensures index.Some? ==> Named(name, index.value)
      ensures index.None? ==> forall i: nat :: !Named(name, i)
    {
      for i := 0 to |workers|
        invariant forall j: nat | j < i :: !Named(name, j)
      {
        if workers[i].worker.name == name {
          return Some(i);
        }
      }
      return None;
    }

    /** `ReportSuccess` closes the circuit of the named worker and touches nothing else. */
    method ReportSuccess(name: string, now: Time)
      requires Valid()
      modifies this`state, this`log, Records()
      ensures Valid()
      ensures forall w: nat | Named(name, w) ::
                && state == Reported(Config(), old(state), w, Success(now))
                && log == old(log)[w := old(log)[w] + [Success(now)]]
      ensures (forall w: nat :: !Named(name, w)) ==> state == old(state) && log == old(log)
    {
      var found := Find(name);
      if found.Some? {
        var record := workers[found.value];
        record.healthy := true;
        record.consecutiveFailures := 0;
        record.lastCheck := Some(now);
        record.lastError := "";
        record.circuitOpenUntil := None;
        Book(found.value, Success(now));
      }
    }

    /** `ReportFailure` counts the failure and opens the circuit at the threshold. */
    method ReportFailure(name: string, failure: Option<string>, at: Time, openedAt: Time)
      requires Valid()
      modifies this`state, this`log, Records()
      ensures Valid()
      ensures forall w: nat | Named(name, w) ::
                && state == Reported(Config(), old(state), w, Failure(at, openedAt, failure))
                && log == old(log)[w := old(log)[w] + [Failure(at, openedAt, failure)]]
      ensures (forall w: nat :: !Named(name, w)) ==> state == old(state) && log == old(log)
    {
      var found := Find(name);
      if found.Some? {
        var record := workers[found.value];
        record.consecutiveFailures := record.consecutiveFailures + 1;
        record.lastCheck := Some(at);
        if failure.Some? {
          record.lastError := failure.value;
        }
        if record.consecutiveFailures >= failureThreshold {
          record.healthy := false;
          record.circuitOpenUntil := Some(openedAt + cooldown);
        }
        Book(found.value, Failure(at, openedAt, failure));
      }
    }

    /** After a record was updated, enter the report that explains the update. */
    ghost method Book(w: nat, r: Report)
      requires Config().Positive() && DistinctNames()
      requires w < |workers| == |state.circuits| == |log| && next == state.next < |workers|
      requires workers[w].Value() == Apply(Config(), state.circuits[w], r)
      requires forall i | 0 <= i < |workers| && i != w :: workers[i].Value() == state.circuits[i]
      requires forall i | 0 <= i < |workers| :: state.circuits[i] == Replay(Config(), log[i])
      modifies this`state, this`log
      ensures Valid()
      ensures state == Reported(Config(), old(state), w, r) && log == old(log)[w := old(log)[w] + [r]]
    {
      ReplayExtends(Config(), log[w], r);
      state := Reported(Config(), state, w, r);
      log := log[w := log[w] + [r]];
    }

    /** The result names the workers at these positions, in this order. */
    ghost predicate Names(result: seq<Worker>, positions: seq<nat>) {
      && |result| == |positions|
      && forall k | 0 <= k < |positions| :: positions[k] < |workers| && result[k] == workers[positions[k]].worker
    }

    method ProbeCandidates(now: Time) returns (result: seq<Worker>)
      requires Valid()
      ensures Names(result, Candidates(state.circuits, now)) && Increasing(Candidates(state.circuits, now))
    {
      assert Candidates(state.circuits[..0], now) == [];
      assert |workers| == |state.circuits|;
      assert forall i | 0 <= i < |workers| ::
          state.circuits[i].Probeable(now) <==>
          (workers[i].circuitOpenUntil.None? || now >= workers[i].circuitOpenUntil.value);
      result := [];
      ghost var cs := Candidates(state.circuits[..0], now);
      hide *;
      NamesNobody();
      for i := 0 to |workers|
        invariant cs == Candidates(state.circuits[..i], now) && Names(result, cs)
      {
        CandidatesExtend(state.circuits, i, now);
        var record := workers[i];
        if record.circuitOpenUntil.None? || now >= record.circuitOpenUntil.value {
          NamesOneMore(result, cs, i);
          result := result + [record.worker];
          cs := cs + [i];
        }
      }
      assert state.circuits[..|workers|] == state.circuits;
    }

    lemma NamesNobody()
      ensures Names([], [])
    {
    }

    lemma NamesOneMore(result: seq<Worker>, positions: seq<nat>, i: nat)
      requires Names(result, positions) && i < |workers|
      ensures Names(result + [workers[i].worker], positions + [i])
    {
    }

    method HealthyCount() returns (count: nat)
      requires Valid()
      ensures count == |Members(Mask(state.circuits, {}))|
    {
      count := 0;
      for i := 0 to |workers|
        invariant count == EligibleCount(state.circuits[..i])
      {
        assert state.circuits[..i + 1][..i] == state.circuits[..i];
        if workers[i].healthy && workers[i].circuitOpenUntil.None? {
          count := count + 1;
        }
      }
      assert state.circuits[..|workers|] == state.circuits;
      CountIsCardinality(state.circuits);
    }

    /** What the admin API shows of worker i, and what routing and probing make of it. */
    ghost predicate Shows(i: nat, view: Snapshot, now: Time)
      reads this`state
    {
      && i < |workers| == |state.circuits|
      && var c := state.circuits[i];
         && view.name == workers[i].worker.name && view.url == workers[i].worker.url
         && Circuit(view.healthy, view.failures, view.lastCheck, view.lastError, view.openUntil) == c
         && (view.state == Closed <==> c.Eligible())
         && (view.state != Open <==> c.Probeable(now))
    }

    method TakeSnapshot(now: Time) returns (result: seq<Snapshot>)
      requires Valid()
      ensures |result| == |workers| && forall i | 0 <= i < |workers| :: Shows(i, result[i], now)
    {
      result := [];
      for i := 0 to |workers|
        invariant |result| == i && forall k | 0 <= k < i :: Shows(k, result[k], now)
      {
        var record := workers[i];
        var circuitState := Closed;
        if record.circuitOpenUntil.Some? && now < record.circuitOpenUntil.value {
          circuitState := Open;
        } else if !record.healthy {
          circuitState := Probing;
        }
        ViewsAgree(Config(), log[i], now);
        result := result + [Snapshot(record.worker.name, record.worker.url, record.healthy, circuitState,
                                     record.consecutiveFailures, record.lastCheck, record.lastError,
                                     record.circuitOpenUntil)];
      }
    }
  }

  /** The names up to position k are pairwise different and their URLs parse. */
  ghost predicate Loadable(configs: seq<WorkerConfig>, k: nat)
    requires k <= |configs|
  {
    && (forall i, j | 0 <= i < j < k :: configs[i].name != configs[j].name)
    && (forall i | 0 <= i < k :: configs[i].parses)
  }

  ghost predicate RepeatsEarlierName(configs: seq<WorkerConfig>, k: nat)
    requires k < |configs|
  {
    exists i | 0 <= i < k :: configs[i].name == configs[k].name
  }

  /**
   `NewPool` accepts exactly the nonempty configurations with positive circuit settings, distinct
   names and parseable URLs; otherwise the first offending check decides the error.
   */
  method NewPool(configs: seq<WorkerConfig>, failureThreshold: int, cooldown: Time) returns (result: Built)
    ensures result.Accepted? <==>
              configs != [] && failureThreshold > 0 && cooldown > 0 && Loadable(configs, |configs|)
    ensures result.Accepted? ==>
              && result.pool.Valid() && fresh(result.pool) && fresh(result.pool.Records())
              && result.pool.Config() == Settings(failureThreshold, cooldown)
              && |result.pool.workers| == |configs| && result.pool.state == PoolState(seq(|configs|, i => INITIAL), 0)
              && (forall i | 0 <= i < |configs| ::
                    result.pool.workers[i].worker == Worker(configs[i].name, configs[i].url))
    ensures result.Rejected? ==>
              match result.why
              case NoWorkers => configs == []
              case BadSettings => configs != [] && (failureThreshold <= 0 || cooldown <= 0)
              case DuplicateName => exists k | 0 <= k < |configs| :: Loadable(configs, k) && RepeatsEarlierName(configs, k)
              case BadURL => exists k | 0 <= k < |configs| ::
                               Loadable(configs, k) && !RepeatsEarlierName(configs, k) && !configs[k].parses
  {
    if |configs| == 0 {
      return Rejected(NoWorkers);
    }
    if failureThreshold <= 0 || cooldown <= 0 {
      return Rejected(BadSettings);
    }
    var records: seq<WorkerRecord> := [];
    var seen: set<string> := {};
    for k := 0 to |configs|
      invariant |records| == k && Loadable(configs, k)
      invariant seen == set i | 0 <= i < k :: configs[i].name
      invariant forall i | 0 <= i < k ::
                  fresh(records[i]) && records[i].Value() == INITIAL &&
                  records[i].worker == Worker(configs[i].name, configs[i].url)
    {
      if configs[k].name in seen {
        assert RepeatsEarlierName(configs, k);
        return Rejected(DuplicateName);
      }
      seen := seen + {configs[k].name};
      if !configs[k].parses {
        assert !RepeatsEarlierName(configs, k);
        return Rejected(BadURL);
      }
      var record := new WorkerRecord(Worker(configs[k].name, configs[k].url));
      records := records + [record];
    }
    var pool := new Pool(records, failureThreshold, cooldown);
    return Accepted(pool);
  }
}
