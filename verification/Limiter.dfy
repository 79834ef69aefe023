/**
 The rate limiter: many clients' buckets in one map, with buckets idle for over an hour deleted
 now and then, and when that deletion can be noticed.
 */
module RateLimiter {
  import opened Prelude
  import opened TokenBucket

  const CLEANUP_INTERVAL := 60.0
  const IDLE_LIMIT := 3600.0

  datatype LimiterState = LimiterState(buckets: map<string, Bucket>, lastCleanup: Option<real>)

  const UNUSED := LimiterState(map[], None)

  function Lookup(s: LimiterState, key: string): Option<Bucket> {
    if key in s.buckets then Some(s.buckets[key]) else None
  }

  predicate CleanupDue(s: LimiterState, now: real) {
    s.lastCleanup.None? || now - s.lastCleanup.value >= CLEANUP_INTERVAL
  }

  predicate Idle(b: Bucket, now: real) {
    now - b.lastSeen > IDLE_LIMIT
  }

  function Survivors(buckets: map<string, Bucket>, now: real): map<string, Bucket> {
    map client | client in buckets && !Idle(buckets[client], now) :: buckets[client]
  }

  /** The limiter after one request: the client's bucket is refilled and spent, then idle buckets may go. */
  function Served(rule: Rule, s: LimiterState, key: string, now: real): LimiterState {
    var buckets := s.buckets[key := Spend(Refill(rule, Lookup(s, key), now))];
    if CleanupDue(s, now) then LimiterState(Survivors(buckets, now), Some(now))
    else LimiterState(buckets, s.lastCleanup)
  }

  predicate Allowed(rule: Rule, s: LimiterState, key: string, now: real) {
    Admits(Refill(rule, Lookup(s, key), now))
  }

  /** The limiter object. Its clock reading is passed in; it is taken under the same lock. */
  class Limiter {
    const rule: Rule
    var buckets: map<string, Bucket>
    var lastCleanup: Option<real>

    ghost function State(): LimiterState
      reads this
    {
      LimiterState(buckets, lastCleanup)
    }

    constructor (rate: real, burst: int)
      ensures rule == Rule(rate, burst as real) && State() == UNUSED
    {
      rule := Rule(rate, burst as real);
      buckets, lastCleanup := map[], None;
    }

    /** `Allow`: with a zero rate everything passes and nothing is stored. */
    method Allow(key: string, now: real) returns (allowed: bool)
      modifies this
      ensures rule.rate == 0.0 ==> allowed && State() == old(State())
      ensures rule.rate != 0.0 ==> allowed == Allowed(rule, old(State()), key, now)
      ensures rule.rate != 0.0 ==> State() == Served(rule, old(State()), key, now)
    {
      if rule.rate == 0.0 {
        return true;
      }
      var b: Bucket;
      if key !in buckets {
        b := Bucket(rule.burst, now);
      } else {
        b := buckets[key];
        var earned := (now - b.lastSeen) * rule.rate;
        assert earned == Earned(rule, b.lastSeen, now);
        b := b.(tokens := Min(rule.burst, b.tokens + earned));
        b := b.(lastSeen := now);
      }
      hide Earned, Min;
      allowed := b.tokens >= 1.0;
      if allowed {
        b := b.(tokens := b.tokens - 1.0);
      }
      buckets := buckets[key := b];
      if lastCleanup.None? || now - lastCleanup.value >= CLEANUP_INTERVAL {
        DeleteIdle(now);
        lastCleanup := Some(now);
      }
    }

    /** The cleanup loop: visit every entry, in any order, and delete the idle ones. */
    method DeleteIdle(now: real)
      modifies this`buckets
      ensures buckets == Survivors(old(buckets), now)
    {
      var pending := buckets.Keys;
      while pending != {}
        invariant pending <= buckets.Keys <= old(buckets).Keys
        invariant forall client | client in buckets :: buckets[client] == old(buckets)[client]
        invariant forall client | client in old(buckets) && client !in pending ::
                    client in buckets <==> !Idle(old(buckets)[client], now)
        decreases |pending|
      {
        var client :| client in pending;
        pending := pending - {client};
        if now - buckets[client].lastSeen > IDLE_LIMIT {
          buckets := buckets - {client};
        }
      }
    }
  }

  /** One request of one client. */
  datatype Arrival = Arrival(key: string, at: real)

  ghost predicate InOrder(arrivals: seq<Arrival>) {
    forall i, j | 0 <= i <= j < |arrivals| :: arrivals[i].at <= arrivals[j].at
  }

  /** The shared limiter after a sequence of requests. */
  function Shared(rule: Rule, arrivals: seq<Arrival>): LimiterState {
    if arrivals == [] then UNUSED
    else
      var last := arrivals[|arrivals| - 1];
      Served(rule, Shared(rule, arrivals[..|arrivals| - 1]), last.key, last.at)
  }

  predicate SharedDecision(rule: Rule, arrivals: seq<Arrival>, k: nat)
    requires k < |arrivals|
  {
    Allowed(rule, Shared(rule, arrivals[..k]), arrivals[k].key, arrivals[k].at)
  }

  /** The request times of one client. */
  function Own(arrivals: seq<Arrival>, key: string): seq<real> {
    if arrivals == [] then []
    else
      var last := arrivals[|arrivals| - 1];
      Own(arrivals[..|arrivals| - 1], key) + if last.key == key then [last.at] else []
  }

  /** What a never-deleted bucket that sees only this client's requests decides about request k. */
  predicate IsolatedDecision(rule: Rule, arrivals: seq<Arrival>, k: nat)
    requires k < |arrivals|
  {
    var own := Own(arrivals[..k], arrivals[k].key);
    Decision(rule, own + [arrivals[k].at], |own|)
  }

  lemma OwnExtend(arrivals: seq<Arrival>, a: Arrival, key: string)
    ensures Own(arrivals + [a], key) == Own(arrivals, key) + if a.key == key then [a.at] else []
  {
    assert (arrivals + [a])[..|arrivals|] == arrivals;
  }

  lemma SharedExtend(rule: Rule, arrivals: seq<Arrival>, a: Arrival)
    ensures Shared(rule, arrivals + [a]) == Served(rule, Shared(rule, arrivals), a.key, a.at)
  {
    assert (arrivals + [a])[..|arrivals|] == arrivals;
  }

  lemma {:induction false} OwnInOrder(arrivals: seq<Arrival>, key: string)
    requires InOrder(arrivals)
    ensures Chronological(Own(arrivals, key))
    ensures forall t | t in Own(arrivals, key) :: exists i | 0 <= i < |arrivals| :: arrivals[i].at == t
  {
    if arrivals != [] {
      var front := arrivals[..|arrivals| - 1];
      OwnInOrder(front, key);
      var own := Own(front, key);
      forall i | 0 <= i < |own| ensures own[i] <= arrivals[|arrivals| - 1].at {
        assert own[i] in own;
        var j :| 0 <= j < |front| && front[j].at == own[i];
        assert arrivals[j].at == own[i];
      }
      forall t | t in Own(arrivals, key) ensures exists i | 0 <= i < |arrivals| :: arrivals[i].at == t {
        if t in own {
          var j :| 0 <= j < |front| && front[j].at == t;
          assert arrivals[j].at == t;
        } else {
          assert arrivals[|arrivals| - 1].at == t;
        }
      }
    }
  }

  lemma AfterExtend(rule: Rule, own: seq<real>, now: real)
    ensures After(rule, own + [now]) == Some(Spend(Refill(rule, After(rule, own), now)))
    ensures Decision(rule, own + [now], |own|) == Admits(Refill(rule, After(rule, own), now))
  {
    assert (own + [now])[..|own|] == own;
  }

  /** Parameters as the configuration guarantees them, with the limiter switched on. */
  ghost predicate Positive(rule: Rule) {
    rule.rate > 0.0 && rule.burst >= 1.0
  }

  /**
   The map against the isolated bucket of one client: they agree, or the map has forgotten a
   bucket that has been idle for over an hour.
   */
  ghost predicate Agrees(entry: Option<Bucket>, isolated: Option<Bucket>, now: real) {
    || entry == isolated
    || (entry.None? && isolated.Some? && isolated.value.tokens >= 0.0 && Idle(isolated.value, now))
  }

  /** An hour of refill fills any bucket whose burst it covers, so forgetting it changes nothing. */
  lemma ForgottenIsFull(rule: Rule, entry: Option<Bucket>, isolated: Option<Bucket>, now: real)
    requires Positive(rule) && Earned(rule, 0.0, IDLE_LIMIT) >= rule.burst
    requires Agrees(entry, isolated, now)
    ensures Refill(rule, entry, now) == Refill(rule, isolated, now)
  {
    if entry != isolated {
      EarnedGrows(rule, 0.0, IDLE_LIMIT, isolated.value.lastSeen, now);
      hide Earned;
    }
  }

  /** One request keeps the agreement on every client's bucket. */
  lemma ServedAgrees(rule: Rule, s: LimiterState, a: Arrival, key: string, isolated: Option<Bucket>, now: real)
    requires Positive(rule) && Earned(rule, 0.0, IDLE_LIMIT) >= rule.burst
    requires Agrees(Lookup(s, key), isolated, a.at) && a.at <= now
    requires isolated.Some? ==> isolated.value.tokens >= 0.0
    ensures Agrees(Lookup(Served(rule, s, a.key, a.at), key),
                   if a.key == key then Some(Spend(Refill(rule, isolated, a.at))) else isolated, now)
  {
    ForgottenIsFull(rule, Lookup(s, key), isolated, a.at);
    hide Earned, Min;
  }

  lemma {:induction false} SharedAgrees(rule: Rule, arrivals: seq<Arrival>, key: string, now: real)
    requires Positive(rule) && Earned(rule, 0.0, IDLE_LIMIT) >= rule.burst
    requires InOrder(arrivals) && forall i | 0 <= i < |arrivals| :: arrivals[i].at <= now
    ensures Agrees(Lookup(Shared(rule, arrivals), key), After(rule, Own(arrivals, key)), now)
  {
    if arrivals != [] {
      var front, last := arrivals[..|arrivals| - 1], arrivals[|arrivals| - 1];
      var own := Own(front, key);
      OwnInOrder(front, key);
      SharedAgrees(rule, front, key, last.at);
      if own != [] {
        BucketRange(rule, own);
      }
      assert Own(arrivals, key) == if last.key == key then own + [last.at] else own;
      AfterExtend(rule, own, last.at);
      hide Earned, Refill, Spend, After, Own, Agrees, Served;
      ServedAgrees(rule, Shared(rule, front), last, key, After(rule, own), now);
    }
  }

  /**
   Eviction and isolation: when an hour's refill covers the burst, the shared map with hourly
   deletion decides every request, in every interleaving of clients, as an independent
   never-deleted bucket per client would.
   */
  lemma SharedIsIsolated(rule: Rule, arrivals: seq<Arrival>, k: nat)
    requires Positive(rule) && rule.rate * 3600.0 >= rule.burst
    requires InOrder(arrivals) && k < |arrivals|
    ensures SharedDecision(rule, arrivals, k) == IsolatedDecision(rule, arrivals, k)
  {
    var front, a := arrivals[..k], arrivals[k];
    EarnedIs(rule, 0.0, IDLE_LIMIT);
    SharedAgrees(rule, front, a.key, a.at);
    ForgottenIsFull(rule, Lookup(Shared(rule, front), a.key), After(rule, Own(front, a.key)), a.at);
    AfterExtend(rule, Own(front, a.key), a.at);
  }

  // ---------- the condition is exact ----------

  /** n requests of one client at one instant. */
  function Burst(key: string, at: real, n: nat): (b: seq<Arrival>)
    ensures |b| == n
    ensures forall i | 0 <= i < n :: b[i] == Arrival(key, at)
  {
    seq(n, i => Arrival(key, at))
  }

  /** i requests into its burst, a previously unknown client has i tokens less than the burst. */
  ghost predicate InBurst(rule: Rule, s: LimiterState, key: string, at: real, i: nat) {
    Lookup(s, key) == if i == 0 then None else Some(Bucket(rule.burst - i as real, at))
  }

  lemma BurstStep(rule: Rule, s: LimiterState, key: string, at: real, i: nat)
    requires Positive(rule) && InBurst(rule, s, key, at, i) && (i + 1) as real <= rule.burst
    ensures Allowed(rule, s, key, at) && InBurst(rule, Served(rule, s, key, at), key, at, i + 1)
  {
    assert Earned(rule, at, at) == 0.0;
    hide Earned;
  }

  lemma {:induction false} BurstState(rule: Rule, before: seq<Arrival>, key: string, at: real, i: nat)
    requires Positive(rule) && key !in Shared(rule, before).buckets && i as real <= rule.burst
    ensures InBurst(rule, Shared(rule, before + Burst(key, at, i)), key, at, i)
  {
    if i == 0 {
      assert before + Burst(key, at, 0) == before;
    } else {
      BurstState(rule, before, key, at, i - 1);
      var fewer := before + Burst(key, at, i - 1);
      hide Served, InBurst, Shared;
      BurstSplit(before, key, at, i - 1);
      SharedExtend(rule, fewer, Arrival(key, at));
      BurstStep(rule, Shared(rule, fewer), key, at, i - 1);
    }
  }

  /** A client the map does not know gets its whole burst admitted at once. */
  lemma UnknownClientGetsBurst(rule: Rule, before: seq<Arrival>, key: string, at: real, n: nat, rest: seq<Arrival>, i: nat)
    requires Positive(rule) && key !in Shared(rule, before).buckets && n as real <= rule.burst && i < n
    ensures SharedDecision(rule, before + Burst(key, at, n) + rest, |before| + i)
  {
    var all := before + Burst(key, at, n) + rest;
    assert all[..|before| + i] == before + Burst(key, at, i);
    BurstState(rule, before, key, at, i);
    BurstStep(rule, Shared(rule, before + Burst(key, at, i)), key, at, i);
  }

  function Repeat(t: real, n: nat): (s: seq<real>)
    ensures |s| == n && forall i | 0 <= i < n :: s[i] == t
  {
    seq(n, i => t)
  }

  lemma BurstSplit(before: seq<Arrival>, key: string, at: real, n: nat)
    ensures before + Burst(key, at, n + 1) == before + Burst(key, at, n) + [Arrival(key, at)]
  {
  }

  lemma RepeatSplit(before: seq<real>, at: real, n: nat)
    ensures before + Repeat(at, n + 1) == before + Repeat(at, n) + [at]
  {
  }

  lemma {:induction false} OwnBurst(before: seq<Arrival>, key: string, at: real, n: nat)
    ensures Own(before + Burst(key, at, n), key) == Own(before, key) + Repeat(at, n)
  {
    if n == 0 {
      assert before + Burst(key, at, 0) == before;
      assert Own(before, key) + Repeat(at, 0) == Own(before, key);
    } else {
      hide *;
      OwnBurst(before, key, at, n - 1);
      BurstSplit(before, key, at, n - 1);
      OwnExtend(before + Burst(key, at, n - 1), Arrival(key, at), key);
      RepeatSplit(Own(before, key), at, n - 1);
    }
  }

  ghost predicate DecisionsMatch(rule: Rule, arrivals: seq<Arrival>) {
    forall k: nat | k < |arrivals| :: SharedDecision(rule, arrivals, k) == IsolatedDecision(rule, arrivals, k)
  }

  /** A client spends its burst, another wakes the cleanup after `pause`, the first spends a burst again. */
  ghost function SecondWind(burst: nat, pause: real): seq<Arrival> {
    Burst("a", 0.0, burst) + [Arrival("b", pause)] + Burst("a", pause, burst)
  }

  lemma CleanupForgets(rule: Rule, burst: nat, pause: real)
    requires Positive(rule) && burst >= 1 && burst as real == rule.burst && pause > IDLE_LIMIT
    ensures "a" !in Shared(rule, Burst("a", 0.0, burst) + [Arrival("b", pause)]).buckets
  {
    var first := Burst("a", 0.0, burst);
    assert [] + first == first;
    BurstState(rule, [], "a", 0.0, burst);
    FirstBurstCleansOnce(rule, burst);
    SharedExtend(rule, first, Arrival("b", pause));
  }

  lemma {:induction false} FirstBurstCleansOnce(rule: Rule, n: nat)
    requires n >= 1
    ensures Shared(rule, Burst("a", 0.0, n)).lastCleanup == Some(0.0)
  {
    assert Burst("a", 0.0, n) == Burst("a", 0.0, n - 1) + [Arrival("a", 0.0)];
    SharedExtend(rule, Burst("a", 0.0, n - 1), Arrival("a", 0.0));
    if n == 1 {
      assert Burst("a", 0.0, 0) == [];
    } else {
      FirstBurstCleansOnce(rule, n - 1);
    }
  }

  /** In that sequence the shared limiter admits every request of the first client. */
  lemma SecondWindAdmitted(rule: Rule, burst: nat, pause: real, i: nat)
    requires Positive(rule) && burst >= 1 && burst as real == rule.burst && pause > IDLE_LIMIT && i < burst
    ensures SharedDecision(rule, SecondWind(burst, pause), i)
    ensures SharedDecision(rule, SecondWind(burst, pause), burst + 1 + i)
  {
    var first, second := Burst("a", 0.0, burst), Burst("a", pause, burst);
    var middle := first + [Arrival("b", pause)];
    UnknownClientGetsBurst(rule, [], "a", 0.0, burst, [Arrival("b", pause)] + second, i);
    assert [] + first + ([Arrival("b", pause)] + second) == SecondWind(burst, pause);
    CleanupForgets(rule, burst, pause);
    UnknownClientGetsBurst(rule, middle, "a", pause, burst, [], i);
    assert middle + second + [] == SecondWind(burst, pause);
  }

  /** What the isolated bucket of the first client has seen within its first burst. */
  lemma FirstBurstHistory(burst: nat, pause: real, i: nat)
    requires i <= burst
    ensures Own(SecondWind(burst, pause)[..i], "a") == Repeat(0.0, i)
  {
    OwnBurst([], "a", 0.0, i);
    assert Own([], "a") + Repeat(0.0, i) == Repeat(0.0, i);
    hide Own;
    assert SecondWind(burst, pause)[..i] == [] + Burst("a", 0.0, i);
  }

  /** And within its second burst. */
  lemma SecondBurstHistory(burst: nat, pause: real, i: nat)
    requires i < burst
    ensures Own(SecondWind(burst, pause)[..burst + 1 + i], "a") == Repeat(0.0, burst) + Repeat(pause, i)
  {
    hide Own, Repeat;
    var all, first := SecondWind(burst, pause), Burst("a", 0.0, burst);
    var middle := first + [Arrival("b", pause)];
    FirstBurstHistory(burst, pause, burst);
    assert all[..burst] == first;
    OwnExtend(first, Arrival("b", pause), "a");
    OwnBurst(middle, "a", pause, i);
    assert all[..burst + 1 + i] == middle + Burst("a", pause, i);
  }

  /** The isolated bucket sees a burst at time zero and a burst after the pause. */
  lemma SecondWindIsolated(rule: Rule, burst: nat, pause: real, i: nat)
    requires i < burst
    ensures var times := Repeat(0.0, burst) + Repeat(pause, burst);
            && IsolatedDecision(rule, SecondWind(burst, pause), i) == Decision(rule, times, i)
            && IsolatedDecision(rule, SecondWind(burst, pause), burst + 1 + i) == Decision(rule, times, burst + i)
  {
    hide Own, Decision;
    var times := Repeat(0.0, burst) + Repeat(pause, burst);
    FirstBurstHistory(burst, pause, i);
    SecondBurstHistory(burst, pause, i);
    assert times[..i] == Repeat(0.0, i) && times[..burst + i] == Repeat(0.0, burst) + Repeat(pause, i);
    SameHistorySameDecision(rule, times, i);
    SameHistorySameDecision(rule, times, burst + i);
  }

  lemma SameHistorySameDecision(rule: Rule, times: seq<real>, k: nat)
    requires k < |times|
    ensures Decision(rule, times[..k] + [times[k]], k) == Decision(rule, times, k)
  {
    assert (times[..k] + [times[k]])[..k] == times[..k];
  }

  lemma {:induction false} AllAdmitted(d: seq<bool>, k: nat)
    requires k <= |d| && forall i | 0 <= i < k :: d[i]
    ensures Admitted(d, k) == k
  {
    if k > 0 {
      AllAdmitted(d, k - 1);
    }
  }

  /** If every decision matched, the isolated bucket would admit both bursts. */
  lemma MatchMeansBothBursts(rule: Rule, burst: nat, pause: real, m: nat)
    requires Positive(rule) && burst >= 1 && burst as real == rule.burst && pause > IDLE_LIMIT && m < 2 * burst
    requires DecisionsMatch(rule, SecondWind(burst, pause))
    ensures Decision(rule, Repeat(0.0, burst) + Repeat(pause, burst), m)
  {
    hide SharedDecision, IsolatedDecision, Decision;
    var i := if m < burst then m else m - burst;
    SecondWindAdmitted(rule, burst, pause, i);
    SecondWindIsolated(rule, burst, pause, i);
    var k := if m < burst then i else burst + 1 + i;
    assert SharedDecision(rule, SecondWind(burst, pause), k) == IsolatedDecision(rule, SecondWind(burst, pause), k);
  }

  /** If an hour's refill does not cover the burst, forgetting a bucket is noticed. */
  lemma EvictionNoticed(rule: Rule, burst: nat, pause: real)
    requires Positive(rule) && burst >= 1 && burst as real == rule.burst
    requires pause > 3600.0 && rule.rate * pause < rule.burst
    ensures !DecisionsMatch(rule, SecondWind(burst, pause))
  {
    EarnedIs(rule, 0.0, pause);
    if DecisionsMatch(rule, SecondWind(burst, pause)) {
      var times := Repeat(0.0, burst) + Repeat(pause, burst);
      var d, last := Decisions(rule, times), 2 * burst - 1;
      forall m: nat | m < 2 * burst ensures d[m] {
        MatchMeansBothBursts(rule, burst, pause, m);
      }
      AllAdmitted(d, last);
      hide DecisionsMatch, Decision, Decisions, Earned, Fits;
      assert Allowance(rule, times, d, 0, last) < 1.0;
      FitsMeansRoom(rule, times, d, last);
      AdmitsExactlyWhatFits(rule, times, last);
    }
  }

  lemma SecondWindInOrder(burst: nat, pause: real)
    requires pause >= 0.0
    ensures InOrder(SecondWind(burst, pause))
  {
  }

  /**
   Deleting idle buckets is invisible on every arrival sequence if and only if an hour's refill
   covers the burst.
   */
  lemma EvictionIsTransparentIff(rule: Rule, burst: nat)
    requires Positive(rule) && burst as real == rule.burst
    ensures (forall arrivals | InOrder(arrivals) :: DecisionsMatch(rule, arrivals))
            <==> rule.rate * 3600.0 >= rule.burst
  {
    if rule.rate * IDLE_LIMIT >= rule.burst {
      forall arrivals | InOrder(arrivals) ensures DecisionsMatch(rule, arrivals) {
        forall k: nat | k < |arrivals|
          ensures SharedDecision(rule, arrivals, k) == IsolatedDecision(rule, arrivals, k)
        {
          SharedIsIsolated(rule, arrivals, k);
        }
      }
    } else {
      var pause := (IDLE_LIMIT + rule.burst / rule.rate) / 2.0;
      PauseIsShort(rule, pause);
      EarnedIs(rule, 0.0, pause);
      EvictionNoticed(rule, burst, pause);
      SecondWindInOrder(burst, pause);
    }
  }

  lemma PositiveFactor(a: real, b: real)
    requires b > 0.0 && a * b > 0.0
    ensures a > 0.0
  {
  }

  /** Halfway between the idle limit and the time a full refill takes. */
  lemma PauseIsShort(rule: Rule, pause: real)
    requires Positive(rule) && rule.rate * IDLE_LIMIT < rule.burst
    requires pause == (IDLE_LIMIT + rule.burst / rule.rate) / 2.0
    ensures pause > IDLE_LIMIT && Earned(rule, 0.0, pause) < rule.burst
  {
    var full := rule.burst / rule.rate;
    assert full * rule.rate == rule.burst;
    assert (full - IDLE_LIMIT) * rule.rate == rule.burst - rule.rate * IDLE_LIMIT;
    PositiveFactor(full - IDLE_LIMIT, rule.rate);
    assert pause < full;
    assert (full - pause) * rule.rate > 0.0;
    assert pause * rule.rate < full * rule.rate;
  }

  // ---------- which buckets go ----------

  /**
   Deletion, exactly: one request leaves every bucket in place while less than a minute has passed
   since the last cleanup; otherwise it removes exactly the buckets last used over an hour ago and
   remembers the time. The client's own bucket stays in either case, and no other bucket changes.
   */
  lemma DeletesExactly(rule: Rule, s: LimiterState, key: string, now: real)
    ensures var t, due := Served(rule, s, key, now), s.lastCleanup == None || now - s.lastCleanup.value >= 60.0;
            && (forall client :: client in t.buckets <==>
                  client == key || (client in s.buckets && !(due && now - s.buckets[client].lastSeen > 3600.0)))
            && (forall client | client in t.buckets && client != key :: t.buckets[client] == s.buckets[client])
            && t.buckets[key].lastSeen == now
            && t.lastCleanup == if due then Some(now) else s.lastCleanup
  {
    hide Earned, Min;
  }

  // ---------- memory ----------

  /** The bookkeeping bounds that hold right after a request served at `now`. */
  ghost predicate Bounded(rule: Rule, s: LimiterState, now: real) {
    && s.lastCleanup.Some? && s.lastCleanup.value <= now && now - s.lastCleanup.value < CLEANUP_INTERVAL
    && forall key | key in s.buckets ::
         && 0.0 <= s.buckets[key].tokens <= rule.burst
         && s.buckets[key].lastSeen <= now
         && s.lastCleanup.value - s.buckets[key].lastSeen <= IDLE_LIMIT
  }

  lemma ServedBounded(rule: Rule, s: LimiterState, key: string, last: real, now: real)
    requires Positive(rule) && last <= now && (s == UNUSED || Bounded(rule, s, last))
    ensures Bounded(rule, Served(rule, s, key, now), now)
  {
    if key in s.buckets {
      EarnedGrows(rule, s.buckets[key].lastSeen, now, s.buckets[key].lastSeen, now);
    }
    hide Earned;
  }

  lemma {:induction false} SharedBounded(rule: Rule, arrivals: seq<Arrival>)
    requires Positive(rule) && InOrder(arrivals) && arrivals != []
    ensures Bounded(rule, Shared(rule, arrivals), arrivals[|arrivals| - 1].at)
  {
    var front, last := arrivals[..|arrivals| - 1], arrivals[|arrivals| - 1];
    if front == [] {
      ServedBounded(rule, UNUSED, last.key, last.at, last.at);
    } else {
      SharedBounded(rule, front);
      ServedBounded(rule, Shared(rule, front), last.key, front[|front| - 1].at, last.at);
    }
  }

  lemma {:induction false} RetainedWasSeen(rule: Rule, arrivals: seq<Arrival>, key: string)
    requires key in Shared(rule, arrivals).buckets
    ensures exists i | 0 <= i < |arrivals| ::
              arrivals[i].key == key && arrivals[i].at == Shared(rule, arrivals).buckets[key].lastSeen
  {
    var front, last := arrivals[..|arrivals| - 1], arrivals[|arrivals| - 1];
    if last.key == key {
      assert Shared(rule, arrivals).buckets[key].lastSeen == last.at;
    } else {
      RetainedWasSeen(rule, front, key);
      var i :| 0 <= i < |front| && front[i].key == key && front[i].at == Shared(rule, front).buckets[key].lastSeen;
      assert arrivals[i] == front[i];
    }
  }

  /** The clients heard from less than 61 minutes before `now`. */
  ghost function RecentClients(arrivals: seq<Arrival>, now: real): set<string> {
    set i | 0 <= i < |arrivals| && now - arrivals[i].at < 3660.0 :: arrivals[i].key
  }

  /**
   Memory: after every request each retained bucket holds between zero and burst tokens and was
   used less than 61 minutes ago, so the map is no larger than the set of clients heard from in
   that span.
   */
  lemma MemoryBound(rule: Rule, arrivals: seq<Arrival>)
    requires Positive(rule) && InOrder(arrivals) && arrivals != []
    ensures var s, now := Shared(rule, arrivals), arrivals[|arrivals| - 1].at;
            && (forall key | key in s.buckets ::
                  && 0.0 <= s.buckets[key].tokens <= rule.burst
                  && now - s.buckets[key].lastSeen < 3660.0)
            && s.buckets.Keys <= RecentClients(arrivals, now)
            && |s.buckets| <= |RecentClients(arrivals, now)|
  {
    var s, now := Shared(rule, arrivals), arrivals[|arrivals| - 1].at;
    SharedBounded(rule, arrivals);
    forall key | key in s.buckets ensures key in RecentClients(arrivals, now) {
      RetainedWasSeen(rule, arrivals, key);
      var i :| 0 <= i < |arrivals| && arrivals[i].key == key && arrivals[i].at == s.buckets[key].lastSeen;
    }
    SubsetCardinality(s.buckets.Keys, RecentClients(arrivals, now));
  }
}
