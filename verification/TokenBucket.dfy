/**
 One client's token bucket: what it admits, stated without tokens, and why no admission rule
 with the same window bound admits more.
 */
module TokenBucket {
  import opened Prelude

  /** Tokens per second and bucket size; times are in seconds. */
  datatype Rule = Rule(rate: real, burst: real)

  datatype Bucket = Bucket(tokens: real, lastSeen: real)

  function Min(a: real, b: real): real {
    if a <= b then a else b
  }

  /** Tokens earned between two instants. */
  function Earned(rule: Rule, since: real, now: real): real {
    (now - since) * rule.rate
  }

  lemma EarnedIs(rule: Rule, since: real, now: real)
    ensures Earned(rule, since, now) == rule.rate * (now - since)
  {
  }

  lemma EarnedAdds(rule: Rule, a: real, b: real, c: real)
    ensures Earned(rule, a, b) + Earned(rule, b, c) == Earned(rule, a, c)
  {
    assert (b - a) * rule.rate + (c - b) * rule.rate == ((b - a) + (c - b)) * rule.rate;
  }

  lemma EarnedGrows(rule: Rule, a: real, b: real, c: real, d: real)
    requires rule.rate >= 0.0 && b - a <= d - c
    ensures Earned(rule, a, b) <= Earned(rule, c, d)
    ensures a <= b ==> Earned(rule, a, b) >= 0.0
  {
    assert ((d - c) - (b - a)) * rule.rate >= 0.0;
    assert a <= b ==> (b - a) * rule.rate >= 0.0;
  }

  /** The bucket as a request finds it: full when unknown, otherwise refilled for the time passed. */
  function Refill(rule: Rule, b: Option<Bucket>, now: real): Bucket {
    match b
    case None => Bucket(rule.burst, now)
    case Some(b) => Bucket(Min(rule.burst, b.tokens + Earned(rule, b.lastSeen, now)), now)
  }

  predicate Admits(b: Bucket) {
    b.tokens >= 1.0
  }

  function Spend(b: Bucket): Bucket {
    if Admits(b) then b.(tokens := b.tokens - 1.0) else b
  }

  /** The bucket after a sequence of requests by its only client. */
  function After(rule: Rule, times: seq<real>): Option<Bucket> {
    if times == [] then None
    else Some(Spend(Refill(rule, After(rule, times[..|times| - 1]), times[|times| - 1])))
  }

  /** The tokens that request k finds. */
  function Found(rule: Rule, times: seq<real>, k: nat): real
    requires k < |times|
  {
    Refill(rule, After(rule, times[..k]), times[k]).tokens
  }

  /** Whether request k is admitted. */
  predicate Decision(rule: Rule, times: seq<real>, k: nat)
    requires k < |times|
  {
    Found(rule, times, k) >= 1.0
  }

  function Decisions(rule: Rule, times: seq<real>): (d: seq<bool>)
    ensures |d| == |times|
    ensures forall k | 0 <= k < |d| :: d[k] == Decision(rule, times, k)
  {
    seq(|times|, k requires 0 <= k < |times| => Decision(rule, times, k))
  }

  ghost predicate Chronological(times: seq<real>) {
    forall i, j | 0 <= i <= j < |times| :: times[i] <= times[j]
  }

  /** How many of the first k requests were admitted. */
  function Admitted(d: seq<bool>, k: nat): nat
    requires k <= |d|
  {
    if k == 0 then 0 else Admitted(d, k - 1) + if d[k - 1] then 1 else 0
  }

  /** What the window that opens at request j leaves for request k. */
  function Allowance(rule: Rule, times: seq<real>, d: seq<bool>, j: nat, k: nat): real
    requires j <= k < |times| == |d|
  {
    rule.burst + Earned(rule, times[j], times[k]) - (Admitted(d, k) - Admitted(d, j)) as real
  }

  lemma FoundStep(rule: Rule, times: seq<real>, k: nat)
    requires k + 1 < |times|
    ensures var left := if Decision(rule, times, k) then Found(rule, times, k) - 1.0 else Found(rule, times, k);
            Found(rule, times, k + 1) == Min(rule.burst, left + Earned(rule, times[k], times[k + 1]))
  {
    assert times[..k + 1][..k] == times[..k];
  }

  lemma AllowanceStep(rule: Rule, times: seq<real>, d: seq<bool>, j: nat, k: nat)
    requires j <= k && k + 1 < |times| == |d|
    ensures Allowance(rule, times, d, j, k + 1) ==
            Allowance(rule, times, d, j, k) - (if d[k] then 1.0 else 0.0) + Earned(rule, times[k], times[k + 1])
  {
    EarnedAdds(rule, times[j], times[k], times[k + 1]);
    hide Earned;
  }

  lemma LatestWindow(rule: Rule, times: seq<real>, d: seq<bool>, k: nat)
    requires k < |times| == |d|
    ensures Allowance(rule, times, d, k, k) == rule.burst
  {
  }

  lemma FirstFindsFull(rule: Rule, times: seq<real>)
    requires |times| > 0
    ensures Found(rule, times, 0) == rule.burst
  {
  }

  lemma {:induction false} LeastAllowance(rule: Rule, times: seq<real>, k: nat) returns (tight: nat)
    requires k < |times|
    ensures tight <= k && Found(rule, times, k) == Allowance(rule, times, Decisions(rule, times), tight, k)
    ensures forall j: nat | j <= k :: Found(rule, times, k) <= Allowance(rule, times, Decisions(rule, times), j, k)
  {
    hide Earned, Allowance, Found, Decisions;
    var d := Decisions(rule, times);
    LatestWindow(rule, times, d, k);
    if k == 0 {
      tight := 0;
      FirstFindsFull(rule, times);
    } else {
      tight := LeastAllowance(rule, times, k - 1);
      FoundStep(rule, times, k - 1);
      AllowanceStep(rule, times, d, tight, k - 1);
      forall j: nat | j <= k ensures Found(rule, times, k) <= Allowance(rule, times, d, j, k) {
        if j < k {
          AllowanceStep(rule, times, d, j, k - 1);
        }
      }
      if Found(rule, times, k) == rule.burst {
        tight := k;
      }
    }
  }

  /** The requests from j to before k that were admitted. */
  ghost function Window(d: seq<bool>, j: nat, k: nat): set<nat>
    requires k <= |d|
  {
    set i: nat | j <= i < k && d[i]
  }

  lemma {:induction false} WindowSize(d: seq<bool>, j: nat, k: nat)
    requires j <= k <= |d|
    ensures |Window(d, j, k)| == Admitted(d, k) - Admitted(d, j)
  {
    if j == k {
      assert Window(d, j, k) == {};
    } else {
      WindowSize(d, j, k - 1);
      if d[k - 1] {
        assert Window(d, j, k) == Window(d, j, k - 1) + {k - 1};
      } else {
        assert Window(d, j, k) == Window(d, j, k - 1);
      }
    }
  }

  /** The allowance, told without the model's own functions. */
  lemma AllowanceIs(rule: Rule, times: seq<real>, d: seq<bool>, j: nat, k: nat)
    requires j <= k < |times| == |d|
    ensures Allowance(rule, times, d, j, k) ==
            rule.burst + rule.rate * (times[k] - times[j]) - |set i: nat | j <= i < k && d[i]| as real
  {
    WindowSize(d, j, k);
    assert Window(d, j, k) == set i: nat | j <= i < k && d[i];
  }

  /**
   Closed form: the stored tokens are, over all windows that end now, the least of the burst plus
   the rate times the window's length minus the requests admitted in it.
   */
  lemma TokensAreLeastAllowance(rule: Rule, times: seq<real>, k: nat) returns (tight: nat)
    requires k < |times|
    ensures tight <= k
    ensures Found(rule, times, k) ==
            rule.burst + rule.rate * (times[k] - times[tight])
            - |set i: nat | tight <= i < k && Decision(rule, times, i)| as real
    ensures forall j: nat | j <= k ::
              Found(rule, times, k) <= rule.burst + rule.rate * (times[k] - times[j])
                                       - |set i: nat | j <= i < k && Decision(rule, times, i)| as real
  {
    var d := Decisions(rule, times);
    tight := LeastAllowance(rule, times, k);
    hide Allowance, Found, Decision, Decisions;
    forall j: nat | j <= k
      ensures Allowance(rule, times, d, j, k) ==
              rule.burst + rule.rate * (times[k] - times[j])
              - |set i: nat | j <= i < k && Decision(rule, times, i)| as real
    {
      AllowanceIs(rule, times, d, j, k);
      assert (set i: nat | j <= i < k && d[i]) == set i: nat | j <= i < k && Decision(rule, times, i);
    }
  }

  /**
   Request k fits: for every request j up to it, those admitted since j and this one together number
   at most the burst plus the rate times the time since j.
   */
  ghost predicate Fits(rule: Rule, times: seq<real>, d: seq<bool>, k: nat)
    requires k < |times| == |d|
  {
    forall j: nat | j <= k ::
      |set i: nat | j <= i < k && d[i]| as real + 1.0 <= rule.burst + rule.rate * (times[k] - times[j])
  }

  lemma FitsMeansRoom(rule: Rule, times: seq<real>, d: seq<bool>, k: nat)
    requires k < |times| == |d|
    ensures Fits(rule, times, d, k) <==> forall j: nat | j <= k :: Allowance(rule, times, d, j, k) >= 1.0
  {
    hide Allowance;
    forall j: nat | j <= k
      ensures Allowance(rule, times, d, j, k) >= 1.0 <==>
              |set i: nat | j <= i < k && d[i]| as real + 1.0 <= rule.burst + rule.rate * (times[k] - times[j])
    {
      AllowanceIs(rule, times, d, j, k);
    }
  }

  /** Exactness: a request is admitted if and only if it fits what was admitted before it. */
  lemma AdmitsExactlyWhatFits(rule: Rule, times: seq<real>, k: nat)
    requires k < |times|
    ensures Decision(rule, times, k) <==> Fits(rule, times, Decisions(rule, times), k)
  {
    var d := Decisions(rule, times);
    var tight := LeastAllowance(rule, times, k);
    FitsMeansRoom(rule, times, d, k);
    hide Allowance, Found, Fits;
  }

  /** An admission choice that keeps the window bound. */
  ghost predicate Conforms(rule: Rule, times: seq<real>, d: seq<bool>) {
    && |d| == |times|
    && forall k: nat | k < |d| && d[k] :: Fits(rule, times, d, k)
  }

  lemma BucketConforms(rule: Rule, times: seq<real>)
    ensures Conforms(rule, times, Decisions(rule, times))
  {
    forall k: nat | k < |times| && Decision(rule, times, k) ensures Fits(rule, times, Decisions(rule, times), k) {
      AdmitsExactlyWhatFits(rule, times, k);
    }
  }

  lemma {:induction false} AdmittedIsGreatest(rule: Rule, times: seq<real>, other: seq<bool>, m: nat)
    requires Conforms(rule, times, other) && m <= |times|
    ensures forall i: nat | i <= m :: Admitted(other, i) <= Admitted(Decisions(rule, times), i)
  {
    hide Earned, Decision, Decisions, Fits;
    var d := Decisions(rule, times);
    if m > 0 {
      AdmittedIsGreatest(rule, times, other, m - 1);
      var k := m - 1;
      if other[k] && !d[k] {
        AdmitsExactlyWhatFits(rule, times, k);
        FitsMeansRoom(rule, times, d, k);
        FitsMeansRoom(rule, times, other, k);
        var j: nat :| j <= k && Allowance(rule, times, d, j, k) < 1.0;
        assert Allowance(rule, times, other, j, k) >= 1.0;
        assert Admitted(other, j) <= Admitted(d, j);
      }
    }
  }

  /**
   Greedy optimality: at every prefix of every arrival sequence the bucket has admitted at least
   as many requests as any other choice that keeps the same window bound.
   */
  lemma BucketIsOptimal(rule: Rule, times: seq<real>, other: seq<bool>, m: nat)
    requires Conforms(rule, times, other) && m <= |times|
    ensures |set i: nat | i < m && other[i]| <= |set i: nat | i < m && Decision(rule, times, i)|
  {
    var d := Decisions(rule, times);
    AdmittedIsGreatest(rule, times, other, m);
    WindowSize(other, 0, m);
    WindowSize(d, 0, m);
    assert (set i: nat | i < m && other[i]) == Window(other, 0, m);
    assert (set i: nat | i < m && Decision(rule, times, i)) == Window(d, 0, m);
  }

  /** How many of the first m requests were admitted at a time within [from, to]. */
  function AdmittedWithin(times: seq<real>, d: seq<bool>, from: real, to: real, m: nat): nat
    requires m <= |times| == |d|
  {
    if m == 0 then 0
    else AdmittedWithin(times, d, from, to, m - 1) + if d[m - 1] && from <= times[m - 1] <= to then 1 else 0
  }

  lemma {:induction false} WindowIsRange(times: seq<real>, d: seq<bool>, from: real, to: real, j: nat, m: nat)
    requires j <= m <= |times| == |d|
    requires forall i | 0 <= i < j :: times[i] < from
    ensures AdmittedWithin(times, d, from, to, m) <= Admitted(d, m) - Admitted(d, j)
  {
    if m > j {
      WindowIsRange(times, d, from, to, j, m - 1);
    } else if m > 0 {
      WindowIsRange(times, d, from, to, j - 1, m - 1);
    }
  }

  lemma {:induction false} FirstAtOrAfter(times: seq<real>, from: real, k: nat) returns (j: nat)
    requires Chronological(times) && k < |times| && from <= times[k]
    ensures j <= k && from <= times[j] && forall i | 0 <= i < j :: times[i] < from
  {
    j := k;
    if k > 0 && from <= times[k - 1] {
      j := FirstAtOrAfter(times, from, k - 1);
    } else if k > 0 {
      assert forall i | 0 <= i < k :: times[i] <= times[k - 1];
    }
  }

  lemma {:induction false} SpanBound(rule: Rule, times: seq<real>, from: real, to: real, m: nat)
    requires Chronological(times) && rule.rate >= 0.0 && rule.burst >= 0.0
    requires from <= to && m <= |times|
    ensures AdmittedWithin(times, Decisions(rule, times), from, to, m) as real <= rule.burst + Earned(rule, from, to)
  {
    hide Decision, Decisions, Fits;
    var d := Decisions(rule, times);
    EarnedGrows(rule, from, to, from, to);
    hide Earned;
    if m > 0 {
      var k := m - 1;
      if d[k] && from <= times[k] <= to {
        var j := FirstAtOrAfter(times, from, k);
        AdmitsExactlyWhatFits(rule, times, k);
        FitsMeansRoom(rule, times, d, k);
        assert Allowance(rule, times, d, j, k) >= 1.0;
        WindowIsRange(times, d, from, to, j, m);
        EarnedGrows(rule, times[j], times[k], from, to);
      } else {
        SpanBound(rule, times, from, to, k);
      }
    }
  }

  lemma {:induction false} SpanSize(times: seq<real>, d: seq<bool>, from: real, to: real, m: nat)
    requires m <= |times| == |d|
    ensures AdmittedWithin(times, d, from, to, m) == |set i: nat | i < m && d[i] && from <= times[i] <= to|
  {
    var span := set i: nat | i < m && d[i] && from <= times[i] <= to;
    if m == 0 {
      assert span == {};
    } else {
      SpanSize(times, d, from, to, m - 1);
      var less := set i: nat | i < m - 1 && d[i] && from <= times[i] <= to;
      if d[m - 1] && from <= times[m - 1] <= to {
        assert span == less + {m - 1};
      } else {
        assert span == less;
      }
    }
  }

  /** Rate limit: any span of time admits at most the burst plus the rate times its length. */
  lemma WindowBound(rule: Rule, times: seq<real>, from: real, to: real)
    requires Chronological(times) && rule.rate >= 0.0 && rule.burst >= 0.0 && from <= to
    ensures |set i: nat | i < |times| && Decision(rule, times, i) && from <= times[i] <= to| as real
            <= rule.burst + rule.rate * (to - from)
  {
    var d := Decisions(rule, times);
    SpanBound(rule, times, from, to, |times|);
    SpanSize(times, d, from, to, |times|);
    EarnedIs(rule, from, to);
    hide Decision, Decisions, AdmittedWithin, Earned;
    assert (set i: nat | i < |times| && d[i] && from <= times[i] <= to) ==
           set i: nat | i < |times| && Decision(rule, times, i) && from <= times[i] <= to;
  }

  /** A bucket's tokens stay between zero and the burst, and it was last seen at its last request. */
  lemma {:induction false} BucketRange(rule: Rule, times: seq<real>)
    requires Chronological(times) && rule.rate >= 0.0 && rule.burst >= 0.0 && times != []
    ensures var b := After(rule, times).value;
            0.0 <= b.tokens <= rule.burst && b.lastSeen == times[|times| - 1]
  {
    if |times| > 1 {
      var front := times[..|times| - 1];
      BucketRange(rule, front);
      EarnedGrows(rule, front[|front| - 1], times[|times| - 1], front[|front| - 1], times[|times| - 1]);
      hide Earned;
    }
  }
}
