/** When the set of selectable workers is fixed the rotation is exact: every member in turn. */
module Rotation {
  import opened Prelude
  import opened RoundRobin

  ghost function Selections(calls: seq<Call>, n: nat): (s: seq<Option<nat>>)
    requires Sized(calls, n)
    ensures |s| == |calls|
    ensures forall k | 0 <= k < |calls| :: s[k] == Selected(calls[k])
  {
    seq(|calls|, k requires 0 <= k < |calls| => Selected(calls[k]))
  }

  ghost function Members(mask: seq<bool>): set<Option<nat>> {
    set i: nat | i < |mask| && mask[i] :: Some(i)
  }

  /** The same nonempty set of workers stays selectable throughout. */
  ghost predicate Steady(calls: seq<Call>, mask: seq<bool>) {
    && Chained(calls, |mask|)
    && Members(mask) != {}
    && forall k | 0 <= k < |calls| :: calls[k].mask == mask
  }

  lemma SelectionsAreMembers(calls: seq<Call>, mask: seq<bool>, k: nat)
    requires Steady(calls, mask) && k < |calls|
    ensures Selected(calls[k]) in Members(mask)
  {
    var some :| some in Members(mask);
    assert mask[some.value];
    assert Selected(calls[k]).Some?;
  }

  /** Some member of E is missing from any fewer than |E| selections. */
  lemma SomeoneWaits(picks: seq<Option<nat>>, mask: seq<bool>) returns (y: Option<nat>)
    requires |picks| < |Members(mask)|
    ensures y in Members(mask) && y !in picks
  {
    ElementsBound(picks);
    if Members(mask) <= Elements(picks) {
      SubsetCardinality(Members(mask), Elements(picks));
    }
    y :| y in Members(mask) && y !in Elements(picks);
  }

  /** Within |E| calls on a steady set E no selection repeats. */
  lemma NoRepeat(calls: seq<Call>, mask: seq<bool>, i: nat, j: nat)
    requires Steady(calls, mask) && i < j < |calls| && j - i < |Members(mask)|
    ensures Selected(calls[i]) != Selected(calls[j])
  {
    hide Pick, Ahead, CursorAfter;
    var n := |mask|;
    if Selected(calls[i]) == Selected(calls[j]) {
      var window := calls[i..j + 1];
      var picks := Selections(window, n);
      var y := SomeoneWaits(picks[..j - i], mask);
      forall k | 0 <= k < |window| ensures Selected(window[k]) != Some(y.value) {
        assert picks[k] in picks[..j - i] by {
          if k < j - i { assert picks[..j - i][k] == picks[k]; } else { assert picks[..j - i][0] == picks[k]; }
        }
      }
      NoDoubleOvertaking(window, n, y.value);
      assert false;
    }
  }

  lemma WindowIsDistinct(calls: seq<Call>, mask: seq<bool>)
    requires Steady(calls, mask) && |calls| <= |Members(mask)|
    ensures Distinct(Selections(calls, |mask|))
  {
    forall i: nat, j: nat | i < j < |calls|
      ensures Selections(calls, |mask|)[i] != Selections(calls, |mask|)[j]
    {
      NoRepeat(calls, mask, i, j);
    }
  }

  /** Exact round robin: every |E| consecutive selections are a permutation of E. */
  lemma WindowIsPermutation(calls: seq<Call>, mask: seq<bool>)
    requires Steady(calls, mask) && |calls| == |Members(mask)|
    ensures Distinct(Selections(calls, |mask|))
    ensures Elements(Selections(calls, |mask|)) == Members(mask)
  {
    var picks := Selections(calls, |mask|);
    WindowIsDistinct(calls, mask);
    DistinctCardinality(picks);
    forall x | x in picks ensures x in Members(mask) {
      var k :| 0 <= k < |picks| && picks[k] == x;
      SelectionsAreMembers(calls, mask, k);
    }
    SubsetCardinality(Elements(picks), Members(mask));
  }

  lemma {:induction false} DistinctMultiplicity<T>(s: seq<T>, x: T)
    requires Distinct(s)
    ensures multiset(s)[x] == if x in s then 1 else 0
  {
    if s != [] {
      var rest := s[..|s| - 1];
      assert s == rest + [s[|s| - 1]];
      DistinctMultiplicity(rest, x);
      assert s[|s| - 1] !in rest;
    }
  }

  /** A permutation of E contains each member once; a shorter window contains it at most once. */
  lemma WindowMultiplicity(calls: seq<Call>, mask: seq<bool>, x: Option<nat>)
    requires Steady(calls, mask) && |calls| <= |Members(mask)| && x in Members(mask)
    ensures multiset(Selections(calls, |mask|))[x] <= 1
    ensures |calls| == |Members(mask)| ==> multiset(Selections(calls, |mask|))[x] == 1
  {
    WindowIsDistinct(calls, mask);
    DistinctMultiplicity(Selections(calls, |mask|), x);
    if |calls| == |Members(mask)| {
      WindowIsPermutation(calls, mask);
      assert x in Elements(Selections(calls, |mask|));
    }
  }

  lemma SteadySplit(calls: seq<Call>, mask: seq<bool>, e: nat, x: Option<nat>)
    requires Steady(calls, mask) && e <= |calls|
    ensures Steady(calls[..e], mask) && Steady(calls[e..], mask)
    ensures multiset(Selections(calls, |mask|))[x] ==
            multiset(Selections(calls[..e], |mask|))[x] + multiset(Selections(calls[e..], |mask|))[x]
  {
    var n := |mask|;
    assert Selections(calls, n) == Selections(calls[..e], n) + Selections(calls[e..], n);
  }

  /** Fairness: after any number of calls on a steady set, selection counts differ by at most one. */
  lemma {:induction false} CountsStayBalanced(calls: seq<Call>, mask: seq<bool>, x: Option<nat>, y: Option<nat>)
    requires Steady(calls, mask) && x in Members(mask) && y in Members(mask)
    ensures multiset(Selections(calls, |mask|))[x] <= multiset(Selections(calls, |mask|))[y] + 1
    decreases |calls|
  {
    var e := |Members(mask)|;
    if |calls| <= e {
      WindowMultiplicity(calls, mask, x);
      WindowMultiplicity(calls, mask, y);
    } else {
      SteadySplit(calls, mask, e, x);
      SteadySplit(calls, mask, e, y);
      WindowMultiplicity(calls[..e], mask, x);
      WindowMultiplicity(calls[..e], mask, y);
      CountsStayBalanced(calls[e..], mask, x, y);
    }
  }
}
