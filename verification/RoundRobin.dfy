/**
 The cyclic scan behind `Pool.Next`: which slot it selects, and how long a selectable slot can be
 passed over.

 A call is seen as a mask (which workers are eligible and not excluded at that instant) and
 the cursor it starts from. Masks may change arbitrarily between calls; only the cursor links them.
 */
module RoundRobin {
  import opened Prelude

  /** Clockwise steps from one slot of a ring to another. */
  function Ahead(from: nat, to: nat, n: nat): (d: nat)
    requires from < n && to < n
    ensures d < n
    ensures d == 0 <==> from == to
  {
    if from <= to then to - from else to + n - from
  }

  /** The slot reached after walking `offset` steps. */
  function Slot(from: nat, offset: nat, n: nat): (to: nat)
    requires from < n && offset < n
    ensures to < n && Ahead(from, to, n) == offset
  {
    if from + offset < n then from + offset else from + offset - n
  }

  function Successor(w: nat, n: nat): (c: nat)
    requires w < n
    ensures c < n
  {
    if w + 1 == n then 0 else w + 1
  }

  /** Scan from `offset` steps past the cursor: the nearest selectable slot at or beyond it. */
  function PickFrom(mask: seq<bool>, cursor: nat, offset: nat): (w: Option<nat>)
    requires cursor < |mask| && offset <= |mask|
    ensures w.Some? ==> w.value < |mask| && mask[w.value] && Ahead(cursor, w.value, |mask|) >= offset
    ensures forall i | 0 <= i < |mask| && mask[i] && Ahead(cursor, i, |mask|) >= offset ::
              w.Some? && Ahead(cursor, w.value, |mask|) <= Ahead(cursor, i, |mask|)
    decreases |mask| - offset
  {
    if offset == |mask| then None
    else
      var i := Slot(cursor, offset, |mask|);
      if mask[i] then Some(i) else PickFrom(mask, cursor, offset + 1)
  }

  /** Slot w is selectable, and no selectable slot is closer to the cursor. */
  ghost predicate Nearest(mask: seq<bool>, cursor: nat, w: nat)
    requires cursor < |mask|
  {
    && w < |mask| && mask[w]
    && forall i | 0 <= i < |mask| && mask[i] :: Ahead(cursor, w, |mask|) <= Ahead(cursor, i, |mask|)
  }

  /** The selection of one call: the selectable slot nearest to the cursor, if there is any. */
  function Pick(mask: seq<bool>, cursor: nat): (w: Option<nat>)
    requires cursor < |mask|
    ensures w.Some? ==> Nearest(mask, cursor, w.value)
    ensures w.None? ==> forall i | 0 <= i < |mask| :: !mask[i]
  {
    PickFrom(mask, cursor, 0)
  }

  /** Being nearest determines the selection. */
  lemma NearestIsPick(mask: seq<bool>, cursor: nat, w: nat)
    requires cursor < |mask| && Nearest(mask, cursor, w)
    ensures Pick(mask, cursor) == Some(w)
  {
    var p := Pick(mask, cursor).value;
    assert Ahead(cursor, p, |mask|) == Ahead(cursor, w, |mask|);
  }

  datatype Call = Call(mask: seq<bool>, cursor: nat)

  function Selected(c: Call): Option<nat>
    requires c.cursor < |c.mask|
  {
    Pick(c.mask, c.cursor)
  }

  function CursorAfter(c: Call): (cursor: nat)
    requires c.cursor < |c.mask|
    ensures cursor < |c.mask|
  {
    match Selected(c)
    case None => c.cursor
    case Some(w) => Successor(w, |c.mask|)
  }

  ghost predicate Sized(calls: seq<Call>, n: nat) {
    forall k | 0 <= k < |calls| :: |calls[k].mask| == n && calls[k].cursor < n
  }

  /** Consecutive calls on one pool: each starts where the previous one left the cursor. */
  ghost predicate Chained(calls: seq<Call>, n: nat) {
    && Sized(calls, n)
    && forall k | 0 < k < |calls| :: calls[k].cursor == CursorAfter(calls[k - 1])
  }

  ghost predicate Selectable(calls: seq<Call>, n: nat, w: nat)
    requires Sized(calls, n) && w < n
  {
    forall k | 0 <= k < |calls| :: calls[k].mask[w]
  }

  ghost predicate Unselected(calls: seq<Call>, n: nat, w: nat)
    requires Sized(calls, n)
  {
    forall k | 0 <= k < |calls| :: Selected(calls[k]) != Some(w)
  }

  /** One call either selects a selectable slot or brings the cursor strictly closer to it. */
  lemma DistanceShrinks(c: Call, w: nat)
    requires c.cursor < |c.mask| && w < |c.mask| && c.mask[w]
    requires Selected(c) != Some(w)
    ensures Selected(c).Some?
    ensures Ahead(Selected(c).value, w, |c.mask|) <= Ahead(c.cursor, w, |c.mask|)
    ensures Ahead(CursorAfter(c), w, |c.mask|) == Ahead(Selected(c).value, w, |c.mask|) - 1
  {
    assert Ahead(c.cursor, Selected(c).value, |c.mask|) <= Ahead(c.cursor, w, |c.mask|);
  }

  /** While a selectable slot is passed over, the cursor's distance to it drops with every call. */
  lemma {:induction false} PassedOverDistance(calls: seq<Call>, n: nat, w: nat, k: nat)
    requires Chained(calls, n) && w < n && Selectable(calls, n, w) && Unselected(calls, n, w)
    requires k < |calls|
    ensures Ahead(calls[k].cursor, w, n) + k <= Ahead(calls[0].cursor, w, n)
  {
    hide Pick, Ahead, Successor;
    if k > 0 {
      PassedOverDistance(calls, n, w, k - 1);
      DistanceShrinks(calls[k - 1], w);
    }
  }

  /**
   Bounded bypass: a worker that stays selectable is returned within as many calls as the cursor
   is slots away from it, hence within n calls, whatever happens to the others meanwhile.
   */
  lemma BoundedBypass(calls: seq<Call>, n: nat, w: nat)
    requires Chained(calls, n) && w < n && Selectable(calls, n, w)
    requires |calls| > 0 && |calls| > Ahead(calls[0].cursor, w, n)
    ensures exists k | 0 <= k <= Ahead(calls[0].cursor, w, n) :: Selected(calls[k]) == Some(w)
  {
    var d := Ahead(calls[0].cursor, w, n);
    var prefix := calls[..d + 1];
    if Unselected(prefix, n, w) {
      PassedOverDistance(prefix, n, w, d);
      DistanceShrinks(prefix[d], w);
    }
  }

  lemma {:induction false} PassedOverLater(calls: seq<Call>, n: nat, w: nat, i: nat, j: nat)
    requires Chained(calls, n) && w < n && Selectable(calls, n, w) && Unselected(calls, n, w)
    requires i < j < |calls|
    ensures Selected(calls[i]).Some? && Selected(calls[j]).Some?
    ensures Ahead(Selected(calls[j]).value, w, n) <= Ahead(calls[j].cursor, w, n)
    ensures Ahead(calls[j].cursor, w, n) < Ahead(Selected(calls[i]).value, w, n)
    decreases j - i
  {
    hide Pick, Ahead, Successor;
    DistanceShrinks(calls[i], w);
    DistanceShrinks(calls[j], w);
    if i + 1 < j {
      PassedOverLater(calls, n, w, i, j - 1);
      DistanceShrinks(calls[j - 1], w);
    }
  }

  /**
   While a selectable worker waits, nobody overtakes it twice: the selections made meanwhile are
   pairwise different.
   */
  lemma NoDoubleOvertaking(calls: seq<Call>, n: nat, w: nat)
    requires Chained(calls, n) && w < n && Selectable(calls, n, w) && Unselected(calls, n, w)
    ensures forall i, j | 0 <= i < j < |calls| :: Selected(calls[i]) != Selected(calls[j])
  {
    forall i: nat, j: nat | i < j < |calls| ensures Selected(calls[i]) != Selected(calls[j]) {
      PassedOverLater(calls, n, w, i, j);
    }
  }
}
