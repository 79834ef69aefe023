/** The cyclic order in which one caller meets the selectable workers when it excludes those it has tried. */
module CyclicOrder {
  import opened Prelude
  import opened RoundRobin

  /** The selectable slots from `offset` steps past the cursor on, in the order the scan meets them. */
  function RingFrom(mask: seq<bool>, cursor: nat, offset: nat): (ring: seq<nat>)
    requires cursor < |mask| && offset <= |mask|
    ensures forall i | 0 <= i < |ring| :: ring[i] < |mask| && mask[ring[i]] && Ahead(cursor, ring[i], |mask|) >= offset
    ensures forall w: nat | w < |mask| && mask[w] && Ahead(cursor, w, |mask|) >= offset :: w in ring
    ensures forall i, j | 0 <= i < j < |ring| ::
              Ahead(cursor, ring[i], |mask|) < Ahead(cursor, ring[j], |mask|)
    decreases |mask| - offset
  {
    if offset == |mask| then []
    else
      var i := Slot(cursor, offset, |mask|);
      var rest := RingFrom(mask, cursor, offset + 1);
      if mask[i] then [i] + rest else rest
  }

  /** All selectable slots in cyclic order from the cursor. */
  function Ring(mask: seq<bool>, cursor: nat): (ring: seq<nat>)
    requires cursor < |mask|
    ensures forall i | 0 <= i < |ring| :: ring[i] < |mask| && mask[ring[i]]
    ensures forall w: nat | w < |mask| && mask[w] :: w in ring
    ensures forall i, j | 0 <= i < j < |ring| ::
              Ahead(cursor, ring[i], |mask|) < Ahead(cursor, ring[j], |mask|)
  {
    RingFrom(mask, cursor, 0)
  }

  /** Where a caller that has walked the first k slots of the ring leaves the cursor. */
  function CursorAt(mask: seq<bool>, cursor: nat, k: nat): (c: nat)
    requires cursor < |mask| && k <= |Ring(mask, cursor)|
    ensures c < |mask|
  {
    if k == 0 then cursor else Successor(Ring(mask, cursor)[k - 1], |mask|)
  }

  /**
   Excluding what has been tried walks the ring: if a later mask offers exactly the untried part
   of the ring, the next selection from the advanced cursor is the next slot of the ring.
   */
  lemma ExclusionWalksRing(mask: seq<bool>, cursor: nat, k: nat, later: seq<bool>)
    requires cursor < |mask| && k <= |Ring(mask, cursor)| && |later| == |mask|
    requires forall w: nat | w < |mask| :: later[w] <==> w in Ring(mask, cursor)[k..]
    ensures Pick(later, CursorAt(mask, cursor, k)) ==
            if k < |Ring(mask, cursor)| then Some(Ring(mask, cursor)[k]) else None
  {
    var ring, n := Ring(mask, cursor), |mask|;
    var c := CursorAt(mask, cursor, k);
    if k < |ring| {
      assert ring[k] == ring[k..][0];
      forall i | 0 <= i < n && later[i] ensures Ahead(c, ring[k], n) <= Ahead(c, i, n) {
        assert i in ring[k..];
        var j :| k <= j < |ring| && ring[j] == i;
        RingDistance(mask, cursor, k, k);
        RingDistance(mask, cursor, k, j);
      }
      NearestIsPick(later, c, ring[k]);
    } else {
      assert ring[k..] == [];
    }
  }

  /** Seen from the advanced cursor, the rest of the ring keeps its order. */
  lemma RingDistance(mask: seq<bool>, cursor: nat, k: nat, j: nat)
    requires cursor < |mask| && k <= j < |Ring(mask, cursor)|
    ensures Ahead(cursor, Ring(mask, cursor)[k], |mask|) <= Ahead(cursor, Ring(mask, cursor)[j], |mask|)
    ensures k == 0 ==> CursorAt(mask, cursor, k) == cursor
    ensures k > 0 ==>
              Ahead(CursorAt(mask, cursor, k), Ring(mask, cursor)[j], |mask|) ==
              Ahead(cursor, Ring(mask, cursor)[j], |mask|) - Ahead(cursor, Ring(mask, cursor)[k - 1], |mask|) - 1
  {
    hide Ring;
    var ring, n := Ring(mask, cursor), |mask|;
    if k > 0 {
      assert Ahead(cursor, ring[k - 1], n) < Ahead(cursor, ring[j], n);
    }
  }
}
