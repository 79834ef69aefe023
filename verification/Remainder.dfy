/** The scan in the remainder arithmetic of the source. */
module Remainder {
  import opened Prelude
  import opened RoundRobin

  /** The walk is the remainder arithmetic of the source. */
  lemma SlotIsModulo(from: nat, offset: nat, n: nat)
    requires from < n && offset < n
    ensures (from + offset) % n == Slot(from, offset, n)
  {
  }

  lemma SuccessorIsModulo(w: nat, n: nat)
    requires w < n
    ensures (w + 1) % n == Successor(w, n)
  {
    if n > 1 {
      SlotIsModulo(w, 1, n);
    }
  }

  /** One turn of the scan, in the remainder arithmetic of the source. */
  lemma PickStep(mask: seq<bool>, cursor: nat, offset: nat)
    requires cursor < |mask| && offset < |mask|
    ensures var index := (cursor + offset) % |mask|;
            PickFrom(mask, cursor, offset) == if mask[index] then Some(index) else PickFrom(mask, cursor, offset + 1)
  {
    SlotIsModulo(cursor, offset, |mask|);
  }
}
