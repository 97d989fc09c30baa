/** Transaction ids: a range and an offset in it, packed into 64 bits. */
module RangeKey {
  import opened Wrappers

  const SIZE: nat := 0x4000_0000
  const LAST: nat := 0x3FFF_FFFF
  const MAX_BLOCK_INDEX: nat := 0x3_FFFF_FFFF
  const U64_MAX: nat := 0xFFFF_FFFF_FFFF_FFFF

  function Id(range: nat, offset: nat): nat {
    range * 0x4000_0000 + offset
  }

  /** The range and the offset of an id; ids beyond the start of the last range are refused. */
  function Unpack(id: nat): Option<(nat, nat)> {
    if id > MAX_BLOCK_INDEX * SIZE then None else Some((id / 0x4000_0000, id % 0x4000_0000))
  }

  /** Packing and unpacking are inverse just where the offset fits and the id is not refused. */
  lemma UnpackId(range: nat, offset: nat)
    ensures Unpack(Id(range, offset)) == Some((range, offset)) <==> offset < SIZE && Id(range, offset) <= MAX_BLOCK_INDEX * SIZE
  {}

  lemma IdUnpack(id: nat)
    requires Unpack(id).Some?
    ensures Id(Unpack(id).value.0, Unpack(id).value.1) == id && Unpack(id).value.1 < SIZE
  {}

  /** A closed interval of ids. */
  datatype Interval = Interval(left: nat, right: nat)

  predicate Contains(iv: Interval, id: nat) {
    iv.left <= id <= iv.right
  }

  function Ids(iv: Interval): (ids: seq<nat>)
    ensures iv.left <= iv.right ==> |ids| == iv.right - iv.left + 1
    ensures forall id: nat :: id in ids <==> Contains(iv, id)
    ensures forall i, j | 0 <= i < j < |ids| :: ids[i] < ids[j]
  {
    var ids := seq(if iv.left <= iv.right then iv.right - iv.left + 1 else 0, i requires 0 <= i => iv.left + i);
    assert forall id: nat | Contains(iv, id) :: ids[id - iv.left] == id;
    ids
  }

  /** The ids of an interval, one after the other. */
  method Collect(iv: Interval) returns (ids: seq<nat>)
    ensures ids == Ids(iv)
  {
    ids := [];
    var current := iv.left;
    while current <= iv.right
      invariant iv.left <= current && |ids| == current - iv.left
      invariant current <= iv.right + 1 || ids == []
      invariant forall i | 0 <= i < |ids| :: ids[i] == iv.left + i
      decreases iv.right - current
    {
      ids := ids + [current];
      current := current + 1;
    }
  }

  /** All ids of a range. The arithmetic of the last range leaves 64 bits. */
  function FullInterval(range: nat): Option<Interval> {
    if range > MAX_BLOCK_INDEX then None
    else if range * 0x4000_0000 + SIZE > U64_MAX then None
    else Some(Interval(range * 0x4000_0000, range * 0x4000_0000 + SIZE - 1))
  }

  /** The interval of a range exists for all ranges but the last, and holds just the ids of that range. */
  lemma FullIntervalHolds(range: nat, id: nat)
    ensures FullInterval(range).Some? <==> range < MAX_BLOCK_INDEX
    ensures range < MAX_BLOCK_INDEX ==>
              (Contains(FullInterval(range).value, id) <==> Unpack(id).Some? && Unpack(id).value.0 == range)
  {}

  /** A gateway hands out the ids of its range in order. */
  class Gateway {
    const range: nat
    var left: nat
    var right: nat

    /** `issued` lists the ids handed out so far. */
    ghost var issued: seq<nat>

    ghost predicate Valid()
      reads this
    {
      && range < MAX_BLOCK_INDEX && right == Id(range, LAST)
      && |issued| < SIZE && left == Id(range, |issued|)
      && forall i | 0 <= i < |issued| :: issued[i] == Id(range, i)
    }

    constructor (range: nat)
      requires range < MAX_BLOCK_INDEX
      ensures Valid() && this.range == range && issued == []
    {
      this.range := range;
      left := range * 0x4000_0000;
      right := range * 0x4000_0000 + SIZE - 1;
      issued := [];
    }

    /** Hands out the next id. The last id of the range is never handed out: `None` when only that one is left. */
    method SendRequest() returns (id: Option<nat>)
      requires Valid()
      modifies this
      ensures Valid()
      ensures old(|issued|) == LAST <==> id.None?
      ensures id.None? ==> issued == old(issued)
      ensures id.Some? ==> id == Some(Id(range, |old(issued)|)) && issued == old(issued) + [id.value]
      ensures Id(range, LAST) !in issued
    {
      if left >= right {
        return None;
      }
      id := Some(left);
      issued := issued + [left];
      left := left + 1;
    }
  }
}
