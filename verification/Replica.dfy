/** What one node knows: the transactions it holds, how far each range is complete, and the epochs it has seen. */
module Replica {
  import opened Wrappers
  import opened RangeKey

  type Peer(==, !new)
  type Body(==, !new)

  datatype Tx = Tx(id: nat, body: Body)

  type Txs = map<nat, Tx>

  /** One offset per range. */
  type Offsets = map<nat, nat>

  function Lookup(offsets: Offsets, r: nat): Option<nat> {
    if r in offsets then Some(offsets[r]) else None
  }

  // ---------- Contiguous prefixes ----------

  predicate HasPrefix(txs: Txs, r: nat, o: nat) {
    forall i | 0 <= i <= o :: Id(r, i) in txs
  }

  /** `p` is the end of the longest run of held ids from offset 0 of range `r`, if there is one. */
  predicate PrefixIs(txs: Txs, r: nat, p: Option<nat>) {
    match p
    case None => Id(r, 0) !in txs
    case Some(o) => o < SIZE && HasPrefix(txs, r, o) && (o + 1 < SIZE ==> Id(r, o + 1) !in txs)
  }

  ghost predicate OffsetsRight(offsets: Offsets, txs: Txs) {
    forall r: nat :: PrefixIs(txs, r, Lookup(offsets, r))
  }

  /** What gateways guarantee: the last id of a range is not in use. */
  ghost predicate NoLast(txs: Txs) {
    forall r: nat :: Id(r, LAST) !in txs
  }

  lemma PrefixUnique(txs: Txs, r: nat, p: Option<nat>, q: Option<nat>)
    requires PrefixIs(txs, r, p) && PrefixIs(txs, r, q)
    ensures p == q
  {
    if p.Some? { assert Id(r, 0) in txs; }
    if q.Some? { assert Id(r, 0) in txs; }
    if p.Some? && q.Some? {
      var a, b := Id(r, p.value + 1), Id(r, q.value + 1);
      assert p.value < q.value ==> a in txs;
      assert q.value < p.value ==> b in txs;
    }
  }

  ghost function Above(txs: Txs, key: nat): set<nat> {
    set k | k in txs && k > key
  }

  /** Where a scan over consecutive held ids stops. */
  ghost function ScanEnd(txs: Txs, key: nat): (e: nat)
    ensures key <= e && e + 1 !in txs && forall k | key < k <= e :: k in txs
    decreases Above(txs, key)
  {
    if key + 1 in txs then
      assert key + 1 in Above(txs, key) && key + 1 !in Above(txs, key + 1);
      ScanEnd(txs, key + 1)
    else key
  }

  /** From range `r` on some ranges are held as a whole, and behind them nothing follows. */
  ghost predicate WholeRangesEnd(txs: Txs, r: nat) {
    exists k: nat :: WholeUpTo(txs, r, k)
  }

  ghost predicate WholeUpTo(txs: Txs, r: nat, k: nat) {
    r <= k && (forall s: nat | r <= s <= k :: HasPrefix(txs, s, LAST)) && Id(k + 1, 0) !in txs
  }

  /**
   * The scan knows nothing of ranges: it runs on into the next one. The offset it stores is the end of the range's
   * prefix just when the range is not held as a whole, or when the ids held from it on end with a range.
   */
  lemma ScanIsPrefix(txs: Txs, r: nat, o: nat)
    requires o < SIZE && HasPrefix(txs, r, o)
    ensures PrefixIs(txs, r, Some(ScanEnd(txs, Id(r, o)) % SIZE)) <==> !HasPrefix(txs, r, LAST) || WholeRangesEnd(txs, r)
  {
    var e := ScanEnd(txs, Id(r, o));
    if HasPrefix(txs, r, LAST) {
      StoredAtEnd(txs, r, o);
      if e % SIZE == LAST { ScanLeavesWhole(txs, r, o); }
      if k: nat :| WholeUpTo(txs, r, k) { WholeStopsScan(txs, r, o, k); }
    } else {
      ScanStays(txs, r, o);
    }
  }

  /** The prefix of a range held as a whole ends with the range. */
  lemma StoredAtEnd(txs: Txs, r: nat, o: nat)
    requires o < SIZE && HasPrefix(txs, r, LAST)
    ensures PrefixIs(txs, r, Some(ScanEnd(txs, Id(r, o)) % SIZE)) <==> ScanEnd(txs, Id(r, o)) % SIZE == LAST
  {
    var e := ScanEnd(txs, Id(r, o));
    if PrefixIs(txs, r, Some(e % SIZE)) {
      var a := Id(r, e % SIZE + 1);
      assert e % SIZE < LAST ==> a in txs;
    }
  }

  lemma ScanLeavesWhole(txs: Txs, r: nat, o: nat)
    requires o < SIZE && HasPrefix(txs, r, LAST) && ScanEnd(txs, Id(r, o)) % SIZE == LAST
    ensures WholeRangesEnd(txs, r)
  {
    var e := ScanEnd(txs, Id(r, o));
    var k := e / SIZE;
    assert e == Id(k, LAST) && e + 1 == Id(k + 1, 0) && r <= k;
    forall s: nat | r <= s <= k ensures HasPrefix(txs, s, LAST) {
      forall i | 0 <= i <= LAST ensures Id(s, i) in txs {
        if s > r { assert Id(r, o) < Id(s, i) <= e; }
      }
    }
    assert WholeUpTo(txs, r, k);
  }

  lemma WholeStopsScan(txs: Txs, r: nat, o: nat, k: nat)
    requires o < SIZE && WholeUpTo(txs, r, k)
    ensures ScanEnd(txs, Id(r, o)) == Id(k, LAST)
  {
    var e, next := ScanEnd(txs, Id(r, o)), ScanEnd(txs, Id(r, o)) + 1;
    var s, i := next / 0x4000_0000, next % 0x4000_0000;
    assert next == Id(s, i) && i <= LAST && r <= s;
    assert s <= k ==> HasPrefix(txs, s, LAST);
    var behind := Id(k + 1, 0);
    assert behind <= e ==> behind in txs;
  }

  lemma ScanStays(txs: Txs, r: nat, o: nat)
    requires o < SIZE && HasPrefix(txs, r, o) && !HasPrefix(txs, r, LAST)
    ensures ScanEnd(txs, Id(r, o)) < Id(r, LAST)
    ensures PrefixIs(txs, r, Some(ScanEnd(txs, Id(r, o)) % SIZE))
  {
    var e := ScanEnd(txs, Id(r, o));
    var i :| 0 <= i <= LAST && Id(r, i) !in txs;
    assert e < Id(r, i);
    var p := e - Id(r, 0);
    assert e == Id(r, p) && e % SIZE == p;
    forall j | 0 <= j <= p ensures Id(r, j) in txs {
      if j > o { assert Id(r, o) < Id(r, j) <= e; }
    }
  }

  /** With a whole range and the first id of the next one held, the scan reports the wrong offset. */
  lemma ScanRunsOn(txs: Txs, r: nat)
    requires HasPrefix(txs, r, LAST) && Id(r + 1, 0) in txs && Id(r + 1, 1) !in txs
    ensures ScanEnd(txs, Id(r, 0)) % SIZE == 0
    ensures PrefixIs(txs, r, Some(LAST)) && !PrefixIs(txs, r, Some(0))
  {
    var e := ScanEnd(txs, Id(r, 0));
    assert Id(r, 1) in txs;
    var i := e + 1 - Id(r, 0);
    var a, b := Id(r, i), Id(r + 1, 1);
    assert i <= LAST ==> a in txs;
    assert e + 1 == a;
    assert e >= b ==> b in txs;
  }

  /** Even then what is reported is held: the offset may be too small, never too large. */
  lemma ScanSound(txs: Txs, r: nat, o: nat)
    requires o < SIZE && HasPrefix(txs, r, o)
    ensures HasPrefix(txs, r, ScanEnd(txs, Id(r, o)) % SIZE)
  {
    if !HasPrefix(txs, r, LAST) {
      ScanStays(txs, r, o);
    }
  }
}
