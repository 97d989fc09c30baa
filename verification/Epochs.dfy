/** Epochs, the offsets they commit and the log they spell out. */
module Epochs {
  import opened Wrappers
  import opened RangeKey
  import opened Replica

  datatype Epoch = Epoch(number: nat, increments: seq<Interval>, creator: Peer, time: nat)

  function NextNumber(prev: Option<Epoch>): nat {
    if prev.Some? then prev.value.number + 1 else 0
  }

  function RangeOfId(id: nat): nat {
    id / 0x4000_0000
  }

  function RangeOf(iv: Interval): nat {
    RangeOfId(iv.left)
  }

  function OffsetOf(id: nat): nat {
    id % 0x4000_0000
  }

  /** The first offset of a range that is not committed yet. */
  function NextOffset(committed: Offsets, r: nat): nat {
    if r in committed then committed[r] + 1 else 0
  }

  /** An interval inside one range, going on where the committed part of that range ends. */
  predicate Fits(committed: Offsets, iv: Interval) {
    var r := RangeOf(iv);
    r < MAX_BLOCK_INDEX && OffsetOf(iv.left) == NextOffset(committed, r) && iv.left <= iv.right && RangeOfId(iv.right) == r
  }

  /** No two intervals lie in the same range. */
  predicate Apart(incs: seq<Interval>) {
    forall i, j | 0 <= i < j < |incs| :: RangeOf(incs[i]) != RangeOf(incs[j])
  }

  predicate AllFit(committed: Offsets, incs: seq<Interval>) {
    (forall i | 0 <= i < |incs| :: Fits(committed, incs[i])) && Apart(incs)
  }

  // ---------- Sorting ----------

  predicate Leq(a: Interval, b: Interval) {
    a.left < b.left || (a.left == b.left && a.right <= b.right)
  }

  predicate Sorted(s: seq<Interval>) {
    forall i, j | 0 <= i < j < |s| :: Leq(s[i], s[j])
  }

  function Insert(x: Interval, s: seq<Interval>): seq<Interval> {
    if s == [] || Leq(x, s[0]) then [x] + s else [s[0]] + Insert(x, s[1..])
  }

  function Sort(s: seq<Interval>): seq<Interval> {
    if s == [] then [] else Insert(s[0], Sort(s[1..]))
  }

  lemma {:induction false} InsertSpec(x: Interval, s: seq<Interval>)
    requires Sorted(s)
    ensures Sorted(Insert(x, s)) && multiset(Insert(x, s)) == multiset(s) + multiset{x}
  {
    if s != [] {
      assert s == [s[0]] + s[1..];
      if Leq(x, s[0]) {
        forall j | 0 <= j < |s| ensures Leq(x, s[j]) {}
      } else {
        InsertSpec(x, s[1..]);
        var t := Insert(x, s[1..]);
        forall j | 0 <= j < |t| ensures Leq(s[0], t[j]) {
          assert t[j] in multiset(t);
          assert t[j] == x || t[j] in s[1..];
        }
      }
    }
  }

  /** Sorting permutes; left ends ascend, and right ends ascend where left ends agree. */
  lemma {:induction false} SortSpec(s: seq<Interval>)
    ensures Sorted(Sort(s)) && multiset(Sort(s)) == multiset(s)
    ensures forall i, j | 0 <= i < j < |Sort(s)| ::
              Sort(s)[i].left <= Sort(s)[j].left && (Sort(s)[i].left == Sort(s)[j].left ==> Sort(s)[i].right <= Sort(s)[j].right)
  {
    if s != [] {
      SortSpec(s[1..]);
      InsertSpec(s[0], Sort(s[1..]));
      assert s == [s[0]] + s[1..];
    }
  }

  lemma {:induction false} SortedStays(s: seq<Interval>)
    requires Sorted(s)
    ensures Sort(s) == s
  {
    if s != [] {
      SortedStays(s[1..]);
      assert s == [s[0]] + s[1..];
      assert |s| > 1 ==> s[1..][0] == s[1];
    }
  }

  /** Intervals that fit still fit when sorted. */
  lemma SortFits(committed: Offsets, incs: seq<Interval>)
    requires AllFit(committed, incs)
    ensures AllFit(committed, Sort(incs))
    ensures forall iv :: iv in Sort(incs) <==> iv in incs
  {
    hide Fits, Apart, Sort;
    SortApart(incs);
    forall i | 0 <= i < |Sort(incs)| ensures Fits(committed, Sort(incs)[i]) {
      assert Sort(incs)[i] in Sort(incs);
    }
  }

  lemma {:induction false} SortApart(incs: seq<Interval>)
    requires Apart(incs)
    ensures Apart(Sort(incs))
    ensures forall iv :: iv in Sort(incs) <==> iv in incs
  {
    hide RangeOf, Leq;
    if incs != [] {
      SortApart(incs[1..]);
      forall j | 0 <= j < |Sort(incs[1..])| ensures RangeOf(Sort(incs[1..])[j]) != RangeOf(incs[0]) {
        var iv := Sort(incs[1..])[j];
        assert iv in incs[1..];
      }
      InsertApart(incs[0], Sort(incs[1..]));
    }
  }

  lemma {:induction false} InsertApart(x: Interval, s: seq<Interval>)
    requires Apart(s) && forall j | 0 <= j < |s| :: RangeOf(s[j]) != RangeOf(x)
    ensures Apart(Insert(x, s))
    ensures forall iv :: iv in Insert(x, s) <==> iv == x || iv in s
  {
    hide RangeOf, Leq;
    if s != [] && !Leq(x, s[0]) {
      InsertApart(x, s[1..]);
      var t := Insert(x, s[1..]);
      assert s == [s[0]] + s[1..];
      forall j | 0 <= j < |t| ensures RangeOf(t[j]) != RangeOf(s[0]) {
        assert t[j] == x || t[j] in s[1..];
      }
    }
  }

  // ---------- Committed offsets ----------

  /** The committed offsets after an epoch, updated interval by interval. */
  function Committed(committed: Offsets, incs: seq<Interval>): Offsets
    decreases |incs|
  {
    if incs == [] then committed
    else Committed(committed[RangeOfId(incs[0].right) := OffsetOf(incs[0].right)], incs[1..])
  }

  lemma FitsRange(committed: Offsets, iv: Interval)
    requires Fits(committed, iv)
    ensures RangeOfId(iv.right) == RangeOf(iv) && iv.right == Id(RangeOf(iv), OffsetOf(iv.right))
    ensures OffsetOf(iv.right) >= NextOffset(committed, RangeOf(iv)) && OffsetOf(iv.right) <= LAST
    ensures Unpack(iv.right) == Some((RangeOf(iv), OffsetOf(iv.right)))
  {}

  /** Every interval moves its own range to its end, and nothing else moves. */
  lemma {:induction false} CommittedIs(committed: Offsets, incs: seq<Interval>)
    requires AllFit(committed, incs)
    ensures forall i | 0 <= i < |incs| ::
              Lookup(Committed(committed, incs), RangeOf(incs[i])) == Some(OffsetOf(incs[i].right))
    ensures forall r: nat | (forall i | 0 <= i < |incs| :: RangeOf(incs[i]) != r) ::
              Lookup(Committed(committed, incs), r) == Lookup(committed, r)
    decreases |incs|
  {
    hide Fits, RangeOf, OffsetOf;
    if incs != [] {
      var iv, rest := incs[0], incs[1..];
      FitsRange(committed, iv);
      var c := committed[RangeOf(iv) := OffsetOf(iv.right)];
      forall i | 0 <= i < |rest| ensures Fits(c, rest[i]) {
        assert rest[i] == incs[i + 1];
        FitsElsewhere(committed, iv, rest[i]);
      }
      CommittedIs(c, rest);
      assert forall i | 0 <= i < |rest| :: rest[i] == incs[i + 1];
      assert Lookup(Committed(c, rest), RangeOf(iv)) == Lookup(c, RangeOf(iv));
    }
  }

  lemma FitsElsewhere(committed: Offsets, iv: Interval, other: Interval)
    requires Fits(committed, other) && RangeOf(iv) != RangeOf(other)
    ensures Fits(committed[RangeOf(iv) := OffsetOf(iv.right)], other)
  {}

  // ---------- The log ----------

  function Batch(incs: seq<Interval>): seq<nat> {
    if incs == [] then [] else Ids(incs[0]) + Batch(incs[1..])
  }

  lemma {:induction false} BatchAppend(incs: seq<Interval>, iv: Interval)
    ensures Batch(incs + [iv]) == Batch(incs) + Ids(iv)
  {
    hide Ids;
    if incs == [] {
      assert [iv][1..] == [];
    } else {
      BatchAppend(incs[1..], iv);
      assert (incs + [iv])[1..] == incs[1..] + [iv];
    }
  }

  /** Ids of one range appear in increasing order; in particular no id appears twice. */
  predicate RangewiseIncreasing(log: seq<nat>) {
    forall i, j | 0 <= i < j < |log| && RangeOfId(log[i]) == RangeOfId(log[j]) :: log[i] < log[j]
  }

  /** The committed offsets say which ids the log holds: of every range those from 0 on, without a gap. */
  ghost predicate Covers(log: seq<nat>, committed: Offsets) {
    forall id: nat :: id in log <==> RangeOfId(id) in committed && OffsetOf(id) <= committed[RangeOfId(id)]
  }

  lemma {:induction false} BatchHas(incs: seq<Interval>, id: nat)
    ensures id in Batch(incs) <==> exists i :: 0 <= i < |incs| && Contains(incs[i], id)
  {
    hide Ids, Contains;
    if incs != [] {
      BatchHas(incs[1..], id);
      if i :| 0 <= i < |incs[1..]| && Contains(incs[1..][i], id) {
        assert Contains(incs[i + 1], id);
      }
      if i :| 0 <= i < |incs| && Contains(incs[i], id) {
        assert i == 0 || Contains(incs[1..][i - 1], id);
      }
      if id in Ids(incs[0]) { assert Contains(incs[0], id); }
    }
  }

  lemma FitsHolds(committed: Offsets, iv: Interval, id: nat)
    requires Fits(committed, iv)
    ensures Contains(iv, id) <==>
            RangeOfId(id) == RangeOf(iv) && NextOffset(committed, RangeOf(iv)) <= OffsetOf(id) <= OffsetOf(iv.right)
  {}

  /** A batch holds, of every range it moves, the offsets from the old end to the new one. */
  lemma BatchCovers(committed: Offsets, incs: seq<Interval>, log: seq<nat>)
    requires AllFit(committed, incs) && Covers(log, committed)
    ensures Covers(log + Batch(incs), Committed(committed, incs))
    ensures forall id | id in Batch(incs) :: id !in log
  {
    hide Fits, RangeOf, RangeOfId, OffsetOf, Contains, Batch, Committed;
    var c := Committed(committed, incs);
    CommittedIs(committed, incs);
    forall id: nat
      ensures id in log + Batch(incs) <==> RangeOfId(id) in c && OffsetOf(id) <= c[RangeOfId(id)]
      ensures id in Batch(incs) ==> id !in log
    {
      BatchHas(incs, id);
      if i :| 0 <= i < |incs| && RangeOf(incs[i]) == RangeOfId(id) {
        forall j | 0 <= j < |incs| ensures Contains(incs[j], id) ==> j == i {
          FitsHolds(committed, incs[j], id);
        }
        FitsHolds(committed, incs[i], id);
        FitsRange(committed, incs[i]);
        assert Lookup(c, RangeOf(incs[i])) == Some(OffsetOf(incs[i].right));
      } else {
        forall j | 0 <= j < |incs| ensures !Contains(incs[j], id) {
          FitsHolds(committed, incs[j], id);
        }
        assert Lookup(c, RangeOfId(id)) == Lookup(committed, RangeOfId(id));
      }
    }
  }

  lemma {:induction false} BatchIncreasing(committed: Offsets, incs: seq<Interval>)
    requires AllFit(committed, incs)
    ensures RangewiseIncreasing(Batch(incs))
  {
    hide Fits, RangeOf, RangeOfId, OffsetOf, Contains;
    if incs != [] {
      var ids, rest := Ids(incs[0]), Batch(incs[1..]);
      BatchIncreasing(committed, incs[1..]);
      forall i, j | 0 <= i < |ids| && 0 <= j < |rest| ensures RangeOfId(ids[i]) != RangeOfId(rest[j]) {
        FitsHolds(committed, incs[0], ids[i]);
        assert Contains(incs[0], ids[i]);
        BatchHas(incs[1..], rest[j]);
        assert rest[j] in rest;
        var k :| 0 <= k < |incs[1..]| && Contains(incs[1..][k], rest[j]);
        FitsHolds(committed, incs[1..][k], rest[j]);
      }
      IncreasingConcat(ids, rest);
    }
  }

  lemma IncreasingConcat(a: seq<nat>, b: seq<nat>)
    requires RangewiseIncreasing(a) && RangewiseIncreasing(b)
    requires forall i, j | 0 <= i < |a| && 0 <= j < |b| :: RangeOfId(a[i]) == RangeOfId(b[j]) ==> a[i] < b[j]
    ensures RangewiseIncreasing(a + b)
  {
    hide RangeOfId;
  }

  lemma BatchAppends(committed: Offsets, incs: seq<Interval>, log: seq<nat>)
    requires AllFit(committed, incs) && Covers(log, committed) && RangewiseIncreasing(log)
    ensures RangewiseIncreasing(log + Batch(incs))
  {
    hide Fits, RangeOf, RangeOfId, OffsetOf, Contains, Batch, RangewiseIncreasing;
    BatchIncreasing(committed, incs);
    var b := Batch(incs);
    forall i, j | 0 <= i < |log| && 0 <= j < |b| && RangeOfId(log[i]) == RangeOfId(b[j]) ensures log[i] < b[j] {
      assert log[i] in log && b[j] in b;
      BatchHas(incs, b[j]);
      var k :| 0 <= k < |incs| && Contains(incs[k], b[j]);
      FitsHolds(committed, incs[k], b[j]);
      OffsetOrder(log[i], b[j]);
    }
    IncreasingConcat(log, b);
  }

  lemma OffsetOrder(a: nat, b: nat)
    requires RangeOfId(a) == RangeOfId(b)
    ensures a < b <==> OffsetOf(a) < OffsetOf(b)
  {}

  predicate Increasing(s: seq<nat>) {
    forall i, j | 0 <= i < j < |s| :: s[i] < s[j]
  }

  /** Intervals in ascending order, none reaching into the next. */
  predicate Ascending(incs: seq<Interval>) {
    forall i, j | 0 <= i < j < |incs| :: incs[i].right < incs[j].left
  }

  /** The batch of an epoch is strictly increasing: lower ranges come first, and inside a range lower offsets. */
  lemma BatchAscends(committed: Offsets, incs: seq<Interval>)
    requires AllFit(committed, incs)
    ensures Increasing(Batch(Sort(incs)))
  {
    SortSpec(incs);
    SortFits(committed, incs);
    var s := Sort(incs);
    hide Sort, Batch, Fits, RangeOf;
    forall i, j | 0 <= i < j < |s| ensures s[i].right < s[j].left {
      NextRange(committed, s[i], s[j]);
    }
    AscendingIds(s);
  }

  lemma NextRange(committed: Offsets, a: Interval, b: Interval)
    requires Fits(committed, a) && Fits(committed, b) && RangeOf(a) != RangeOf(b) && a.left <= b.left
    ensures a.right < b.left
  {}

  lemma {:induction false} AscendingIds(incs: seq<Interval>)
    requires Ascending(incs)
    ensures Increasing(Batch(incs))
  {
    if incs != [] {
      var ids, rest := Ids(incs[0]), Batch(incs[1..]);
      AscendingIds(incs[1..]);
      forall i, j | 0 <= i < |ids| && 0 <= j < |rest| ensures ids[i] < rest[j] {
        assert Contains(incs[0], ids[i]);
        BatchHas(incs[1..], rest[j]);
        assert rest[j] in rest;
        var k :| 0 <= k < |incs[1..]| && Contains(incs[1..][k], rest[j]);
        assert incs[1..][k] == incs[k + 1];
      }
    }
  }

  // ---------- The history ----------

  function CommittedAfter(h: seq<Epoch>): Offsets {
    if h == [] then map[] else Committed(CommittedAfter(h[..|h| - 1]), Sort(h[|h| - 1].increments))
  }

  function LogOf(h: seq<Epoch>): seq<nat> {
    if h == [] then [] else LogOf(h[..|h| - 1]) + Batch(Sort(h[|h| - 1].increments))
  }

  /** What is handed to the runtime: the batch of every epoch that has one. */
  function BatchesOf(h: seq<Epoch>): seq<seq<nat>> {
    if h == [] then [] else
      var batch := Batch(Sort(h[|h| - 1].increments));
      BatchesOf(h[..|h| - 1]) + if batch == [] then [] else [batch]
  }

  /** Epochs are numbered from 0 and each goes on where the ones before it end. */
  predicate Chained(h: seq<Epoch>) {
    h == [] ||
    var n := |h| - 1;
    Chained(h[..n]) && h[n].number == n && AllFit(CommittedAfter(h[..n]), h[n].increments)
  }

  lemma {:induction false} ChainedPrefix(h: seq<Epoch>, k: nat)
    requires Chained(h) && k <= |h|
    ensures Chained(h[..k])
    decreases |h|
  {
    hide AllFit, CommittedAfter;
    if k < |h| {
      ChainedPrefix(h[..|h| - 1], k);
      assert h[..|h| - 1][..k] == h[..k];
    } else {
      assert h[..k] == h;
    }
  }

  lemma ChainedAt(h: seq<Epoch>, k: nat)
    requires Chained(h) && k < |h|
    ensures h[k].number == k && AllFit(CommittedAfter(h[..k]), h[k].increments)
  {
    hide AllFit, CommittedAfter;
    ChainedPrefix(h, k + 1);
    assert h[..k + 1][..k] == h[..k];
  }

  lemma {:induction false} ChainedCovers(h: seq<Epoch>)
    requires Chained(h)
    ensures Covers(LogOf(h), CommittedAfter(h)) && RangewiseIncreasing(LogOf(h))
  {
    hide AllFit, Covers, RangewiseIncreasing, Committed, Sort, Batch;
    if h == [] {
      assert Covers([], map[]) && RangewiseIncreasing([]) by { Empty(); }
    } else {
      var n := |h| - 1;
      ChainedPrefix(h, n);
      ChainedCovers(h[..n]);
      SortFits(CommittedAfter(h[..n]), h[n].increments);
      BatchCovers(CommittedAfter(h[..n]), Sort(h[n].increments), LogOf(h[..n]));
      BatchAppends(CommittedAfter(h[..n]), Sort(h[n].increments), LogOf(h[..n]));
    }
  }

  lemma Empty()
    ensures Covers([], map[]) && RangewiseIncreasing([])
  {}

  /** Every batch that is handed over is strictly increasing. */
  lemma {:induction false} ChainedAscends(h: seq<Epoch>)
    requires Chained(h)
    ensures forall b | 0 <= b < |BatchesOf(h)| :: Increasing(BatchesOf(h)[b])
  {
    hide AllFit, Increasing, Sort, Batch, CommittedAfter;
    if h != [] {
      var n := |h| - 1;
      ChainedAscends(h[..n]);
      BatchAscends(CommittedAfter(h[..n]), h[n].increments);
    }
  }

  /** No id lies in two committed intervals. */
  lemma ChainedDisjoint(h: seq<Epoch>, k: nat, i: nat, k': nat, i': nat, id: nat)
    requires Chained(h) && k <= k' < |h| && i < |h[k].increments| && i' < |h[k'].increments|
    requires Contains(h[k].increments[i], id) && Contains(h[k'].increments[i'], id)
    ensures k == k' && i == i'
  {
    hide Fits, RangeOf, RangeOfId, OffsetOf, Contains, Committed, Sort, Batch, CommittedAfter, LogOf;
    var c, c' := CommittedAfter(h[..k]), CommittedAfter(h[..k']);
    ChainedAt(h, k);
    ChainedAt(h, k');
    FitsHolds(c, h[k].increments[i], id);
    FitsHolds(c', h[k'].increments[i'], id);
    if k < k' {
      InLog(h, k, i, id, k');
      ChainedPrefix(h, k');
      ChainedCovers(h[..k']);
      assert false;
    }
  }

  /** What an epoch commits is in the log from then on. */
  lemma {:induction false} InLog(h: seq<Epoch>, k: nat, i: nat, id: nat, n: nat)
    requires k < n <= |h| && i < |h[k].increments| && Contains(h[k].increments[i], id)
    ensures id in LogOf(h[..n])
    decreases n
  {
    hide Contains, Sort, Batch;
    assert h[..n][..n - 1] == h[..n - 1];
    if k == n - 1 {
      var incs := h[k].increments;
      SortSpec(incs);
      assert incs[i] in multiset(Sort(incs));
      var j :| 0 <= j < |Sort(incs)| && Sort(incs)[j] == incs[i];
      BatchHas(Sort(incs), id);
    } else {
      InLog(h, k, i, id, n - 1);
    }
  }
}
