/** The loops of a node that only read: quorum offsets, epoch increments, missing intervals, answers to peers. */
module NodeMethods {
  import opened Wrappers
  import opened RangeKey
  import opened Replica
  import opened Epochs
  import opened NodeSpec
  import opened Delays

  // ---------- The quorum offset ----------

  type Ref = (Peer, nat)

  predicate Down(refs: seq<Ref>) {
    forall i, j | 0 <= i < j < |refs| :: refs[i].1 >= refs[j].1
  }

  predicate DistinctPeers(refs: seq<Ref>) {
    forall i, j | 0 <= i < j < |refs| :: refs[i].0 != refs[j].0
  }

  function InsertDown(x: Ref, refs: seq<Ref>): seq<Ref> {
    if refs == [] || x.1 >= refs[0].1 then [x] + refs else [refs[0]] + InsertDown(x, refs[1..])
  }

  function SortDown(refs: seq<Ref>): seq<Ref> {
    if refs == [] then [] else InsertDown(refs[0], SortDown(refs[1..]))
  }

  lemma {:induction false} InsertDownSpec(x: Ref, refs: seq<Ref>)
    requires Down(refs) && DistinctPeers(refs) && forall i | 0 <= i < |refs| :: refs[i].0 != x.0
    ensures Down(InsertDown(x, refs)) && DistinctPeers(InsertDown(x, refs)) && |InsertDown(x, refs)| == |refs| + 1
    ensures forall y :: y in InsertDown(x, refs) <==> y == x || y in refs
  {
    if refs != [] && x.1 < refs[0].1 {
      var t := InsertDown(x, refs[1..]);
      InsertDownSpec(x, refs[1..]);
      assert refs == [refs[0]] + refs[1..];
      forall j | 0 <= j < |t| ensures refs[0].1 >= t[j].1 && refs[0].0 != t[j].0 {
        assert t[j] == x || t[j] in refs[1..];
      }
    }
  }

  lemma {:induction false} SortDownSpec(refs: seq<Ref>)
    requires DistinctPeers(refs)
    ensures Down(SortDown(refs)) && DistinctPeers(SortDown(refs)) && |SortDown(refs)| == |refs|
    ensures forall y :: y in SortDown(refs) <==> y in refs
  {
    if refs != [] {
      var t := SortDown(refs[1..]);
      SortDownSpec(refs[1..]);
      forall i | 0 <= i < |t| ensures t[i].0 != refs[0].0 {
        assert t[i] in refs[1..];
      }
      InsertDownSpec(refs[0], t);
    }
  }

  function PeersOf(refs: seq<Ref>): set<Peer> {
    set i | 0 <= i < |refs| :: refs[i].0
  }

  lemma {:induction false} PeersSize(refs: seq<Ref>)
    requires DistinctPeers(refs)
    ensures |PeersOf(refs)| == |refs|
  {
    if refs != [] {
      var n := |refs| - 1;
      PeersSize(refs[..n]);
      assert PeersOf(refs) == PeersOf(refs[..n]) + {refs[n].0};
    }
  }

  /** The `quorum`-th entry from the top is the largest offset that `quorum` peers have reached. */
  lemma QuorumEntry(peers: map<Peer, nat>, refs: seq<Ref>, quorum: nat)
    requires Down(refs) && DistinctPeers(refs) && 0 < quorum <= |refs|
    requires forall p, o :: (p, o) in refs <==> p in peers && peers[p] == o
    ensures IsQuorumOffset(peers, quorum, refs[quorum - 1].1)
  {
    var o := refs[quorum - 1].1;
    var top, above := refs[..quorum], refs[..quorum - 1];
    PeersSize(top);
    PeersSize(above);
    forall p | p in PeersOf(top) ensures p in AtLeast(peers, o) {
      var i :| 0 <= i < |top| && top[i].0 == p;
      assert (p, refs[i].1) in refs;
    }
    forall p | p in MoreThan(peers, o) ensures p in PeersOf(above) {
      assert (p, peers[p]) in refs;
      var i :| 0 <= i < |refs| && refs[i] == (p, peers[p]);
      assert i < quorum - 1;
      assert above[i].0 == p;
    }
    SubsetSize(PeersOf(top), AtLeast(peers, o));
    SubsetSize(MoreThan(peers, o), PeersOf(above));
  }

  method ConsensusMaximum(peers: map<Peer, nat>, quorum: nat) returns (r: Option<nat>)
    requires quorum > 0
    ensures r.None? <==> |peers| < quorum
    ensures r.Some? ==> IsQuorumOffset(peers, quorum, r.value)
  {
    if |peers| < quorum {
      return None;
    }
    var refs: seq<Ref>, rest := [], peers.Keys;
    while rest != {}
      invariant rest <= peers.Keys && |refs| + |rest| == |peers| && DistinctPeers(refs)
      invariant forall p, o :: (p, o) in refs <==> p in peers && p !in rest && peers[p] == o
      decreases |rest|
    {
      var p :| p in rest;
      assert forall i | 0 <= i < |refs| :: refs[i].0 != p by {
        forall i | 0 <= i < |refs| ensures refs[i].0 != p { assert (refs[i].0, refs[i].1) in refs; }
      }
      refs, rest := refs + [(p, peers[p])], rest - {p};
    }
    SortDownSpec(refs);
    refs := SortDown(refs);
    QuorumEntry(peers, refs, quorum);
    r := Some(refs[quorum - 1].1);
  }

  // ---------- Increments ----------

  method CalculateEpochIncrements(consensus: Offsets, committed: Offsets) returns (incs: seq<Interval>)
    ensures IncrementsOf(consensus, committed, incs)
  {
    incs := [];
    ghost var ranges: seq<nat> := [];
    var rest := consensus.Keys;
    while rest != {}
      invariant rest <= consensus.Keys && |incs| == |ranges|
      invariant forall i, j | 0 <= i < j < |ranges| :: ranges[i] != ranges[j]
      invariant forall r: nat :: r in ranges <==> r !in rest && Ahead(consensus, committed, r)
      invariant forall i | 0 <= i < |incs| ::
                  ranges[i] in consensus && incs[i] == Increment(consensus, committed, ranges[i])
      decreases |rest|
    {
      hide Id;
      var r :| r in rest;
      rest := rest - {r};
      var start := 0;
      if r in committed {
        start := committed[r] + 1;
      }
      if start <= consensus[r] {
        assert r !in ranges;
        incs := incs + [Interval(Id(r, start), Id(r, consensus[r]))];
        ranges := ranges + [r];
      }
    }
    assert IncrementsFor(consensus, committed, ranges, incs);
  }

  // ---------- Missing intervals ----------

  /** The missing ids of a range between two offsets: a pointer walks over them and closes a run at every held id. */
  method MissingOf(txs: Txs, r: nat, from: nat, to: nat) returns (ivs: seq<Interval>)
    requires from <= to
    ensures MissingRuns(txs, r, from, to, ivs)
  {
    ivs := [];
    var left, pointer := from, from;
    while pointer <= to
      invariant from <= left <= pointer <= to + 1
      invariant left == from || Id(r, left - 1) in txs
      invariant forall id: nat | Id(r, left) <= id < Id(r, pointer) :: id !in txs
      invariant ClosedRuns(txs, r, from, left, ivs)
    {
      if Id(r, pointer) in txs {
        CloseRun(txs, r, from, left, pointer, ivs);
        if left < pointer {
          ivs := ivs + [Interval(Id(r, left), Id(r, pointer - 1))];
        }
        pointer := pointer + 1;
        left := pointer;
      } else {
        pointer := pointer + 1;
      }
    }
    LastRun(txs, r, from, left, to, ivs);
    if pointer != left {
      ivs := ivs + [Interval(Id(r, left), Id(r, pointer - 1))];
    }
  }

  /** All runs that end before offset `left`, which follows a held id. */
  ghost predicate ClosedRuns(txs: Txs, r: nat, from: nat, left: nat, ivs: seq<Interval>) {
    && (forall i | 0 <= i < |ivs| ::
          && Id(r, from) <= ivs[i].left <= ivs[i].right && ivs[i].right + 1 < Id(r, left)
          && (ivs[i].left == Id(r, from) || ivs[i].left - 1 in txs) && ivs[i].right + 1 in txs)
    && (forall i, j | 0 <= i < j < |ivs| :: ivs[i].right + 1 < ivs[j].left)
    && (forall id: nat | Id(r, from) <= id < Id(r, left) :: Asked(ivs, id) <==> id !in txs)
  }

  lemma AskedMore(ivs: seq<Interval>, iv: Interval, id: nat)
    ensures Asked(ivs + [iv], id) <==> Asked(ivs, id) || Contains(iv, id)
  {
    var ivs' := ivs + [iv];
    if i :| 0 <= i < |ivs| && Contains(ivs[i], id) { assert Contains(ivs'[i], id); }
    if Contains(iv, id) { assert Contains(ivs'[|ivs|], id); }
    if i :| 0 <= i < |ivs'| && Contains(ivs'[i], id) { assert i < |ivs| ==> Contains(ivs[i], id); }
  }

  lemma CloseRun(txs: Txs, r: nat, from: nat, left: nat, pointer: nat, ivs: seq<Interval>)
    requires from <= left <= pointer && (left == from || Id(r, left - 1) in txs) && Id(r, pointer) in txs
    requires forall id: nat | Id(r, left) <= id < Id(r, pointer) :: id !in txs
    requires ClosedRuns(txs, r, from, left, ivs)
    ensures left == pointer ==> ClosedRuns(txs, r, from, pointer + 1, ivs)
    ensures left < pointer ==> ClosedRuns(txs, r, from, pointer + 1, ivs + [Interval(Id(r, left), Id(r, pointer - 1))])
  {
    if left < pointer {
      var iv := Interval(Id(r, left), Id(r, pointer - 1));
      forall id: nat | Id(r, from) <= id < Id(r, pointer + 1) ensures Asked(ivs + [iv], id) <==> id !in txs {
        AskedMore(ivs, iv, id);
        if id >= Id(r, left) { NotAskedAfter(txs, r, from, left, ivs, id); }
      }
    } else {
      NotAskedAfter(txs, r, from, left, ivs, Id(r, pointer));
    }
  }

  lemma NotAskedAfter(txs: Txs, r: nat, from: nat, left: nat, ivs: seq<Interval>, id: nat)
    requires ClosedRuns(txs, r, from, left, ivs) && id >= Id(r, left)
    ensures !Asked(ivs, id)
  {}

  lemma LastRun(txs: Txs, r: nat, from: nat, left: nat, to: nat, ivs: seq<Interval>)
    requires from <= left <= to + 1 && from <= to && (left == from || Id(r, left - 1) in txs)
    requires forall id: nat | Id(r, left) <= id < Id(r, to + 1) :: id !in txs
    requires ClosedRuns(txs, r, from, left, ivs)
    ensures left == to + 1 ==> MissingRuns(txs, r, from, to, ivs)
    ensures left <= to ==> MissingRuns(txs, r, from, to, ivs + [Interval(Id(r, left), Id(r, to))])
  {
    if left <= to {
      var iv := Interval(Id(r, left), Id(r, to));
      forall id: nat | Id(r, from) <= id <= Id(r, to) ensures Asked(ivs + [iv], id) <==> id !in txs {
        AskedMore(ivs, iv, id);
        if id >= Id(r, left) { NotAskedAfter(txs, r, from, left, ivs, id); }
      }
    }
  }

  method FindBest(peers: map<Peer, nat>) returns (best: Option<Peer>)
    ensures best.None? <==> peers == map[]
    ensures best.Some? ==> Best(peers, best.value)
  {
    best := None;
    var rest := peers.Keys;
    while rest != {}
      invariant rest <= peers.Keys && (best.None? <==> rest == peers.Keys)
      invariant best.Some? ==> best.value in peers && forall q | q in peers && q !in rest :: peers[q] <= peers[best.value]
      decreases |rest|
    {
      var p :| p in rest;
      rest := rest - {p};
      if best.None? || peers[best.value] <= peers[p] {
        best := Some(p);
      }
    }
  }

  /** A node lags on a range just when it lags behind the furthest peer. */
  lemma LagsIff(self: Offsets, offsets: PeerOffsets, r: nat, best: Option<Peer>)
    requires r in offsets && (best.None? <==> offsets[r] == map[]) && (best.Some? ==> Best(offsets[r], best.value))
    ensures best.Some? ==> best.value in offsets[r]
    ensures Lags(self, offsets, r) <==> best.Some? && NextOffset(self, r) <= offsets[r][best.value]
    ensures NextOffset(self, r) == if r in self then self[r] + 1 else 0
  {}

  method SelfDelays(txs: Txs, self: Offsets, offsets: PeerOffsets)
    returns (asks: map<Peer, seq<Interval>>, ghost parts: map<nat, Part>)
    ensures Delayed(txs, self, offsets, parts, asks)
    ensures Small(offsets) ==> NoRepeats(asks)
  {
    asks, parts := map[], map[];
    var rest := offsets.Keys;
    while rest != {}
      invariant rest <= offsets.Keys
      invariant forall r: nat :: r in parts <==> r !in rest && Lags(self, offsets, r)
      invariant forall r | r in parts :: PartRight(txs, self, offsets, r, parts[r])
      invariant Collected(parts, asks)
      invariant Small(offsets) ==> NoRepeats(asks)
      decreases |rest|
    {
      hide PartRight, Collected, Small, NoRepeats, Lags, Best, NextOffset;
      var r :| r in rest;
      rest := rest - {r};
      var best := FindBest(offsets[r]);
      LagsIff(self, offsets, r, best);
      if best.Some? {
        var peer, right := best.value, offsets[r][best.value];
        var left := 0;
        if r in self {
          left := self[r] + 1;
        }
        if left <= right {
          var ivs := MissingOf(txs, r, left, right);
          assert PartRight(txs, self, offsets, r, Part(peer, ivs)) by { PartIs(txs, self, offsets, r, peer, ivs); }
          CollectMore(parts, asks, r, peer, ivs);
          if Small(offsets) { NoRepeatsMore(txs, self, offsets, parts, asks, r, Part(peer, ivs)); }
          parts := parts[r := Part(peer, ivs)];
          asks := asks[peer := if peer in asks then asks[peer] + ivs else ivs];
        }
      }
    }
  }

  // ---------- Answering ----------

  /** The loop that collects the transactions of an interval: it does not move on from an id that is missing. */
  datatype Walk = Walk(pointer: nat, found: seq<Tx>)

  function WalkStep(txs: Txs, end: nat, w: Walk): Walk {
    if w.pointer <= end && w.pointer in txs then Walk(w.pointer + 1, w.found + [txs[w.pointer]]) else w
  }

  function Walked(txs: Txs, end: nat, w: Walk, n: nat): Walk
    decreases n
  {
    if n == 0 then w else Walked(txs, end, WalkStep(txs, end, w), n - 1)
  }

  ghost predicate HoldsAll(txs: Txs, from: nat, end: nat) {
    forall id: nat | from <= id <= end :: id in txs
  }

  /** The loop comes to an end just when nothing is missing. */
  lemma WalkEnds(txs: Txs, end: nat, w: Walk)
    ensures (exists n: nat :: Walked(txs, end, w, n).pointer > end) <==> HoldsAll(txs, w.pointer, end)
  {
    if HoldsAll(txs, w.pointer, end) {
      var n := WalkThrough(txs, end, w);
    } else {
      var id: nat :| w.pointer <= id <= end && id !in txs;
      forall n: nat ensures Walked(txs, end, w, n).pointer <= end { WalkStops(txs, end, w, id, n); }
    }
  }

  lemma {:induction false} WalkThrough(txs: Txs, end: nat, w: Walk) returns (n: nat)
    requires HoldsAll(txs, w.pointer, end)
    ensures Walked(txs, end, w, n).pointer > end
    decreases end - w.pointer
  {
    if w.pointer > end {
      n := 0;
    } else {
      var m := WalkThrough(txs, end, WalkStep(txs, end, w));
      n := m + 1;
    }
  }

  lemma {:induction false} WalkStops(txs: Txs, end: nat, w: Walk, id: nat, n: nat)
    requires w.pointer <= id <= end && id !in txs
    ensures Walked(txs, end, w, n).pointer <= id
    decreases n
  {
    if n > 0 { WalkStops(txs, end, WalkStep(txs, end, w), id, n - 1); }
  }

  /**
   * The transactions of the requested intervals, in order. The loop over an interval makes at most `limit` passes; it is
   * complete just when nothing is missing and the passes suffice.
   */
  method Respond(txs: Txs, ivs: seq<Interval>, limit: nat) returns (complete: bool, response: seq<Tx>)
    ensures complete <==> forall k | 0 <= k < |ivs| :: IntervalDone(txs, ivs[k], limit)
    ensures complete ==> (forall id: nat | Asked(ivs, id) :: id in txs) && (forall id | id in Batch(ivs) :: id in txs)
    ensures complete ==> response == Selected(txs, Batch(ivs))
  {
    response := [];
    for k := 0 to |ivs|
      invariant forall j | 0 <= j < k :: IntervalDone(txs, ivs[j], limit)
      invariant forall id | id in Batch(ivs[..k]) :: id in txs
      invariant response == Selected(txs, Batch(ivs[..k]))
    {
      hide Selected, Batch, Ids, IntervalDone;
      var ok, found := RespondInterval(txs, ivs[k], limit);
      if !ok {
        return false, [];
      }
      assert ivs[..k + 1] == ivs[..k] + [ivs[k]];
      BatchAppend(ivs[..k], ivs[k]);
      SelectedConcat(txs, Batch(ivs[..k]), Ids(ivs[k]));
      response := response + found;
    }
    assert ivs[..|ivs|] == ivs;
    forall id: nat | Asked(ivs, id) ensures id in txs { AskedBatch(ivs, id); }
    complete := true;
  }

  /** Every id of an interval is held, and `limit` passes are enough for it. */
  ghost predicate IntervalDone(txs: Txs, iv: Interval, limit: nat) {
    HoldsAll(txs, iv.left, iv.right) && iv.left + limit > iv.right
  }

  /** The loop over one interval: it does not move on from an id that is missing. */
  method RespondInterval(txs: Txs, iv: Interval, limit: nat) returns (complete: bool, found: seq<Tx>)
    ensures complete <==> IntervalDone(txs, iv, limit)
    ensures Walk(iv.left + |found|, found) == Walked(txs, iv.right, Walk(iv.left, []), limit)
    ensures complete ==> (forall id | id in Ids(iv) :: id in txs) && found == Selected(txs, Ids(iv))
  {
    found := [];
    var pointer := iv.left;
    for pass := 0 to limit
      invariant iv.left <= pointer == iv.left + |found| && |found| <= pass
      invariant Walked(txs, iv.right, Walk(pointer, found), limit - pass) == Walked(txs, iv.right, Walk(iv.left, []), limit)
      invariant (forall id: nat | iv.left <= id < pointer :: id in txs) && (pointer <= iv.right + 1 || pointer == iv.left)
      invariant forall i | 0 <= i < |found| :: iv.left + i in txs && found[i] == txs[iv.left + i]
      invariant pointer <= iv.right && pointer in txs ==> pointer == iv.left + pass
    {
      if pointer <= iv.right && pointer in txs {
        found := found + [txs[pointer]];
        pointer := pointer + 1;
      }
    }
    complete := pointer > iv.right;
  }

  lemma SelectedConcat(txs: Txs, a: seq<nat>, b: seq<nat>)
    requires forall id | id in a + b :: id in txs
    ensures (forall id | id in a :: id in txs) && (forall id | id in b :: id in txs)
    ensures Selected(txs, a + b) == Selected(txs, a) + Selected(txs, b)
  {
    assert forall id | id in a :: id in a + b;
    assert forall id | id in b :: id in a + b;
  }

  /** What the loop collects is the answer that the requesting node relies on. */
  lemma SelectedAnswers(txs: Txs, ivs: seq<Interval>)
    requires forall id | id in txs :: txs[id].id == id
    requires forall id: nat | Asked(ivs, id) :: id in txs
    requires forall id | id in Batch(ivs) :: id in txs
    ensures AnswerOf(txs, ivs, Selected(txs, Batch(ivs)))
  {
    hide Batch, Asked;
    var ids, found := Batch(ivs), Selected(txs, Batch(ivs));
    forall id: nat ensures id in ids <==> Asked(ivs, id) { AskedBatch(ivs, id); }
    forall id: nat | Asked(ivs, id) ensures txs[id] in found {
      var i :| 0 <= i < |ids| && ids[i] == id;
      assert found[i] == txs[id];
    }
    forall i | 0 <= i < |found| ensures Asked(ivs, found[i].id) && found[i].id in txs && txs[found[i].id] == found[i] {
      assert ids[i] in ids;
    }
  }

  lemma AskedBatch(ivs: seq<Interval>, id: nat)
    ensures id in Batch(ivs) <==> Asked(ivs, id)
  {
    BatchHas(ivs, id);
  }
}
