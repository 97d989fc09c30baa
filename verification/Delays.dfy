/** What a node lacks and whom it asks for it. */
module Delays {
  import opened Wrappers
  import opened RangeKey
  import opened Replica
  import opened Epochs
  import opened NodeSpec

  predicate Best(peers: map<Peer, nat>, p: Peer) {
    p in peers && forall q | q in peers :: peers[q] <= peers[p]
  }

  /** For a range on which the node lags: a peer that is furthest, and what to ask of it. */
  datatype Part = Part(peer: Peer, ivs: seq<Interval>)

  ghost predicate PartRight(txs: Txs, self: Offsets, offsets: PeerOffsets, r: nat, part: Part) {
    && r in offsets && Best(offsets[r], part.peer)
    && NextOffset(self, r) <= offsets[r][part.peer]
    && MissingRuns(txs, r, NextOffset(self, r), offsets[r][part.peer], part.ivs)
  }

  /** Some peer is further than the node itself. */
  predicate Lags(self: Offsets, offsets: PeerOffsets, r: nat) {
    r in offsets && exists p | p in offsets[r] :: NextOffset(self, r) <= offsets[r][p]
  }

  /** What is asked of the peers is what the parts say. */
  ghost predicate Collected(parts: map<nat, Part>, asks: map<Peer, seq<Interval>>) {
    && (forall r | r in parts :: parts[r].peer in asks)
    && (forall p | p in asks :: exists r :: r in parts && parts[r].peer == p)
    && (forall p, iv :: p in asks && iv in asks[p] <==> exists r :: r in parts && parts[r].peer == p && iv in parts[r].ivs)
  }

  ghost predicate NoRepeats(asks: map<Peer, seq<Interval>>) {
    forall p, i, j | p in asks && 0 <= i < j < |asks[p]| :: asks[p][i] != asks[p][j]
  }

  /** Exactly the lagging ranges have a part, and the requests are made of the parts. */
  ghost predicate Delayed(txs: Txs, self: Offsets, offsets: PeerOffsets, parts: map<nat, Part>, asks: map<Peer, seq<Interval>>) {
    && (forall r: nat :: r in parts <==> Lags(self, offsets, r))
    && (forall r | r in parts :: PartRight(txs, self, offsets, r, parts[r]))
    && Collected(parts, asks)
  }

  lemma PartIs(txs: Txs, self: Offsets, offsets: PeerOffsets, r: nat, peer: Peer, ivs: seq<Interval>)
    requires r in offsets && Best(offsets[r], peer) && NextOffset(self, r) <= offsets[r][peer]
    requires MissingRuns(txs, r, NextOffset(self, r), offsets[r][peer], ivs)
    ensures PartRight(txs, self, offsets, r, Part(peer, ivs))
  {
    hide MissingRuns, Best;
  }

  lemma CollectMore(parts: map<nat, Part>, asks: map<Peer, seq<Interval>>, r: nat, peer: Peer, ivs: seq<Interval>)
    requires Collected(parts, asks) && r !in parts
    ensures Collected(parts[r := Part(peer, ivs)], asks[peer := if peer in asks then asks[peer] + ivs else ivs])
  {
    var parts', asks' := parts[r := Part(peer, ivs)], asks[peer := if peer in asks then asks[peer] + ivs else ivs];
    forall p | p in asks' ensures exists r' :: r' in parts' && parts'[r'].peer == p {
      if p == peer { assert parts'[r].peer == p; } else {
        var r' :| r' in parts && parts[r'].peer == p;
        assert parts'[r'].peer == p;
      }
    }
    forall p, iv
      ensures p in asks' && iv in asks'[p] <==> exists r' :: r' in parts' && parts'[r'].peer == p && iv in parts'[r'].ivs
    {
      if p in asks' && iv in asks'[p] {
        if p == peer && iv in ivs {
          assert r in parts' && parts'[r].peer == p && iv in parts'[r].ivs;
        } else {
          assert p in asks && iv in asks[p];
          var r' :| r' in parts && parts[r'].peer == p && iv in parts[r'].ivs;
          assert r' in parts' && parts'[r'].peer == p && iv in parts'[r'].ivs;
        }
      }
      if r' :| r' in parts' && parts'[r'].peer == p && iv in parts'[r'].ivs {
        if r' != r { assert r' in parts && parts[r'].peer == p && iv in parts[r'].ivs; }
      }
    }
  }

  /** An interval of a part lies in the part's range. */
  lemma PartRange(txs: Txs, self: Offsets, offsets: PeerOffsets, r: nat, part: Part, i: nat)
    requires PartRight(txs, self, offsets, r, part) && Small(offsets) && i < |part.ivs|
    ensures r in offsets && part.peer in offsets[r]
    ensures Id(r, 0) <= part.ivs[i].left <= part.ivs[i].right <= Id(r, offsets[r][part.peer]) < Id(r, SIZE)
    ensures RangeOf(part.ivs[i]) == r
  {}

  lemma NoRepeatsMore(txs: Txs, self: Offsets, offsets: PeerOffsets, parts: map<nat, Part>, asks: map<Peer, seq<Interval>>,
                      r: nat, part: Part)
    requires Collected(parts, asks) && r !in parts && Small(offsets) && NoRepeats(asks)
    requires forall r' | r' in parts :: PartRight(txs, self, offsets, r', parts[r'])
    requires PartRight(txs, self, offsets, r, part)
    ensures NoRepeats(asks[part.peer := if part.peer in asks then asks[part.peer] + part.ivs else part.ivs])
  {
    hide RangeOf, Small;
    var p, ivs := part.peer, part.ivs;
    assert forall i, j | 0 <= i < j < |ivs| :: ivs[i] != ivs[j];
    if p in asks {
      forall i, j | 0 <= i < |asks[p]| && 0 <= j < |ivs| ensures asks[p][i] != ivs[j] {
        assert asks[p][i] in asks[p];
        var r' :| r' in parts && parts[r'].peer == p && asks[p][i] in parts[r'].ivs;
        var k :| 0 <= k < |parts[r'].ivs| && parts[r'].ivs[k] == asks[p][i];
        PartRange(txs, self, offsets, r', parts[r'], k);
        PartRange(txs, self, offsets, r, part, j);
      }
    }
  }

  function Goals(parts: map<nat, Part>, offsets: PeerOffsets, p: Peer): Offsets {
    map r | r in parts && parts[r].peer == p && r in offsets && p in offsets[r] :: offsets[r][p]
  }

  /** A node asks each peer for what it lacks below that peer's offsets, and for nothing else. */
  lemma DelaysAsk(n: Node, parts: map<nat, Part>, asks: map<Peer, seq<Interval>>, p: Peer)
    requires OffsetsRight(n.self, n.txs) && Small(n.offsets) && p in asks
    requires forall r | r in parts :: PartRight(n.txs, n.self, n.offsets, r, parts[r])
    requires Collected(parts, asks)
    ensures Asks(n, p, asks[p], Goals(parts, n.offsets, p))
  {
    var goals, ivs := Goals(parts, n.offsets, p), asks[p];
    forall id: nat | Asked(ivs, id) ensures RangeOfId(id) in goals && OffsetOf(id) <= goals[RangeOfId(id)] {
      AskedBelow(n, parts, asks, p, id);
    }
    forall r, o: nat | r in goals && o <= goals[r] ensures Id(r, o) in n.txs || Asked(ivs, Id(r, o)) {
      RestAsked(n, parts, asks, p, r, o);
    }
  }

  lemma AskedBelow(n: Node, parts: map<nat, Part>, asks: map<Peer, seq<Interval>>, p: Peer, id: nat)
    requires Small(n.offsets) && p in asks && Collected(parts, asks) && Asked(asks[p], id)
    requires forall r | r in parts :: PartRight(n.txs, n.self, n.offsets, r, parts[r])
    ensures var goals := Goals(parts, n.offsets, p); RangeOfId(id) in goals && OffsetOf(id) <= goals[RangeOfId(id)]
  {
    hide PartRight, Small, RangeOf, RangeOfId, OffsetOf, Id;
    var i :| 0 <= i < |asks[p]| && Contains(asks[p][i], id);
    assert asks[p][i] in asks[p];
    var r :| r in parts && parts[r].peer == p && asks[p][i] in parts[r].ivs;
    var k :| 0 <= k < |parts[r].ivs| && parts[r].ivs[k] == asks[p][i];
    PartRange(n.txs, n.self, n.offsets, r, parts[r], k);
    InRange(r, n.offsets[r][p], id);
  }

  lemma InRange(r: nat, o: nat, id: nat)
    requires Id(r, 0) <= id <= Id(r, o) < Id(r, SIZE)
    ensures RangeOfId(id) == r && OffsetOf(id) <= o
  {}

  lemma RestAsked(n: Node, parts: map<nat, Part>, asks: map<Peer, seq<Interval>>, p: Peer, r: nat, o: nat)
    requires OffsetsRight(n.self, n.txs) && p in asks && Collected(parts, asks)
    requires forall r | r in parts :: PartRight(n.txs, n.self, n.offsets, r, parts[r])
    requires r in Goals(parts, n.offsets, p) && o <= n.offsets[r][p]
    ensures Id(r, o) in n.txs || Asked(asks[p], Id(r, o))
  {
    hide Best;
    var part, id := parts[r], Id(r, o);
    assert PrefixIs(n.txs, r, Lookup(n.self, r));
    if o >= NextOffset(n.self, r) && id !in n.txs {
      assert PartRight(n.txs, n.self, n.offsets, r, part);
      assert Asked(part.ivs, id);
      var k :| 0 <= k < |part.ivs| && Contains(part.ivs[k], id);
      assert part.ivs[k] in part.ivs;
      assert part.ivs[k] in asks[p];
      var i :| 0 <= i < |asks[p]| && asks[p][i] == part.ivs[k];
    }
  }

  /** A node that knows its own offsets never asks itself, and never sends an empty request. */
  lemma DelaysUseful(n: Node, me: Peer, parts: map<nat, Part>, asks: map<Peer, seq<Interval>>, p: Peer)
    requires OffsetsRight(n.self, n.txs) && Small(n.offsets) && p in asks && Collected(parts, asks)
    requires forall r: nat :: Own(n.offsets, me, r) == Lookup(n.self, r)
    requires forall r | r in parts :: PartRight(n.txs, n.self, n.offsets, r, parts[r])
    ensures p != me && asks[p] != []
  {
    hide Best;
    var r :| r in parts && parts[r].peer == p;
    assert PartRight(n.txs, n.self, n.offsets, r, parts[r]);
    assert Best(n.offsets[r], p) && p in n.offsets[r] by { BestIn(n.offsets[r], p); }
    assert Own(n.offsets, me, r) == Lookup(n.self, r);
    assert PrefixIs(n.txs, r, Lookup(n.self, r));
    var first := Id(r, NextOffset(n.self, r));
    assert first !in n.txs && Asked(parts[r].ivs, first);
    var k :| 0 <= k < |parts[r].ivs| && Contains(parts[r].ivs[k], first);
    assert parts[r].ivs[k] in parts[r].ivs;
    assert parts[r].ivs[k] in asks[p];
  }

  lemma BestIn(peers: map<Peer, nat>, p: Peer)
    requires Best(peers, p)
    ensures p in peers
  {}

  lemma GoalsRight(n: Node, me: Peer, parts: map<nat, Part>, asks: map<Peer, seq<Interval>>)
    requires OffsetsRight(n.self, n.txs) && Small(n.offsets) && Collected(parts, asks)
    requires forall r: nat :: r in parts <==> Lags(n.self, n.offsets, r)
    requires forall r | r in parts :: PartRight(n.txs, n.self, n.offsets, r, parts[r])
    ensures forall p | p in asks :: Asks(n, p, asks[p], Goals(parts, n.offsets, p))
    ensures (forall r: nat :: Own(n.offsets, me, r) == Lookup(n.self, r)) ==> me !in asks && forall p | p in asks :: asks[p] != []
    ensures forall r: nat | Lags(n.self, n.offsets, r) ::
              exists p :: p in asks && r in Goals(parts, n.offsets, p) && Best(n.offsets[r], p)
  {
    hide PartRight, Lags, Asks, OffsetsRight, Best, Own, Small;
    forall p | p in asks ensures Asks(n, p, asks[p], Goals(parts, n.offsets, p)) { DelaysAsk(n, parts, asks, p); }
    if forall r: nat :: Own(n.offsets, me, r) == Lookup(n.self, r) {
      forall p | p in asks ensures p != me && asks[p] != [] { DelaysUseful(n, me, parts, asks, p); }
    }
    forall r: nat | Lags(n.self, n.offsets, r)
      ensures exists p :: p in asks && r in Goals(parts, n.offsets, p) && Best(n.offsets[r], p)
    {
      var p := parts[r].peer;
      assert r in n.offsets && p in n.offsets[r] && Best(n.offsets[r], p) by { PartPeer(n.txs, n.self, n.offsets, r, parts[r]); }
      assert p in asks && r in Goals(parts, n.offsets, p);
    }
  }

  lemma PartPeer(txs: Txs, self: Offsets, offsets: PeerOffsets, r: nat, part: Part)
    requires PartRight(txs, self, offsets, r, part)
    ensures r in offsets && part.peer in offsets[r] && Best(offsets[r], part.peer)
  {
    hide MissingRuns;
  }
}
