/** The state of a node and what each of its handlers makes of it. */
module NodeSpec {
  import opened Wrappers
  import opened RangeKey
  import opened Replica
  import opened Epochs
  import opened Intake

  /** Per range, the offset that every known peer has reached. */
  type PeerOffsets = map<nat, map<Peer, nat>>

  /** `self` are the node's own offsets; `sent` lists the batches handed to the runtime. */
  datatype Node = Node(
    txs: Txs,
    self: Offsets,
    offsets: PeerOffsets,
    consensus: Offsets,
    committed: Offsets,
    epochs: seq<Epoch>,
    log: seq<nat>,
    sent: seq<seq<nat>>)

  const EMPTY: Node := Node(map[], map[], map[], map[], map[], [], [], [])

  function Known(offsets: PeerOffsets, r: nat): map<Peer, nat> {
    if r in offsets then offsets[r] else map[]
  }

  /** Records the offsets that a peer has reached. */
  function Heard(offsets: PeerOffsets, from: Peer, state: Offsets): PeerOffsets {
    map r | r in offsets.Keys + state.Keys ::
      if r in state then Known(offsets, r)[from := state[r]] else Known(offsets, r)
  }

  /** The offset of range `r` that node `p` has recorded for itself. */
  function Own(offsets: PeerOffsets, p: Peer, r: nat): Option<nat> {
    if r in offsets && p in offsets[r] then Some(offsets[r][p]) else None
  }

  function Restricted(offsets: Offsets, ranges: set<nat>): Offsets {
    map r | r in offsets && r in ranges :: offsets[r]
  }

  /** New transactions arrive at node `me`, which takes them in range by range in the given order. */
  ghost function WithTxs(n: Node, me: Peer, batch: seq<Tx>, order: seq<nat>): Node {
    var held := TakeAll(Held(n.txs, n.self), batch, order);
    n.(txs := held.txs, self := held.self, offsets := Heard(n.offsets, me, Restricted(held.self, Touched(batch))))
  }

  function AtLeast(peers: map<Peer, nat>, o: nat): set<Peer> {
    set p | p in peers && peers[p] >= o
  }

  function MoreThan(peers: map<Peer, nat>, o: nat): set<Peer> {
    set p | p in peers && peers[p] > o
  }

  /** `o` is the largest offset that `quorum` peers have reached. */
  predicate IsQuorumOffset(peers: map<Peer, nat>, quorum: nat, o: nat) {
    |AtLeast(peers, o)| >= quorum && |MoreThan(peers, o)| < quorum
  }

  lemma QuorumOffsetUnique(peers: map<Peer, nat>, quorum: nat, o: nat, o': nat)
    requires IsQuorumOffset(peers, quorum, o) && IsQuorumOffset(peers, quorum, o') && o <= o'
    ensures o == o'
  {
    if o < o' {
      SubsetSize(AtLeast(peers, o'), MoreThan(peers, o));
    }
  }

  lemma {:induction false} SubsetSize<T>(a: set<T>, b: set<T>)
    requires a <= b
    ensures |a| <= |b|
    decreases a
  {
    if x :| x in a {
      SubsetSize(a - {x}, b - {x});
    }
  }

  /** The consensus offsets are renewed for every range that enough peers have reported; the others stay. */
  ghost predicate Recalculates(n: Node, quorum: nat, consensus: Offsets) {
    && (forall r: nat | r in consensus :: r in n.consensus || r in n.offsets)
    && (forall r: nat | r in n.offsets && |n.offsets[r]| >= quorum ::
          r in consensus && IsQuorumOffset(n.offsets[r], quorum, consensus[r]))
    && (forall r: nat | !(r in n.offsets && |n.offsets[r]| >= quorum) ::
          Lookup(consensus, r) == Lookup(n.consensus, r))
  }

  function Increment(consensus: Offsets, committed: Offsets, r: nat): Interval
    requires r in consensus
  {
    Interval(Id(r, NextOffset(committed, r)), Id(r, consensus[r]))
  }

  predicate Ahead(consensus: Offsets, committed: Offsets, r: nat) {
    r in consensus && NextOffset(committed, r) <= consensus[r]
  }

  /** One interval for every range where the consensus is ahead of what is committed; `ranges` lists those ranges. */
  ghost predicate IncrementsFor(consensus: Offsets, committed: Offsets, ranges: seq<nat>, incs: seq<Interval>) {
    && (forall i, j | 0 <= i < j < |ranges| :: ranges[i] != ranges[j])
    && (forall r: nat :: r in ranges <==> Ahead(consensus, committed, r))
    && |incs| == |ranges|
    && forall i | 0 <= i < |incs| :: ranges[i] in consensus && incs[i] == Increment(consensus, committed, ranges[i])
  }

  /** The ranges come in any order. */
  ghost predicate IncrementsOf(consensus: Offsets, committed: Offsets, incs: seq<Interval>) {
    exists ranges :: IncrementsFor(consensus, committed, ranges, incs)
  }

  /** The consensus where it is ahead, and what is committed otherwise. */
  function Further(consensus: Offsets, committed: Offsets, r: nat): Option<nat> {
    if r !in consensus then Lookup(committed, r)
    else if r in committed && committed[r] > consensus[r] then Some(committed[r])
    else Some(consensus[r])
  }

  /** Committing a proposal brings every range to the larger of its committed and its consensus offset. */
  lemma IncrementsReach(consensus: Offsets, committed: Offsets, incs: seq<Interval>, r: nat)
    requires IncrementsOf(consensus, committed, incs)
    requires forall k | k in consensus :: k < MAX_BLOCK_INDEX && consensus[k] < SIZE
    ensures AllFit(committed, incs)
    ensures Lookup(Committed(committed, Sort(incs)), r) == Further(consensus, committed, r)
  {
    var ranges :| IncrementsFor(consensus, committed, ranges, incs);
    forall i | 0 <= i < |incs| 
      ensures RangeOf(incs[i]) == ranges[i] && Fits(committed, incs[i]) && OffsetOf(incs[i].right) == consensus[ranges[i]]
    {
      assert ranges[i] in ranges;
    }
    hide Fits, RangeOf, OffsetOf, Sort, Committed;
    SortFits(committed, incs);
    var sorted := Sort(incs);
    CommittedIs(committed, sorted);
    if Ahead(consensus, committed, r) {
      var i :| 0 <= i < |ranges| && ranges[i] == r;
      assert incs[i] in sorted;
      var j :| 0 <= j < |sorted| && sorted[j] == incs[i];
      assert Lookup(Committed(committed, sorted), RangeOf(sorted[j])) == Some(OffsetOf(sorted[j].right));
    } else {
      forall j | 0 <= j < |sorted| ensures RangeOf(sorted[j]) != r {
        assert sorted[j] in incs;
        var i :| 0 <= i < |incs| && incs[i] == sorted[j];
        assert ranges[i] in ranges;
      }
    }
  }

  function LastEpoch(n: Node): Option<Epoch> {
    if n.epochs == [] then None else Some(n.epochs[|n.epochs| - 1])
  }

  ghost predicate Proposes(n: Node, me: Peer, e: Epoch) {
    e.creator == me && e.number == NextNumber(LastEpoch(n)) && IncrementsOf(n.consensus, n.committed, e.increments)
  }

  function Learned(e: Epoch): Epoch {
    e.(increments := Sort(e.increments))
  }

  /** A committed epoch arrives: it is sorted, appended to the log and handed to the runtime. */
  function WithEpoch(n: Node, e: Epoch): Node {
    var incs := Sort(e.increments);
    n.(committed := Committed(n.committed, incs),
       epochs := n.epochs + [Learned(e)],
       log := n.log + Batch(incs),
       sent := if Batch(incs) == [] then n.sent else n.sent + [Batch(incs)])
  }

  // ---------- Catching up ----------

  /** The ids of the intervals. */
  predicate Asked(ivs: seq<Interval>, id: nat) {
    exists i | 0 <= i < |ivs| :: Contains(ivs[i], id)
  }

  /** The maximal runs of missing ids of range `r` between two offsets, in increasing order. */
  ghost predicate MissingRuns(txs: Txs, r: nat, left: nat, right: nat, ivs: seq<Interval>) {
    && (forall i | 0 <= i < |ivs| ::
          && Id(r, left) <= ivs[i].left <= ivs[i].right <= Id(r, right)
          && (ivs[i].left == Id(r, left) || ivs[i].left - 1 in txs)
          && (ivs[i].right == Id(r, right) || ivs[i].right + 1 in txs))
    && (forall i, j | 0 <= i < j < |ivs| :: ivs[i].right + 1 < ivs[j].left)
    && (forall id: nat | Id(r, left) <= id <= Id(r, right) :: Asked(ivs, id) <==> id !in txs)
  }

  /**
   * What a node asks of peer `to`: `goals` are the offsets it has seen there. Everything asked for lies below a goal,
   * and with it the node has everything below the goals.
   */
  ghost predicate Asks(n: Node, to: Peer, ivs: seq<Interval>, goals: Offsets) {
    && (forall r | r in goals :: r in n.offsets && to in n.offsets[r] && n.offsets[r][to] == goals[r])
    && (forall id: nat | Asked(ivs, id) :: RangeOfId(id) in goals && OffsetOf(id) <= goals[RangeOfId(id)])
    && (forall r, o: nat | r in goals && o <= goals[r] :: Id(r, o) in n.txs || Asked(ivs, Id(r, o)))
  }

  function Selected(txs: Txs, ids: seq<nat>): seq<Tx>
    requires forall i | 0 <= i < |ids| :: ids[i] in txs
  {
    seq(|ids|, i requires 0 <= i < |ids| => txs[ids[i]])
  }

  /** The transactions of the intervals, and nothing else. */
  ghost predicate AnswerOf(txs: Txs, ivs: seq<Interval>, response: seq<Tx>) {
    && (forall id: nat | Asked(ivs, id) :: id in txs && txs[id] in response)
    && (forall i | 0 <= i < |response| ::
          var tx := response[i]; Asked(ivs, tx.id) && tx.id in txs && txs[tx.id] == tx)
  }

  /** All offsets fit into a range. */
  predicate Small(offsets: PeerOffsets) {
    forall r, p | r in offsets && p in offsets[r] :: offsets[r][p] < SIZE
  }
}
