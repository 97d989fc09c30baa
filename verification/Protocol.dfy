/**
 * The replication protocol: any number of nodes, gateways, messages that may be lost, delayed, reordered and repeated,
 * and one history with an atomic compare-and-swap.
 */
module Protocol {
  import opened Wrappers
  import opened RangeKey
  import opened Replica
  import opened Epochs
  import opened Intake
  import opened NodeSpec
  import opened Delays

  /** `goals` records the offsets that the asking node had seen; no step reads it. */
  datatype Request = Request(from: Peer, to: Peer, intervals: seq<Interval>, goals: Offsets)

  datatype Response = Response(request: Request, txs: seq<Tx>)

  /**
   * `next` is, for every range with a gateway, the offset it will hand out next. The message sets only grow: a message
   * may arrive at any later time, any number of times, or never.
   */
  datatype State = State(
    nodes: map<Peer, Node>,
    issued: Txs,
    next: Offsets,
    gossip: set<(Peer, Offsets)>,
    requests: set<Request>,
    responses: set<Response>,
    proposals: set<Epoch>,
    history: map<nat, Epoch>)

  datatype Step =
    | Issue(range: nat, tx: Tx)
    | Deliver(peer: Peer, id: nat, order: seq<nat>)
    | Gossip(peer: Peer)
    | Hear(peer: Peer, from: Peer, offsets: Offsets)
    | Recalculate(peer: Peer, consensus: Offsets)
    | Propose(peer: Peer, epoch: Epoch)
    | Commit(epoch: Epoch)
    | Learn(peer: Peer)
    | Ask(request: Request, parts: map<nat, Part>, asks: map<Peer, seq<Interval>>)
    | Answer(response: Response)
    | Receive(response: Response, order: seq<nat>)

  ghost predicate Init(s: State) {
    && (forall p | p in s.nodes :: s.nodes[p] == EMPTY)
    && (forall r | r in s.next :: r < MAX_BLOCK_INDEX && s.next[r] == 0)
    && s.issued == map[] && s.gossip == {} && s.requests == {} && s.responses == {} && s.proposals == {} && s.history == map[]
  }

  function WithNode(s: State, p: Peer, n: Node): State {
    s.(nodes := s.nodes[p := n])
  }

  /** Node `p` takes in transactions, its ranges in any order. */
  ghost predicate TakesIn(s: State, p: Peer, batch: seq<Tx>, order: seq<nat>, s': State) {
    p in s.nodes && OrderOf(batch, order) && s' == WithNode(s, p, WithTxs(s.nodes[p], p, batch, order))
  }

  ghost predicate Holds(s: State, p: Peer, id: nat) {
    p in s.nodes && id in s.nodes[p].txs
  }

  /** A request is what a node's delays ask of one peer. */
  ghost predicate AskedOf(n: Node, req: Request, parts: map<nat, Part>, asks: map<Peer, seq<Interval>>) {
    && Delayed(n.txs, n.self, n.offsets, parts, asks) && req.to in asks
    && req.intervals == asks[req.to] && req.goals == Goals(parts, n.offsets, req.to)
  }

  /** The answering loop has come to its end. */
  ghost predicate Answers(n: Node, resp: Response) {
    var ids := Batch(resp.request.intervals);
    (forall id | id in ids :: id in n.txs) && resp.txs == Selected(n.txs, ids)
  }

  ghost predicate Next(quorum: nat, s: State, step: Step, s': State) {
    match step
    case Issue(r, tx) =>
      && r in s.next && s.next[r] < LAST && tx.id == Id(r, s.next[r])
      && s' == s.(issued := s.issued[tx.id := tx], next := s.next[r := s.next[r] + 1])
    case Deliver(p, id, order) => id in s.issued && TakesIn(s, p, [s.issued[id]], order, s')
    case Gossip(p) => p in s.nodes && s' == s.(gossip := s.gossip + {(p, s.nodes[p].self)})
    case Hear(p, from, offsets) =>
      && p in s.nodes && from != p && (from, offsets) in s.gossip
      && s' == WithNode(s, p, s.nodes[p].(offsets := Heard(s.nodes[p].offsets, from, offsets)))
    case Recalculate(p, consensus) =>
      && p in s.nodes && Recalculates(s.nodes[p], quorum, consensus)
      && s' == WithNode(s, p, s.nodes[p].(consensus := consensus))
    case Propose(p, e) =>
      p in s.nodes && Proposes(s.nodes[p], p, e) && s' == s.(proposals := s.proposals + {e})
    case Commit(e) =>
      e in s.proposals && e.number !in s.history && s' == s.(history := s.history[e.number := e])
    case Learn(p) =>
      && p in s.nodes && |s.nodes[p].epochs| in s.history
      && var e := s.history[|s.nodes[p].epochs|];
      && (forall id: nat | Asked(e.increments, id) :: id in s.nodes[p].txs)
      && s' == WithNode(s, p, WithEpoch(s.nodes[p], e))
    case Ask(req, parts, asks) =>
      && req.from in s.nodes && AskedOf(s.nodes[req.from], req, parts, asks)
      && s' == s.(requests := s.requests + {req})
    case Answer(resp) =>
      && resp.request in s.requests && resp.request.to in s.nodes && Answers(s.nodes[resp.request.to], resp)
      && s' == s.(responses := s.responses + {resp})
    case Receive(resp, order) => resp in s.responses && TakesIn(s, resp.request.from, resp.txs, order, s')
  }

  // ---------- The invariant ----------

  ghost predicate IssuedRight(s: State) {
    && (forall r | r in s.next :: r < MAX_BLOCK_INDEX && s.next[r] <= LAST)
    && (forall id | id in s.issued ::
          s.issued[id].id == id && RangeOfId(id) in s.next && OffsetOf(id) < s.next[RangeOfId(id)])
  }

  ghost predicate TxsRight(s: State) {
    forall p, id | Holds(s, p, id) :: id in s.issued && s.nodes[p].txs[id] == s.issued[id]
  }

  /** The scan has found the longest held prefixes. */
  ghost predicate SelfRight(s: State) {
    forall p | p in s.nodes :: OffsetsRight(s.nodes[p].self, s.nodes[p].txs)
  }

  /** Peer `q` has reached offset `o` of range `r`. */
  ghost predicate Reached(s: State, q: Peer, r: nat, o: nat) {
    q in s.nodes && HasPrefix(s.nodes[q].txs, r, o) && r < MAX_BLOCK_INDEX && o < SIZE
  }

  /** What nodes believe about each other, and what they say about themselves, is true. */
  ghost predicate BeliefsRight(s: State) {
    && (forall p, r, q | p in s.nodes && r in s.nodes[p].offsets && q in s.nodes[p].offsets[r] ::
          Reached(s, q, r, s.nodes[p].offsets[r][q]))
    && (forall g, r | g in s.gossip && r in g.1 :: Reached(s, g.0, r, g.1[r]))
  }

  /** A node's record of itself is right. */
  ghost predicate OwnRight(s: State) {
    forall p, r: nat | p in s.nodes :: PrefixIs(s.nodes[p].txs, r, Own(s.nodes[p].offsets, p, r))
  }

  ghost function Backers(s: State, r: nat, o: nat): set<Peer> {
    set p | p in s.nodes && HasPrefix(s.nodes[p].txs, r, o)
  }

  ghost predicate Backed(s: State, quorum: nat, r: nat, o: nat) {
    |Backers(s, r, o)| >= quorum && r < MAX_BLOCK_INDEX && o < SIZE
  }

  ghost predicate EpochBacked(s: State, quorum: nat, e: Epoch) {
    forall i | 0 <= i < |e.increments| :: Backed(s, quorum, RangeOf(e.increments[i]), OffsetOf(e.increments[i].right))
  }

  ghost predicate QuorumRight(s: State, quorum: nat) {
    && (forall p, r | p in s.nodes && r in s.nodes[p].consensus :: Backed(s, quorum, r, s.nodes[p].consensus[r]))
    && (forall e | e in s.proposals :: EpochBacked(s, quorum, e))
    && (forall k | k in s.history :: EpochBacked(s, quorum, s.history[k]))
  }

  ghost predicate Dense(h: map<nat, Epoch>) {
    forall k: nat :: k in h <==> k < |h|
  }

  ghost function AsSeq(h: map<nat, Epoch>): (s: seq<Epoch>)
    requires Dense(h)
    ensures |s| == |h|
  {
    seq(|h|, k requires 0 <= k < |h| => h[k])
  }

  function AllLearned(h: seq<Epoch>): seq<Epoch> {
    seq(|h|, k requires 0 <= k < |h| => Learned(h[k]))
  }

  function Concat(batches: seq<seq<nat>>): seq<nat> {
    if batches == [] then [] else Concat(batches[..|batches| - 1]) + batches[|batches| - 1]
  }

  /** A node's epochs, committed offsets, log and batches are those of a prefix of the history. */
  ghost predicate Follows(n: Node, h: seq<Epoch>) {
    && |n.epochs| <= |h|
    && var seen := h[..|n.epochs|];
    && n.epochs == AllLearned(seen) && n.committed == CommittedAfter(seen)
    && n.log == LogOf(seen) && n.log == Concat(n.sent) && n.sent == BatchesOf(seen)
  }

  /** A proposal goes on where the epochs before its number end; by now there may be more of them. */
  ghost predicate ProposalRight(e: Epoch, h: seq<Epoch>) {
    e.number <= |h| && AllFit(CommittedAfter(h[..e.number]), e.increments)
  }

  ghost predicate HistoryRight(s: State) {
    && Dense(s.history) && Chained(AsSeq(s.history))
    && (forall p | p in s.nodes :: Follows(s.nodes[p], AsSeq(s.history)))
    && (forall e | e in s.proposals :: ProposalRight(e, AsSeq(s.history)))
  }

  /** Something is asked of another peer, it is there, and with it the asking node reaches its goals. */
  ghost predicate RequestRight(s: State, req: Request) {
    && req.from in s.nodes && req.to != req.from && req.intervals != [] && (forall r | r in req.goals :: req.goals[r] < SIZE)
    && (forall id: nat | Asked(req.intervals, id) :: Holds(s, req.to, id))
    && (forall r, o: nat | r in req.goals && o <= req.goals[r] ::
          Holds(s, req.from, Id(r, o)) || Asked(req.intervals, Id(r, o)))
  }

  ghost predicate ResponseRight(s: State, resp: Response) {
    && resp.request in s.requests
    && (forall id: nat | Asked(resp.request.intervals, id) :: id in s.issued && s.issued[id] in resp.txs)
    && (forall i | 0 <= i < |resp.txs| :: resp.txs[i].id in s.issued && s.issued[resp.txs[i].id] == resp.txs[i])
  }

  ghost predicate CatchUpRight(s: State) {
    && (forall req | req in s.requests :: RequestRight(s, req))
    && (forall resp | resp in s.responses :: ResponseRight(s, resp))
  }

  ghost predicate Inv(quorum: nat, s: State) {
    && IssuedRight(s) && TxsRight(s) && SelfRight(s) && BeliefsRight(s) && OwnRight(s)
    && QuorumRight(s, quorum) && HistoryRight(s) && CatchUpRight(s)
  }
}
