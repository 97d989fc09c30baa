/** The promises of the replication protocol, for all its runs. */
module ProtocolTheorems {
  import opened Wrappers
  import opened RangeKey
  import opened Replica
  import opened Epochs
  import opened Intake
  import opened NodeSpec
  import opened Delays
  import opened Protocol
  import opened ProtocolSafety

  ghost predicate IsRun(quorum: nat, run: seq<State>, steps: seq<Step>) {
    && |run| == |steps| + 1 && Init(run[0])
    && forall i | 0 <= i < |steps| :: Next(quorum, run[i], steps[i], run[i + 1])
  }

  lemma InitInv(quorum: nat, s: State)
    requires Init(s)
    ensures Inv(quorum, s)
  {
    assert LogOf([]) == Concat([]);
    assert AsSeq(s.history) == [];
  }

  lemma {:induction false} RunInv(quorum: nat, run: seq<State>, steps: seq<Step>, i: nat)
    requires quorum > 0 && IsRun(quorum, run, steps) && i < |run|
    ensures Inv(quorum, run[i])
  {
    hide Inv, Next, Init;
    if i == 0 {
      InitInv(quorum, run[0]);
    } else {
      RunInv(quorum, run, steps, i - 1);
      assert Next(quorum, run[i - 1], steps[i - 1], run[i - 1 + 1]);
      StepKeepsInv(quorum, run[i - 1], steps[i - 1], run[i]);
    }
  }

  /**
   * Whatever races and stale proposals there were: the history has no holes, every epoch goes on where the ones before
   * it end, no id is committed twice, and of every range exactly the ids up to its committed offset are committed.
   */
  lemma HistorySafety(quorum: nat, run: seq<State>, steps: seq<Step>, i: nat)
    requires quorum > 0 && IsRun(quorum, run, steps) && i < |run|
    ensures Dense(run[i].history) && Chained(AsSeq(run[i].history))
    ensures var h := AsSeq(run[i].history); Covers(LogOf(h), CommittedAfter(h)) && RangewiseIncreasing(LogOf(h))
    ensures forall k, j, k', j', id: nat ::
              0 <= k <= k' < |run[i].history| && 0 <= j < |AsSeq(run[i].history)[k].increments|
              && 0 <= j' < |AsSeq(run[i].history)[k'].increments|
              && Contains(AsSeq(run[i].history)[k].increments[j], id) && Contains(AsSeq(run[i].history)[k'].increments[j'], id)
              ==> k == k' && j == j'
  {
    hide Chained, Covers, LogOf, CommittedAfter, RangewiseIncreasing, IsRun, Contains;
    RunInv(quorum, run, steps, i);
    var h := AsSeq(run[i].history);
    ChainedCovers(h);
    forall k, j, k', j', id: nat |
      0 <= k <= k' < |h| && 0 <= j < |h[k].increments| && 0 <= j' < |h[k'].increments|
      && Contains(h[k].increments[j], id) && Contains(h[k'].increments[j'], id)
      ensures k == k' && j == j'
    {
      ChainedDisjoint(h, k, j, k', j', id);
    }
  }

  lemma LogPrefix(h: seq<Epoch>, a: nat, b: nat)
    requires a <= b <= |h|
    ensures LogOf(h[..a]) <= LogOf(h[..b]) && BatchesOf(h[..a]) <= BatchesOf(h[..b])
    decreases b
  {
    hide Batch, Sort;
    if a < b {
      LogPrefix(h, a, b - 1);
      assert h[..b][..b - 1] == h[..b - 1];
    }
  }

  ghost predicate Extends(h: map<nat, Epoch>, h': map<nat, Epoch>) {
    forall k | k in h :: k in h' && h'[k] == h[k]
  }

  lemma {:induction false} HistoryGrows(quorum: nat, run: seq<State>, steps: seq<Step>, i: nat, j: nat)
    requires IsRun(quorum, run, steps) && i <= j < |run|
    ensures Extends(run[i].history, run[j].history)
    decreases j
  {
    hide Next, Init;
    if i < j {
      HistoryGrows(quorum, run, steps, i, j - 1);
      assert Next(quorum, run[j - 1], steps[j - 1], run[j - 1 + 1]);
      HistoryStep(quorum, run[j - 1], steps[j - 1], run[j]);
    }
  }

  lemma HistoryStep(quorum: nat, s: State, step: Step, s': State)
    requires Next(quorum, s, step, s')
    ensures Extends(s.history, s'.history)
  {
    hide AskedOf, Answers, Proposes, Recalculates, WithEpoch, WithTxs, OrderOf;
  }

  /**
   * Any two nodes, at any two times of a run, have logs of which one is a prefix of the other. No log repeats an id,
   * and each is what its node has handed to its runtime, batch by batch. The batches agree in the same way as the logs,
   * and every batch is strictly increasing.
   */
  lemma TotalOrder(quorum: nat, run: seq<State>, steps: seq<Step>, i: nat, p: Peer, j: nat, q: Peer)
    requires quorum > 0 && IsRun(quorum, run, steps) && i <= j < |run| && p in run[i].nodes && q in run[j].nodes
    ensures run[i].nodes[p].log <= run[j].nodes[q].log || run[j].nodes[q].log <= run[i].nodes[p].log
    ensures RangewiseIncreasing(run[i].nodes[p].log) && run[i].nodes[p].log == Concat(run[i].nodes[p].sent)
    ensures run[i].nodes[p].sent <= run[j].nodes[q].sent || run[j].nodes[q].sent <= run[i].nodes[p].sent
    ensures forall b | 0 <= b < |run[i].nodes[p].sent| :: Increasing(run[i].nodes[p].sent[b])
  {
    RunInv(quorum, run, steps, i);
    RunInv(quorum, run, steps, j);
    HistoryGrows(quorum, run, steps, i, j);
    Parts(quorum, run[i]);
    Parts(quorum, run[j]);
    hide IsRun, Inv, Chained, RangewiseIncreasing, Follows, Dense, Concat, Increasing;
    PrefixOfHistory(run[i].history, run[j].history);
    OrderedLogs(run[i].nodes[p], AsSeq(run[i].history), run[j].nodes[q], AsSeq(run[j].history));
  }

  lemma OrderedLogs(n: Node, h: seq<Epoch>, n': Node, h': seq<Epoch>)
    requires Follows(n, h) && Follows(n', h') && Chained(h) && |h| <= |h'| && h == h'[..|h|]
    ensures n.log <= n'.log || n'.log <= n.log
    ensures RangewiseIncreasing(n.log) && n.log == Concat(n.sent)
    ensures n.sent <= n'.sent || n'.sent <= n.sent
    ensures forall b | 0 <= b < |n.sent| :: Increasing(n.sent[b])
  {
    hide LogOf, CommittedAfter, Chained, RangewiseIncreasing, Concat, AllLearned, BatchesOf, Increasing;
    var a, b := |n.epochs|, |n'.epochs|;
    assert h[..a] == h'[..a];
    if a <= b { LogPrefix(h', a, b); } else { LogPrefix(h', b, a); }
    ChainedPrefix(h, a);
    ChainedCovers(h[..a]);
    ChainedAscends(h[..a]);
  }

  lemma PrefixOfHistory(h: map<nat, Epoch>, h': map<nat, Epoch>)
    requires Dense(h) && Dense(h') && Extends(h, h')
    ensures |h| <= |h'| && AsSeq(h) == AsSeq(h')[..|h|]
  {
    if |h| > 0 {
      var last: nat := |h| - 1;
      assert last in h;
      assert last in h';
    }
  }

  ghost function Holders(s: State, id: nat): set<Peer> {
    set p | p in s.nodes && id in s.nodes[p].txs
  }

  /**
   * Every id of a committed epoch is held by `quorum` nodes: in every state where the epoch is in the history, so
   * already in the first one, however old the gossip and the consensus offsets behind the proposal were.
   */
  lemma QuorumBacking(quorum: nat, run: seq<State>, steps: seq<Step>, i: nat, k: nat, id: nat)
    requires quorum > 0 && IsRun(quorum, run, steps) && i < |run| && k in run[i].history
    requires Asked(run[i].history[k].increments, id)
    ensures |Holders(run[i], id)| >= quorum
  {
    RunInv(quorum, run, steps, i);
    hide IsRun, Inv, HasPrefix, CommittedAfter;
    var s := run[i];
    var e := s.history[k];
    var j :| 0 <= j < |e.increments| && Contains(e.increments[j], id);
    var r, o := RangeOf(e.increments[j]), OffsetOf(e.increments[j].right);
    assert Backed(s, quorum, r, o) by { assert QuorumRight(s, quorum) by { Parts(quorum, s); } assert EpochBacked(s, quorum, e); }
    var c :| Fits(c, e.increments[j]) by { EpochFits(quorum, s, k, j); }
    FitsHolds(c, e.increments[j], id);
    assert id == Id(r, OffsetOf(id)) && OffsetOf(id) <= o;
    forall p | p in Backers(s, r, o) ensures p in Holders(s, id) {
      PrefixAt(s.nodes[p].txs, r, o, OffsetOf(id));
    }
    SubsetSize(Backers(s, r, o), Holders(s, id));
  }

  /**
   * If a proposal is committed, then after its epoch every range is committed up to the larger of what its node had seen
   * committed and of what its node took to be the consensus, in every later state and whoever has learned it.
   */
  lemma ProposalReaches(quorum: nat, run: seq<State>, steps: seq<Step>, i: nat, j: nat, r: nat)
    requires quorum > 0 && IsRun(quorum, run, steps) && i < |steps| && i < j < |run| && steps[i].Propose?
    requires var e := steps[i].epoch; e.number in run[j].history && run[j].history[e.number] == e
    ensures steps[i].peer in run[i].nodes && Dense(run[j].history) && steps[i].epoch.number < |run[j].history|
    ensures Lookup(CommittedAfter(AsSeq(run[j].history)[..steps[i].epoch.number + 1]), r)
         == Further(run[i].nodes[steps[i].peer].consensus, run[i].nodes[steps[i].peer].committed, r)
  {
    hide Next, Inv, QuorumRight, CatchUpRight, BeliefsRight, OwnRight, Further, Proposes, CommittedAfter, Chained, Follows,
         ProposalRight, TxsRight, IssuedRight, SelfRight, Extends, Init, Committed, Sort, Lookup;
    RunInv(quorum, run, steps, i);
    RunInv(quorum, run, steps, j);
    Parts(quorum, run[i]);
    Parts(quorum, run[j]);
    HistoryGrows(quorum, run, steps, i, j);
    assert Next(quorum, run[i], steps[i], run[i + 1]);
    ProposedBy(quorum, run[i], steps[i], run[i + 1]);
    hide IsRun;
    PrefixOfHistory(run[i].history, run[j].history);
    ProposedAfter(run[i], steps[i].peer, steps[i].epoch);
    ProposalCommits(run[i], quorum, steps[i].peer, steps[i].epoch, r);
    CommittedNext(AsSeq(run[i].history), AsSeq(run[j].history), steps[i].epoch);
  }

  lemma ProposedBy(quorum: nat, s: State, step: Step, s': State)
    requires Next(quorum, s, step, s') && step.Propose?
    ensures step.peer in s.nodes && Proposes(s.nodes[step.peer], step.peer, step.epoch)
  {}

  lemma ProposalCommits(s: State, quorum: nat, p: Peer, e: Epoch, r: nat)
    requires QuorumRight(s, quorum) && p in s.nodes && Proposes(s.nodes[p], p, e)
    ensures var n := s.nodes[p]; Lookup(Committed(n.committed, Sort(e.increments)), r) == Further(n.consensus, n.committed, r)
  {
    hide Committed, Sort, IncrementsOf, Further, Backers, EpochBacked;
    var n := s.nodes[p];
    forall k | k in n.consensus ensures k < MAX_BLOCK_INDEX && n.consensus[k] < SIZE {
      assert Backed(s, quorum, k, n.consensus[k]);
    }
    IncrementsReach(n.consensus, n.committed, e.increments, r);
  }

  lemma CommittedNext(h: seq<Epoch>, h': seq<Epoch>, e: Epoch)
    requires |h| <= |h'| && h == h'[..|h|] && e.number <= |h| && e.number < |h'| && h'[e.number] == e
    ensures CommittedAfter(h'[..e.number + 1]) == Committed(CommittedAfter(h[..e.number]), Sort(e.increments))
  {
    hide Committed, Sort;
    assert h'[..e.number + 1][..e.number] == h[..e.number];
  }

  /** A node proposes after the epochs it has learned. */
  lemma ProposedAfter(s: State, p: Peer, e: Epoch)
    requires HistoryRight(s) && p in s.nodes && Proposes(s.nodes[p], p, e)
    ensures e.number == |s.nodes[p].epochs| <= |s.history|
    ensures s.nodes[p].committed == CommittedAfter(AsSeq(s.history)[..e.number])
  {
    hide CommittedAfter, LogOf, Concat, BatchesOf, Sort, IncrementsOf;
    var n, h := s.nodes[p], AsSeq(s.history);
    assert Follows(n, h);
    if n.epochs != [] {
      var k := |n.epochs| - 1;
      assert n.epochs[k] == Learned(h[..|n.epochs|][k]);
      ChainedAt(h, k);
    }
  }

  lemma PrefixAt(txs: Txs, r: nat, o: nat, i: nat)
    requires HasPrefix(txs, r, o) && i <= o
    ensures Id(r, i) in txs
  {}

  lemma Parts(quorum: nat, s: State)
    requires Inv(quorum, s)
    ensures QuorumRight(s, quorum) && HistoryRight(s) && CatchUpRight(s) && OwnRight(s) && TxsRight(s) && IssuedRight(s)
    ensures BeliefsRight(s) && SelfRight(s)
  {}

  lemma EpochFits(quorum: nat, s: State, k: nat, j: nat)
    requires Inv(quorum, s) && k in s.history && j < |s.history[k].increments|
    ensures exists c :: Fits(c, s.history[k].increments[j])
  {
    hide Fits, CommittedAfter;
    var h := AsSeq(s.history);
    assert h[k] == s.history[k];
    ChainedAt(h, k);
    assert Fits(CommittedAfter(h[..k]), h[k].increments[j]);
  }

  /**
   * Nodes ask others only, never for nothing, and whatever a node has asked of a peer, that peer holds: the answering
   * loop comes to its end. When an answer arrives, in whatever state the asking node is by then, its prefix and its own
   * offset of every range it asked about reach the offset it had seen.
   */
  lemma CatchUp(quorum: nat, run: seq<State>, steps: seq<Step>, i: nat)
    requires quorum > 0 && IsRun(quorum, run, steps) && i < |steps|
    ensures forall req | req in run[i].requests :: req.to != req.from && req.intervals != []
    ensures forall req, id: nat | req in run[i].requests && Asked(req.intervals, id) :: Holds(run[i], req.to, id)
    ensures steps[i].Receive? ==>
              var req := steps[i].response.request;
              req.from in run[i + 1].nodes && Lifted(run[i + 1].nodes[req.from], req.goals)
  {
    RunInv(quorum, run, steps, i);
    RunInv(quorum, run, steps, i + 1);
    Parts(quorum, run[i]);
    Parts(quorum, run[i + 1]);
    assert Next(quorum, run[i], steps[i], run[i + 1]);
    hide IsRun, Inv, Asked, OwnRight, HistoryRight, QuorumRight, BeliefsRight, TxsRight, IssuedRight, SelfRight, Next, Lifted;
    if steps[i].Receive? {
      ReceiveLifts(quorum, run[i], steps[i], run[i + 1]);
      var req := steps[i].response.request;
      assert OffsetsRight(run[i + 1].nodes[req.from].self, run[i + 1].nodes[req.from].txs) by { SelfIs(run[i + 1], req.from); }
      PrefixLifts(run[i + 1].nodes[req.from], req.goals);
    }
  }

  /** The node holds every goal's prefix, and its own offsets say so. */
  ghost predicate Lifted(n: Node, goals: Offsets) {
    forall r | r in goals :: HasPrefix(n.txs, r, goals[r]) && r in n.self && n.self[r] >= goals[r]
  }

  lemma PrefixLifts(n: Node, goals: Offsets)
    requires OffsetsRight(n.self, n.txs) && forall r | r in goals :: HasPrefix(n.txs, r, goals[r]) && goals[r] < SIZE
    ensures Lifted(n, goals)
  {
    forall r | r in goals ensures r in n.self && n.self[r] >= goals[r] {
      assert PrefixIs(n.txs, r, Lookup(n.self, r)) && Id(r, 0) in n.txs;
      var next := Id(r, if r in n.self then n.self[r] + 1 else 0);
      assert r in n.self && n.self[r] < goals[r] ==> next in n.txs;
    }
  }

  lemma ReceiveLifts(quorum: nat, s: State, step: Step, s': State)
    requires Inv(quorum, s) && Next(quorum, s, step, s') && step.Receive?
    ensures var req := step.response.request;
            req.from in s'.nodes
            && forall r | r in req.goals :: HasPrefix(s'.nodes[req.from].txs, r, req.goals[r]) && req.goals[r] < SIZE
  {
    Parts(quorum, s);
    hide Inv, Next, Asked, OffsetsRight, HistoryRight, QuorumRight, OwnRight, BeliefsRight;
    var resp, req := step.response, step.response.request;
    var p, batch, self := BatchIssued(quorum, s, step, s');
    TakesInGrows(s, p, batch, self, s');
    assert resp in s.responses by { Received(quorum, s, step, s'); }
    assert ResponseRight(s, resp) && RequestRight(s, req);
    forall r, o: nat | r in req.goals && o <= req.goals[r] ensures Id(r, o) in s'.nodes[req.from].txs {
      var id := Id(r, o);
      if Holds(s, req.from, id) {
        assert Holds(s', req.from, id);
      } else {
        assert Asked(req.intervals, id);
        assert s.issued[id] in batch;
        assert s.issued[id].id == id;
      }
    }
  }

  lemma Received(quorum: nat, s: State, step: Step, s': State)
    requires Next(quorum, s, step, s') && step.Receive?
    ensures step.response in s.responses
  {}

  /**
   * After any batches in any order, the offsets that a node's scans have found, and its own entry in the offset table,
   * are the longest held prefix of every range; no scan crosses into the next range, since no last id is held.
   */
  lemma OffsetsArePrefixes(quorum: nat, run: seq<State>, steps: seq<Step>, i: nat, p: Peer, r: nat)
    requires quorum > 0 && IsRun(quorum, run, steps) && i < |run| && p in run[i].nodes
    ensures PrefixIs(run[i].nodes[p].txs, r, Lookup(run[i].nodes[p].self, r))
    ensures Own(run[i].nodes[p].offsets, p, r) == Lookup(run[i].nodes[p].self, r)
    ensures Id(r, LAST) !in run[i].nodes[p].txs
  {
    RunInv(quorum, run, steps, i);
    Parts(quorum, run[i]);
    hide Inv, IsRun, HistoryRight, QuorumRight, BeliefsRight, CatchUpRight, PrefixIs;
    OwnIsSelf(run[i], p, r);
    SelfIs(run[i], p);
    LastNotHeld(run[i], p, r);
  }

  lemma LastNotHeld(s: State, p: Peer, r: nat)
    requires TxsRight(s) && IssuedRight(s)
    ensures !Holds(s, p, Id(r, LAST))
  {
    assert RangeOfId(Id(r, LAST)) == r && OffsetOf(Id(r, LAST)) == LAST;
  }
}
