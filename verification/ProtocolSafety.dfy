/** What every run of the replication protocol keeps. */
module ProtocolSafety {
  import opened Wrappers
  import opened RangeKey
  import opened Replica
  import opened Epochs
  import opened Intake
  import opened NodeSpec
  import opened Delays
  import opened NodeMethods
  import opened Protocol

  // ---------- Transactions only accumulate ----------

  ghost predicate Agrees(txs: Txs, all: Txs) {
    forall id | id in txs :: id in all && txs[id] == all[id]
  }

  lemma {:induction false} InsertedAgrees(txs: Txs, batch: seq<Tx>, all: Txs)
    requires Agrees(txs, all) && forall i | 0 <= i < |batch| :: batch[i].id in all && all[batch[i].id] == batch[i]
    ensures Agrees(Inserted(txs, batch), all) && txs.Keys <= Inserted(txs, batch).Keys
    ensures forall i | 0 <= i < |batch| :: batch[i].id in Inserted(txs, batch)
    ensures forall id | id in Inserted(txs, batch) :: id in txs || RangeOfId(id) in Touched(batch)
    decreases |batch|
  {
    if batch != [] {
      var txs', rest := txs[batch[0].id := batch[0]], batch[1..];
      InsertedAgrees(txs', rest, all);
      assert batch[0].id in txs';
      assert forall i | 0 < i < |batch| :: batch[i] == rest[i - 1];
      assert forall i | 0 <= i < |rest| :: rest[i] == batch[i + 1];
      assert Touched(rest) <= Touched(batch);
    }
  }

  ghost predicate Grows(s: State, s': State) {
    && s'.nodes.Keys == s.nodes.Keys && s.issued.Keys <= s'.issued.Keys
    && forall p, id | Holds(s, p, id) :: Holds(s', p, id)
  }

  /** Node `p` has taken in transactions and ended up with the right offsets `self`. */
  ghost predicate TookIn(s: State, p: Peer, batch: seq<Tx>, self: Offsets, s': State) {
    && p in s.nodes && OffsetsRight(self, Inserted(s.nodes[p].txs, batch))
    && s' == WithNode(s, p, s.nodes[p].(txs := Inserted(s.nodes[p].txs, batch), self := self,
                                        offsets := Heard(s.nodes[p].offsets, p, Restricted(self, Touched(batch)))))
  }

  /** What a step that takes in transactions may rely on. */
  lemma BatchIssued(quorum: nat, s: State, step: Step, s': State) returns (p: Peer, batch: seq<Tx>, self: Offsets)
    requires TxsRight(s) && CatchUpRight(s) && Next(quorum, s, step, s') && (step.Deliver? || step.Receive?) && IssuedRight(s)
    requires SelfRight(s)
    ensures TookIn(s, p, batch, self, s')
    ensures forall i | 0 <= i < |batch| :: batch[i].id in s.issued && s.issued[batch[i].id] == batch[i]
    ensures step.Receive? ==> p == step.response.request.from && batch == step.response.txs
  {
    hide OffsetsRight, WithTxs, Asked, Holds, OrderOf, SelfRight, TookIn;
    if step.Deliver? {
      p, batch := step.peer, [s.issued[step.id]];
    } else {
      assert ResponseRight(s, step.response);
      p, batch := step.response.request.from, step.response.txs;
    }
    self := s'.nodes[p].self;
    ScanFindsPrefixes(s, p, batch, step.order, s');
  }

  /** The scan finds the longest prefixes again, because nobody holds the last id of a range. */
  lemma ScanFindsPrefixes(s: State, p: Peer, batch: seq<Tx>, order: seq<nat>, s': State)
    requires TxsRight(s) && IssuedRight(s) && SelfRight(s) && TakesIn(s, p, batch, order, s')
    requires forall i | 0 <= i < |batch| :: batch[i].id in s.issued && s.issued[batch[i].id] == batch[i]
    ensures p in s'.nodes && TookIn(s, p, batch, s'.nodes[p].self, s')
  {
    hide OffsetsRight, Inserted, Touched, Heard, Restricted, TakeAll, OrderOf, NoLast;
    var n := s.nodes[p];
    var held := TakeAll(Held(n.txs, n.self), batch, order);
    assert InBounds(batch) by { IssuedInBounds(s, batch); }
    TakeAllRight(Held(n.txs, n.self), batch, order);
    NodeAgrees(s, p);
    InsertedAgrees(n.txs, batch, s.issued);
    LastUnused(s, Inserted(n.txs, batch));
  }

  lemma IssuedInBounds(s: State, batch: seq<Tx>)
    requires IssuedRight(s) && forall i | 0 <= i < |batch| :: batch[i].id in s.issued
    ensures InBounds(batch)
  {
    forall i | 0 <= i < |batch| ensures Unpack(batch[i].id).Some? {
      assert RangeOfId(batch[i].id) in s.next;
    }
  }

  lemma LastUnused(s: State, txs: Txs)
    requires IssuedRight(s) && Agrees(txs, s.issued)
    ensures NoLast(txs)
  {
    forall r: nat ensures Id(r, LAST) !in txs {
      assert RangeOfId(Id(r, LAST)) == r && OffsetOf(Id(r, LAST)) == LAST;
    }
  }

  lemma TakesInGrows(s: State, p: Peer, batch: seq<Tx>, self: Offsets, s': State)
    requires TxsRight(s) && TookIn(s, p, batch, self, s')
    requires forall i | 0 <= i < |batch| :: batch[i].id in s.issued && s.issued[batch[i].id] == batch[i]
    ensures Grows(s, s') && TxsRight(s')
    ensures forall i | 0 <= i < |batch| :: batch[i].id in s'.nodes[p].txs
  {
    hide OffsetsRight, Inserted, Touched, Heard, Restricted;
    assert Agrees(s.nodes[p].txs, s.issued) by {
      forall id | id in s.nodes[p].txs ensures id in s.issued && s.nodes[p].txs[id] == s.issued[id] { assert Holds(s, p, id); }
    }
    InsertedAgrees(s.nodes[p].txs, batch, s.issued);
  }

  lemma StepGrows(quorum: nat, s: State, step: Step, s': State)
    requires Inv(quorum, s) && Next(quorum, s, step, s')
    ensures Grows(s, s') && TxsRight(s') && IssuedRight(s')
  {
    hide BeliefsRight, OwnRight, QuorumRight, HistoryRight, CatchUpRight, SelfRight, Recalculates, Proposes, AskedOf,
         Answers, TookIn, TakesIn;
    match step
    case Deliver(_, _, _) =>
      var p, batch, self := BatchIssued(quorum, s, step, s');
      TakesInGrows(s, p, batch, self, s');
      SameIssued(s, p, batch, self, s');
    case Receive(_, _) =>
      var p, batch, self := BatchIssued(quorum, s, step, s');
      TakesInGrows(s, p, batch, self, s');
      SameIssued(s, p, batch, self, s');
    case Issue(r, tx) => IssueGrows(s, r, tx, s');
    case _ =>
      QuietStep(quorum, s, step, s');
      hide Next, SameTxs;
      SameTxsGrow(s, s');
  }

  /** Most steps leave transactions and own offsets alone. */
  lemma QuietStep(quorum: nat, s: State, step: Step, s': State)
    requires Next(quorum, s, step, s') && !step.Deliver? && !step.Receive? && !step.Issue?
    ensures SameTxs(s, s')
  {
    hide Recalculates, Proposes, AskedOf, Answers, Heard, Sort, Batch, Committed, Asked, SameTxs, WithNode;
    match step
    case Hear(p, from, offsets) => QuietNode(s, p, s.nodes[p].(offsets := Heard(s.nodes[p].offsets, from, offsets)), s');
    case Recalculate(p, consensus) => QuietNode(s, p, s.nodes[p].(consensus := consensus), s');
    case Learn(p) => QuietNode(s, p, WithEpoch(s.nodes[p], s.history[|s.nodes[p].epochs|]), s');
    case _ => QuietMessage(s, s');
  }

  lemma QuietNode(s: State, p: Peer, n: Node, s': State)
    requires p in s.nodes && s' == WithNode(s, p, n) && n.txs == s.nodes[p].txs && n.self == s.nodes[p].self
    ensures SameTxs(s, s')
  {}

  lemma QuietMessage(s: State, s': State)
    requires s'.nodes == s.nodes && s'.issued == s.issued && s'.next == s.next
    ensures SameTxs(s, s')
  {}

  /** Nothing that concerns transactions changes. */
  ghost predicate SameTxs(s: State, s': State) {
    && s'.nodes.Keys == s.nodes.Keys && s'.issued == s.issued && s'.next == s.next
    && forall p | p in s.nodes :: s'.nodes[p].txs == s.nodes[p].txs && s'.nodes[p].self == s.nodes[p].self
  }

  lemma SameTxsGrow(s: State, s': State)
    requires TxsRight(s) && IssuedRight(s) && SameTxs(s, s')
    ensures Grows(s, s') && TxsRight(s') && IssuedRight(s')
  {
    hide IssuedRight;
    assert forall p, id :: Holds(s', p, id) <==> Holds(s, p, id);
    assert IssuedRight(s') by { IssuedSame(s, s'); }
  }

  lemma IssuedSame(s: State, s': State)
    requires IssuedRight(s) && s'.issued == s.issued && s'.next == s.next
    ensures IssuedRight(s')
  {}

  lemma SameIssued(s: State, p: Peer, batch: seq<Tx>, self: Offsets, s': State)
    requires IssuedRight(s) && TookIn(s, p, batch, self, s')
    ensures IssuedRight(s')
  {
    hide OffsetsRight, IssuedRight;
    IssuedSame(s, s');
  }

  lemma IssueGrows(s: State, r: nat, tx: Tx, s': State)
    requires TxsRight(s) && IssuedRight(s) && r in s.next && s.next[r] < LAST && tx.id == Id(r, s.next[r])
    requires s' == s.(issued := s.issued[tx.id := tx], next := s.next[r := s.next[r] + 1])
    ensures Grows(s, s') && TxsRight(s') && IssuedRight(s')
  {
    assert tx.id !in s.issued && IssuedRight(s') by { IssueFresh(s, r, tx, s'); }
    hide IssuedRight;
    forall p, id | Holds(s', p, id) ensures id in s'.issued && s'.nodes[p].txs[id] == s'.issued[id] {
      assert Holds(s, p, id);
    }
  }

  lemma IssueFresh(s: State, r: nat, tx: Tx, s': State)
    requires IssuedRight(s) && r in s.next && s.next[r] < LAST && tx.id == Id(r, s.next[r])
    requires s' == s.(issued := s.issued[tx.id := tx], next := s.next[r := s.next[r] + 1])
    ensures tx.id !in s.issued && IssuedRight(s')
  {
    assert RangeOfId(tx.id) == r && OffsetOf(tx.id) == s.next[r];
    hide RangeOfId, OffsetOf, Id;
  }

  // ---------- What nodes believe about each other ----------

  lemma ReachedStays(s: State, s': State, q: Peer, r: nat, o: nat)
    requires Grows(s, s') && Reached(s, q, r, o)
    ensures Reached(s', q, r, o)
  {
    forall i | 0 <= i <= o ensures Id(r, i) in s'.nodes[q].txs { assert Holds(s, q, Id(r, i)); }
  }

  /** A node that reports its own offsets reports the truth. */
  lemma SelfReached(s: State, p: Peer, self: Offsets, r: nat)
    requires TxsRight(s) && IssuedRight(s) && p in s.nodes && OffsetsRight(self, s.nodes[p].txs) && r in self
    ensures Reached(s, p, r, self[r])
  {
    assert PrefixIs(s.nodes[p].txs, r, Lookup(self, r));
    assert Holds(s, p, Id(r, 0));
    assert RangeOfId(Id(r, 0)) == r;
  }

  lemma BeliefsStay(s: State, s': State)
    requires BeliefsRight(s) && Grows(s, s') && s'.gossip == s.gossip
    requires forall p | p in s.nodes :: s'.nodes[p].offsets == s.nodes[p].offsets
    ensures BeliefsRight(s')
  {
    hide Reached, Grows;
    SameNodes(s, s');
    forall p, r, q | p in s'.nodes && r in s'.nodes[p].offsets && q in s'.nodes[p].offsets[r]
      ensures Reached(s', q, r, s'.nodes[p].offsets[r][q])
    {
      ReachedStays(s, s', q, r, s.nodes[p].offsets[r][q]);
    }
    forall g, r | g in s'.gossip && r in g.1 ensures Reached(s', g.0, r, g.1[r]) {
      ReachedStays(s, s', g.0, r, g.1[r]);
    }
  }

  /** A node learns true offsets of a peer. */
  lemma HeardRight(s: State, s': State, p: Peer, from: Peer, state: Offsets)
    requires BeliefsRight(s) && Grows(s, s') && s'.gossip == s.gossip && p in s.nodes
    requires forall q | q in s.nodes && q != p :: s'.nodes[q].offsets == s.nodes[q].offsets
    requires s'.nodes[p].offsets == Heard(s.nodes[p].offsets, from, state)
    requires forall r | r in state :: Reached(s', from, r, state[r])
    ensures BeliefsRight(s')
  {
    hide Reached, Grows;
    forall q, r, q' | q in s'.nodes && r in s'.nodes[q].offsets && q' in s'.nodes[q].offsets[r]
      ensures Reached(s', q', r, s'.nodes[q].offsets[r][q'])
    {
      assert q in s.nodes by { SameNodes(s, s'); }
      if q != p || !(r in state && q' == from) {
        assert r in s.nodes[q].offsets && q' in s.nodes[q].offsets[r];
        assert s'.nodes[q].offsets[r][q'] == s.nodes[q].offsets[r][q'];
        ReachedStays(s, s', q', r, s.nodes[q].offsets[r][q']);
      }
    }
    forall g, r | g in s'.gossip && r in g.1 ensures Reached(s', g.0, r, g.1[r]) {
      ReachedStays(s, s', g.0, r, g.1[r]);
    }
  }

  lemma SameNodes(s: State, s': State)
    requires Grows(s, s')
    ensures s'.nodes.Keys == s.nodes.Keys
  {}

  lemma TakesInBeliefs(s: State, p: Peer, batch: seq<Tx>, self: Offsets, s': State)
    requires BeliefsRight(s) && Grows(s, s') && TxsRight(s') && IssuedRight(s') && TookIn(s, p, batch, self, s')
    ensures BeliefsRight(s')
  {
    hide Reached, Grows, BeliefsRight, TxsRight, IssuedRight, OffsetsRight, Inserted, Heard, Touched;
    var state := Restricted(self, Touched(batch));
    forall r | r in state ensures Reached(s', p, r, state[r]) {
      SelfReached(s', p, self, r);
    }
    HeardRight(s, s', p, p, state);
  }

  lemma GossipBeliefs(s: State, p: Peer, self: Offsets, s': State)
    requires BeliefsRight(s) && Grows(s, s') && TxsRight(s') && IssuedRight(s')
    requires p in s.nodes && OffsetsRight(self, s.nodes[p].txs) && s' == s.(gossip := s.gossip + {(p, self)})
    ensures BeliefsRight(s')
  {
    hide Reached, Grows, TxsRight, IssuedRight, OffsetsRight;
    forall q, r, q' | q in s'.nodes && r in s'.nodes[q].offsets && q' in s'.nodes[q].offsets[r]
      ensures Reached(s', q', r, s'.nodes[q].offsets[r][q'])
    {
      ReachedStays(s, s', q', r, s.nodes[q].offsets[r][q']);
    }
    forall g, r | g in s'.gossip && r in g.1 ensures Reached(s', g.0, r, g.1[r]) {
      if g in s.gossip { ReachedStays(s, s', g.0, r, g.1[r]); } else { SelfReached(s', p, self, r); }
    }
  }

  lemma KeepsBeliefs(quorum: nat, s: State, step: Step, s': State)
    requires Inv(quorum, s) && Next(quorum, s, step, s') && Grows(s, s') && TxsRight(s') && IssuedRight(s')
    ensures BeliefsRight(s')
  {
    hide BeliefsRight, OwnRight, QuorumRight, HistoryRight, CatchUpRight, SelfRight, Recalculates, Proposes, AskedOf,
         Answers, TookIn, TakesIn, Grows, TxsRight, IssuedRight, Heard;
    match step
    case Deliver(_, _, _) =>
      var p, batch, self := BatchIssued(quorum, s, step, s');
      TakesInBeliefs(s, p, batch, self, s');
    case Receive(_, _) =>
      var p, batch, self := BatchIssued(quorum, s, step, s');
      TakesInBeliefs(s, p, batch, self, s');
    case Gossip(p) =>
      assert OffsetsRight(s.nodes[p].self, s.nodes[p].txs) by { SelfIs(s, p); }
      GossipBeliefs(s, p, s.nodes[p].self, s');
    case Hear(p, from, offsets) =>
      forall r | r in offsets ensures Reached(s', from, r, offsets[r]) {
        GossipRight(s, (from, offsets), r);
        ReachedStays(s, s', from, r, offsets[r]);
      }
      HeardRight(s, s', p, from, offsets);
    case _ => BeliefsStay(s, s');
  }

  lemma GossipRight(s: State, g: (Peer, Offsets), r: nat)
    requires BeliefsRight(s) && g in s.gossip && r in g.1
    ensures Reached(s, g.0, r, g.1[r])
  {}

  // ---------- A node's own offsets ----------

  lemma TakesInOwn(s: State, p: Peer, batch: seq<Tx>, self: Offsets, s': State)
    requires OwnRight(s) && TxsRight(s) && TookIn(s, p, batch, self, s')
    requires forall i | 0 <= i < |batch| :: batch[i].id in s.issued && s.issued[batch[i].id] == batch[i]
    ensures OwnRight(s')
  {
    hide OffsetsRight, PrefixIs, Inserted, Touched;
    var n, n' := s.nodes[p], s'.nodes[p];
    forall r: nat ensures PrefixIs(n'.txs, r, Own(n'.offsets, p, r)) {
      assert PrefixIs(n'.txs, r, Lookup(self, r)) by { assert OffsetsRight(self, n'.txs); RightAt(self, n'.txs, r); }
      if r in Touched(batch) {
        if r !in self {
          NoneBefore(s, p, batch, r);
          assert Own(n.offsets, p, r) == None by { OwnIs(s, p, r); PrefixUnique(n.txs, r, Own(n.offsets, p, r), None); }
        }
      } else {
        OwnIs(s, p, r);
        Untouched(s, p, batch, r, Own(n.offsets, p, r));
      }
    }
    forall q, r: nat | q in s'.nodes ensures PrefixIs(s'.nodes[q].txs, r, Own(s'.nodes[q].offsets, q, r)) {
      if q != p { OwnIs(s, q, r); }
    }
  }

  lemma RightAt(self: Offsets, txs: Txs, r: nat)
    requires OffsetsRight(self, txs)
    ensures PrefixIs(txs, r, Lookup(self, r))
  {}

  lemma OwnIs(s: State, p: Peer, r: nat)
    requires OwnRight(s) && p in s.nodes
    ensures PrefixIs(s.nodes[p].txs, r, Own(s.nodes[p].offsets, p, r))
  {
    hide PrefixIs;
  }

  lemma NodeAgrees(s: State, p: Peer)
    requires TxsRight(s) && p in s.nodes
    ensures Agrees(s.nodes[p].txs, s.issued)
  {
    forall id | id in s.nodes[p].txs ensures id in s.issued && s.nodes[p].txs[id] == s.issued[id] { assert Holds(s, p, id); }
  }

  lemma NoneBefore(s: State, p: Peer, batch: seq<Tx>, r: nat)
    requires TxsRight(s) && p in s.nodes && PrefixIs(Inserted(s.nodes[p].txs, batch), r, None)
    requires forall i | 0 <= i < |batch| :: batch[i].id in s.issued && s.issued[batch[i].id] == batch[i]
    ensures PrefixIs(s.nodes[p].txs, r, None)
  {
    hide Inserted;
    NodeAgrees(s, p);
    InsertedAgrees(s.nodes[p].txs, batch, s.issued);
  }

  /** Transactions of other ranges do not change a prefix. */
  lemma Untouched(s: State, p: Peer, batch: seq<Tx>, r: nat, o: Option<nat>)
    requires TxsRight(s) && p in s.nodes && r !in Touched(batch) && PrefixIs(s.nodes[p].txs, r, o)
    requires forall i | 0 <= i < |batch| :: batch[i].id in s.issued && s.issued[batch[i].id] == batch[i]
    ensures PrefixIs(Inserted(s.nodes[p].txs, batch), r, o)
  {
    hide Inserted, Touched;
    NodeAgrees(s, p);
    InsertedAgrees(s.nodes[p].txs, batch, s.issued);
    assert forall i: nat | i < SIZE :: RangeOfId(Id(r, i)) == r;
  }

  lemma KeepsOwn(quorum: nat, s: State, step: Step, s': State)
    requires Inv(quorum, s) && Next(quorum, s, step, s')
    ensures OwnRight(s')
  {
    hide BeliefsRight, QuorumRight, HistoryRight, CatchUpRight, SelfRight, Recalculates, Proposes, AskedOf,
         Answers, TookIn, TakesIn, TxsRight, IssuedRight, PrefixIs;
    match step
    case Deliver(_, _, _) =>
      var p, batch, self := BatchIssued(quorum, s, step, s');
      TakesInOwn(s, p, batch, self, s');
    case Receive(_, _) =>
      var p, batch, self := BatchIssued(quorum, s, step, s');
      TakesInOwn(s, p, batch, self, s');
    case Hear(p, from, offsets) => HearOwn(s, p, from, offsets, s');
    case _ => OwnSame(s, s');
  }

  lemma HearOwn(s: State, p: Peer, from: Peer, offsets: Offsets, s': State)
    requires OwnRight(s) && p in s.nodes && from != p
    requires s' == WithNode(s, p, s.nodes[p].(offsets := Heard(s.nodes[p].offsets, from, offsets)))
    ensures OwnRight(s')
  {
    hide OwnRight, PrefixIs;
    forall q, r: nat | q in s.nodes ensures Own(s'.nodes[q].offsets, q, r) == Own(s.nodes[q].offsets, q, r) {}
    OwnStays(s, s');
  }

  lemma OwnSame(s: State, s': State)
    requires OwnRight(s) && s'.nodes.Keys == s.nodes.Keys
    requires forall p | p in s.nodes :: s'.nodes[p].txs == s.nodes[p].txs && s'.nodes[p].offsets == s.nodes[p].offsets
    ensures OwnRight(s')
  {
    hide PrefixIs, Own;
  }

  lemma OwnStays(s: State, s': State)
    requires OwnRight(s) && s'.nodes.Keys == s.nodes.Keys && forall p | p in s.nodes :: s'.nodes[p].txs == s.nodes[p].txs
    requires forall p, r: nat | p in s.nodes :: Own(s'.nodes[p].offsets, p, r) == Own(s.nodes[p].offsets, p, r)
    ensures OwnRight(s')
  {
    hide PrefixIs;
  }

  lemma KeepsSelf(quorum: nat, s: State, step: Step, s': State)
    requires Inv(quorum, s) && Next(quorum, s, step, s')
    ensures SelfRight(s')
  {
    hide BeliefsRight, OwnRight, QuorumRight, HistoryRight, CatchUpRight, Recalculates, Proposes, AskedOf, Answers, TakesIn,
         TxsRight, IssuedRight, OffsetsRight, Inserted, Heard, Sort, Batch, Committed;
    if step.Deliver? || step.Receive? {
      var p, batch, self := BatchIssued(quorum, s, step, s');
    } else if !step.Issue? {
      QuietStep(quorum, s, step, s');
      hide Next;
    }
  }

  // ---------- Quorums ----------

  lemma BackedStays(s: State, s': State, quorum: nat, r: nat, o: nat)
    requires Grows(s, s') && Backed(s, quorum, r, o)
    ensures Backed(s', quorum, r, o)
  {
    forall p | p in Backers(s, r, o) ensures p in Backers(s', r, o) {
      forall i | 0 <= i <= o ensures Id(r, i) in s'.nodes[p].txs { assert Holds(s, p, Id(r, i)); }
    }
    SubsetSize(Backers(s, r, o), Backers(s', r, o));
  }

  lemma EpochBackedStays(s: State, s': State, quorum: nat, e: Epoch)
    requires Grows(s, s') && EpochBacked(s, quorum, e)
    ensures EpochBacked(s', quorum, e)
  {
    hide Backed, Grows, RangeOf, OffsetOf;
    forall i | 0 <= i < |e.increments| ensures Backed(s', quorum, RangeOf(e.increments[i]), OffsetOf(e.increments[i].right)) {
      BackedStays(s, s', quorum, RangeOf(e.increments[i]), OffsetOf(e.increments[i].right));
    }
  }

  /** Recalculated offsets are backed: enough peers have reached them, however old the gossip was. */
  lemma RecalculatedBacked(s: State, quorum: nat, p: Peer, consensus: Offsets, r: nat)
    requires BeliefsRight(s) && QuorumRight(s, quorum) && quorum > 0
    requires p in s.nodes && Recalculates(s.nodes[p], quorum, consensus) && r in consensus
    ensures Backed(s, quorum, r, consensus[r])
  {
    hide EpochBacked, HasPrefix;
    var n, o := s.nodes[p], consensus[r];
    if r in n.offsets && |n.offsets[r]| >= quorum {
      var peers := n.offsets[r];
      assert IsQuorumOffset(peers, quorum, o);
      forall q | q in AtLeast(peers, o) ensures q in Backers(s, r, o) && r < MAX_BLOCK_INDEX && o < SIZE {
        assert Reached(s, q, r, peers[q]);
        PrefixShorter(s.nodes[q].txs, r, peers[q], o);
      }
      SubsetSize(AtLeast(peers, o), Backers(s, r, o));
      var q :| q in AtLeast(peers, o);
    } else {
      assert Lookup(consensus, r) == Lookup(n.consensus, r);
    }
  }

  lemma PrefixShorter(txs: Txs, r: nat, o: nat, o': nat)
    requires HasPrefix(txs, r, o) && o' <= o
    ensures HasPrefix(txs, r, o')
  {}

  /** A proposed interval lies in one range, from the first uncommitted offset to the consensus offset. */
  lemma ProposedRanges(s: State, quorum: nat, p: Peer, e: Epoch)
    requires QuorumRight(s, quorum) && p in s.nodes && Proposes(s.nodes[p], p, e)
    ensures forall i | 0 <= i < |e.increments| ::
              var r := RangeOf(e.increments[i]);
              && Ahead(s.nodes[p].consensus, s.nodes[p].committed, r) && Backed(s, quorum, r, s.nodes[p].consensus[r])
              && e.increments[i] == Increment(s.nodes[p].consensus, s.nodes[p].committed, r)
    ensures forall i, j | 0 <= i < j < |e.increments| :: RangeOf(e.increments[i]) != RangeOf(e.increments[j])
  {
    hide Backed, EpochBacked;
    var n, incs := s.nodes[p], e.increments;
    var ranges :| IncrementsFor(n.consensus, n.committed, ranges, incs);
    forall i | 0 <= i < |incs|
      ensures RangeOf(incs[i]) == ranges[i] && Ahead(n.consensus, n.committed, ranges[i])
      ensures Backed(s, quorum, ranges[i], n.consensus[ranges[i]])
    {
      var r := ranges[i];
      assert r in ranges;
      assert Backed(s, quorum, r, n.consensus[r]);
      BackedBound(s, quorum, r, n.consensus[r]);
    }
  }

  lemma ProposalBacked(s: State, quorum: nat, p: Peer, e: Epoch)
    requires QuorumRight(s, quorum) && p in s.nodes && Proposes(s.nodes[p], p, e)
    ensures EpochBacked(s, quorum, e)
  {
    ProposedRanges(s, quorum, p, e);
    hide Backed, Proposes, QuorumRight;
    var n := s.nodes[p];
    forall i | 0 <= i < |e.increments| ensures Backed(s, quorum, RangeOf(e.increments[i]), OffsetOf(e.increments[i].right)) {
      var r := RangeOf(e.increments[i]);
      BackedBound(s, quorum, r, n.consensus[r]);
      assert OffsetOf(Id(r, n.consensus[r])) == n.consensus[r];
    }
  }

  lemma BackedBound(s: State, quorum: nat, r: nat, o: nat)
    requires Backed(s, quorum, r, o)
    ensures r < MAX_BLOCK_INDEX && o < SIZE
  {}

  /** Consensus offsets are unchanged, and what is newly proposed or accepted has support. */
  ghost predicate Supported(s: State, s': State, quorum: nat) {
    && s'.nodes.Keys == s.nodes.Keys && (forall p | p in s.nodes :: s'.nodes[p].consensus == s.nodes[p].consensus)
    && (forall e | e in s'.proposals :: e in s.proposals || EpochBacked(s', quorum, e))
    && forall k | k in s'.history :: (k in s.history && s'.history[k] == s.history[k]) || s'.history[k] in s.proposals
  }

  lemma NodeSupported(s: State, p: Peer, n: Node, s': State, quorum: nat)
    requires p in s.nodes && s' == WithNode(s, p, n) && n.consensus == s.nodes[p].consensus
    ensures Supported(s, s', quorum)
  {}

  lemma MessageSupported(s: State, s': State, quorum: nat)
    requires s'.nodes == s.nodes && s'.history == s.history
    requires forall e | e in s'.proposals :: e in s.proposals || EpochBacked(s', quorum, e)
    ensures Supported(s, s', quorum)
  {}

  lemma CommitSupported(s: State, e: Epoch, s': State, quorum: nat)
    requires e in s.proposals && s' == s.(history := s.history[e.number := e])
    ensures Supported(s, s', quorum)
  {}

  lemma StepSupported(quorum: nat, s: State, step: Step, s': State)
    requires Next(quorum, s, step, s') && !step.Recalculate? && !step.Propose?
    ensures Supported(s, s', quorum)
  {
    hide Proposes, AskedOf, Answers, Heard, TakeAll, OrderOf, Inserted, Touched, Sort, Asked, EpochBacked, WithNode,
         Supported;
    match step
    case Commit(e) => CommitSupported(s, e, s', quorum);
    case Hear(p, from, offsets) =>
      NodeSupported(s, p, s.nodes[p].(offsets := Heard(s.nodes[p].offsets, from, offsets)), s', quorum);
    case Learn(p) => NodeSupported(s, p, WithEpoch(s.nodes[p], s.history[|s.nodes[p].epochs|]), s', quorum);
    case Deliver(p, id, order) => NodeSupported(s, p, WithTxs(s.nodes[p], p, [s.issued[id]], order), s', quorum);
    case Receive(resp, order) =>
      var p := resp.request.from;
      NodeSupported(s, p, WithTxs(s.nodes[p], p, resp.txs, order), s', quorum);
    case _ => MessageSupported(s, s', quorum);
  }

  lemma QuorumStays(s: State, s': State, quorum: nat)
    requires QuorumRight(s, quorum) && Grows(s, s') && Supported(s, s', quorum)
    ensures QuorumRight(s', quorum)
  {
    SameNodes(s, s');
    hide Backed, EpochBacked, Grows;
    forall p, r | p in s'.nodes && r in s'.nodes[p].consensus ensures Backed(s', quorum, r, s'.nodes[p].consensus[r]) {
      BackedStays(s, s', quorum, r, s.nodes[p].consensus[r]);
    }
    forall e | e in s'.proposals ensures EpochBacked(s', quorum, e) {
      if e in s.proposals { EpochBackedStays(s, s', quorum, e); }
    }
    forall k | k in s'.history ensures EpochBacked(s', quorum, s'.history[k]) {
      EpochBackedStays(s, s', quorum, s'.history[k]);
    }
  }

  lemma RecalculateQuorum(s: State, quorum: nat, p: Peer, consensus: Offsets, s': State)
    requires BeliefsRight(s) && QuorumRight(s, quorum) && Grows(s, s') && quorum > 0
    requires p in s.nodes && Recalculates(s.nodes[p], quorum, consensus)
    requires s' == WithNode(s, p, s.nodes[p].(consensus := consensus))
    ensures QuorumRight(s', quorum)
  {
    hide Backed, EpochBacked, Grows, BeliefsRight, Recalculates;
    forall q, r | q in s'.nodes && r in s'.nodes[q].consensus ensures Backed(s', quorum, r, s'.nodes[q].consensus[r]) {
      if q == p { RecalculatedBacked(s, quorum, p, consensus, r); }
      BackedStays(s, s', quorum, r, s'.nodes[q].consensus[r]);
    }
    forall e | e in s'.proposals ensures EpochBacked(s', quorum, e) { EpochBackedStays(s, s', quorum, e); }
    forall k | k in s'.history ensures EpochBacked(s', quorum, s'.history[k]) {
      EpochBackedStays(s, s', quorum, s'.history[k]);
    }
  }

  lemma KeepsQuorum(quorum: nat, s: State, step: Step, s': State)
    requires Inv(quorum, s) && Next(quorum, s, step, s') && Grows(s, s') && quorum > 0
    ensures QuorumRight(s', quorum)
  {
    hide BeliefsRight, OwnRight, QuorumRight, HistoryRight, CatchUpRight, SelfRight, Recalculates, Proposes, AskedOf,
         Answers, TakeAll, OrderOf, Grows, TxsRight, IssuedRight, Heard, EpochBacked, Supported;
    match step
    case Recalculate(p, consensus) => RecalculateQuorum(s, quorum, p, consensus, s');
    case Propose(p, e) =>
      ProposalBacked(s, quorum, p, e);
      EpochBackedStays(s, s', quorum, e);
      MessageSupported(s, s', quorum);
      QuorumStays(s, s', quorum);
    case _ =>
      StepSupported(quorum, s, step, s');
      hide Next;
      QuorumStays(s, s', quorum);
  }

  // ---------- The history ----------

  /** Nothing that concerns epochs changes. */
  ghost predicate SameEpochs(s: State, s': State) {
    && s'.history == s.history && s'.proposals == s.proposals && s'.nodes.Keys == s.nodes.Keys
    && forall p | p in s.nodes :: SameRecord(s.nodes[p], s'.nodes[p])
  }

  ghost predicate SameRecord(n: Node, n': Node) {
    n'.epochs == n.epochs && n'.committed == n.committed && n'.log == n.log && n'.sent == n.sent
  }

  lemma NodeKeepsEpochs(s: State, p: Peer, n: Node, s': State)
    requires p in s.nodes && s' == WithNode(s, p, n) && SameRecord(s.nodes[p], n)
    ensures SameEpochs(s, s')
  {}

  lemma MessageKeepsEpochs(s: State, s': State)
    requires s'.nodes == s.nodes && s'.history == s.history && s'.proposals == s.proposals
    ensures SameEpochs(s, s')
  {}

  lemma StepKeepsEpochs(quorum: nat, s: State, step: Step, s': State)
    requires Next(quorum, s, step, s') && !step.Commit? && !step.Propose? && !step.Learn?
    ensures SameEpochs(s, s')
  {
    hide Recalculates, Proposes, AskedOf, Answers, Heard, TakeAll, OrderOf, Inserted, Touched, Sort, Asked, SameEpochs, WithNode;
    match step
    case Hear(p, from, offsets) =>
      NodeKeepsEpochs(s, p, s.nodes[p].(offsets := Heard(s.nodes[p].offsets, from, offsets)), s');
    case Recalculate(p, consensus) => NodeKeepsEpochs(s, p, s.nodes[p].(consensus := consensus), s');
    case Deliver(p, id, order) => NodeKeepsEpochs(s, p, WithTxs(s.nodes[p], p, [s.issued[id]], order), s');
    case Receive(resp, order) =>
      var p := resp.request.from;
      NodeKeepsEpochs(s, p, WithTxs(s.nodes[p], p, resp.txs, order), s');
    case _ => MessageKeepsEpochs(s, s');
  }

  lemma HistoryStays(s: State, s': State)
    requires HistoryRight(s) && SameEpochs(s, s')
    ensures HistoryRight(s')
  {
    hide ProposalRight, Chained, Dense;
    forall p | p in s'.nodes ensures Follows(s'.nodes[p], AsSeq(s'.history)) {
      assert Follows(s.nodes[p], AsSeq(s.history));
    }
  }

  /** Only the next number is free: an accepted proposal was made by a node that knew the whole history. */
  lemma CommitExtends(s: State, e: Epoch, s': State)
    requires HistoryRight(s) && e in s.proposals && e.number !in s.history && s' == s.(history := s.history[e.number := e])
    ensures Dense(s'.history) && AsSeq(s'.history) == AsSeq(s.history) + [e]
    ensures e.number == |s.history| && AllFit(CommittedAfter(AsSeq(s.history)), e.increments)
  {
    hide Follows, Chained, AllFit, CommittedAfter;
    var h := s.history;
    assert ProposalRight(e, AsSeq(h));
    assert |s'.history| == |h| + 1 by { MapGrows(h, e.number, e); }
    assert AsSeq(h)[..e.number] == AsSeq(h);
  }

  lemma MapGrows(h: map<nat, Epoch>, k: nat, e: Epoch)
    requires k !in h
    ensures |h[k := e]| == |h| + 1
  {
    assert h[k := e].Keys == h.Keys + {k};
    assert |h[k := e]| == |h[k := e].Keys| && |h| == |h.Keys|;
  }

  lemma ChainedExtends(h: seq<Epoch>, e: Epoch)
    requires Chained(h) && e.number == |h| && AllFit(CommittedAfter(h), e.increments)
    ensures Chained(h + [e])
  {
    hide AllFit, CommittedAfter;
    var h' := h + [e];
    assert |h'| - 1 == |h| && h'[..|h|] == h && h'[|h|] == e;
  }

  lemma CommitHistory(s: State, e: Epoch, s': State)
    requires HistoryRight(s) && e in s.proposals && e.number !in s.history && s' == s.(history := s.history[e.number := e])
    ensures HistoryRight(s')
  {
    CommitExtends(s, e, s');
    hide AllFit, CommittedAfter, Chained, Dense, AsSeq, Follows, ProposalRight;
    var h := AsSeq(s.history);
    ChainedExtends(h, e);
    forall p | p in s'.nodes ensures Follows(s'.nodes[p], h + [e]) { FollowsExtends(s.nodes[p], h, e); }
    forall f | f in s'.proposals ensures ProposalRight(f, h + [e]) { ProposalExtends(f, h, e); }
  }

  lemma FollowsExtends(n: Node, h: seq<Epoch>, e: Epoch)
    requires Follows(n, h)
    ensures Follows(n, h + [e])
  {
    assert (h + [e])[..|n.epochs|] == h[..|n.epochs|];
  }

  lemma ProposalExtends(f: Epoch, h: seq<Epoch>, e: Epoch)
    requires ProposalRight(f, h)
    ensures ProposalRight(f, h + [e])
  {
    assert (h + [e])[..f.number] == h[..f.number];
  }

  /** A proposal carries the number of the next epoch as its node sees it, and goes on where that epoch begins. */
  lemma ProposalFits(s: State, quorum: nat, p: Peer, e: Epoch)
    requires HistoryRight(s) && QuorumRight(s, quorum) && p in s.nodes && Proposes(s.nodes[p], p, e)
    ensures ProposalRight(e, AsSeq(s.history))
  {
    hide EpochBacked, CommittedAfter, LogOf, Dense, Concat, Backers, Sort, QuorumRight, IncrementsOf;
    var n, h := s.nodes[p], AsSeq(s.history);
    ProposedRanges(s, quorum, p, e);
    assert Follows(n, h);
    if n.epochs != [] {
      var k := |n.epochs| - 1;
      assert n.epochs[k] == Learned(h[..|n.epochs|][k]);
      ChainedAt(h, k);
    }
    assert e.number == |n.epochs|;
    forall i | 0 <= i < |e.increments| ensures Fits(n.committed, e.increments[i]) {
      var r := RangeOf(e.increments[i]);
      assert Backed(s, quorum, r, n.consensus[r]);
    }
  }

  lemma ProposeHistory(s: State, quorum: nat, p: Peer, e: Epoch, s': State)
    requires HistoryRight(s) && QuorumRight(s, quorum) && p in s.nodes && Proposes(s.nodes[p], p, e)
    requires s' == s.(proposals := s.proposals + {e})
    ensures HistoryRight(s')
  {
    hide QuorumRight, Proposes, ProposalRight, Follows, Chained, Dense;
    ProposalFits(s, quorum, p, e);
  }

  lemma LearnFollows(n: Node, h: seq<Epoch>)
    requires Follows(n, h) && |n.epochs| < |h|
    ensures Follows(WithEpoch(n, h[|n.epochs|]), h)
  {
    hide Committed, Sort, Batch;
    var k, e := |n.epochs|, h[|n.epochs|];
    var n' := WithEpoch(n, e);
    assert h[..k + 1] == h[..k] + [e] && h[..k + 1][..k] == h[..k];
    var b := Batch(Sort(e.increments));
    if b != [] {
      assert n'.sent[..|n'.sent| - 1] == n.sent;
    } else {
      assert n.log + b == n.log;
    }
  }

  lemma LearnHistory(s: State, p: Peer, s': State)
    requires HistoryRight(s) && p in s.nodes && |s.nodes[p].epochs| in s.history
    requires s' == WithNode(s, p, WithEpoch(s.nodes[p], s.history[|s.nodes[p].epochs|]))
    ensures HistoryRight(s')
  {
    hide ProposalRight, Chained, Follows, WithEpoch;
    assert Follows(s.nodes[p], AsSeq(s.history));
    LearnFollows(s.nodes[p], AsSeq(s.history));
  }

  lemma KeepsHistory(quorum: nat, s: State, step: Step, s': State)
    requires Inv(quorum, s) && Next(quorum, s, step, s')
    ensures HistoryRight(s')
  {
    hide BeliefsRight, OwnRight, QuorumRight, HistoryRight, CatchUpRight, SelfRight, Recalculates, Proposes, AskedOf,
         Answers, TakeAll, OrderOf, TxsRight, IssuedRight, Heard, WithEpoch, Inserted;
    match step
    case Commit(e) => CommitHistory(s, e, s');
    case Propose(p, e) => ProposeHistory(s, quorum, p, e, s');
    case Learn(p) => LearnHistory(s, p, s');
    case _ =>
      StepKeepsEpochs(quorum, s, step, s');
      hide Next, SameEpochs;
      HistoryStays(s, s');
  }

  // ---------- Catching up ----------

  lemma RequestStays(s: State, s': State, req: Request)
    requires Grows(s, s') && RequestRight(s, req)
    ensures RequestRight(s', req)
  {
    hide Asked;
  }

  lemma ResponseStays(s: State, s': State, resp: Response)
    requires ResponseRight(s, resp) && s.requests <= s'.requests
    requires forall id | id in s.issued :: id in s'.issued && s'.issued[id] == s.issued[id]
    ensures ResponseRight(s', resp)
  {
    hide Asked;
  }

  /** A node asks another peer, for something, and only for what that peer holds. */
  lemma AskedIsHeld(s: State, req: Request, parts: map<nat, Part>, asks: map<Peer, seq<Interval>>)
    requires BeliefsRight(s) && SelfRight(s) && OwnRight(s)
    requires req.from in s.nodes && AskedOf(s.nodes[req.from], req, parts, asks)
    ensures RequestRight(s, req)
  {
    var n := s.nodes[req.from];
    hide BeliefsRight, OwnRight, SelfRight, Delayed, Asks, OffsetsRight, Small, Own;
    assert OffsetsRight(n.self, n.txs) by { SelfIs(s, req.from); }
    assert Small(n.offsets) by { BeliefsSmall(s, req.from); }
    forall r: nat ensures Own(n.offsets, req.from, r) == Lookup(n.self, r) { OwnIsSelf(s, req.from, r); }
    DelayedAsks(n, req.from, parts, asks, req.to);
    AskedHolds(s, req);
  }

  lemma DelayedAsks(n: Node, me: Peer, parts: map<nat, Part>, asks: map<Peer, seq<Interval>>, to: Peer)
    requires Delayed(n.txs, n.self, n.offsets, parts, asks) && to in asks && OffsetsRight(n.self, n.txs) && Small(n.offsets)
    requires forall r: nat :: Own(n.offsets, me, r) == Lookup(n.self, r)
    ensures Asks(n, to, asks[to], Goals(parts, n.offsets, to)) && to != me && asks[to] != []
  {
    hide PartRight, Asks, OffsetsRight, Small, Own, Lags, Collected;
    DelaysAsk(n, parts, asks, to);
    DelaysUseful(n, me, parts, asks, to);
  }

  lemma SelfIs(s: State, p: Peer)
    requires SelfRight(s) && p in s.nodes
    ensures OffsetsRight(s.nodes[p].self, s.nodes[p].txs)
  {
    hide OffsetsRight;
  }

  lemma BeliefsSmall(s: State, p: Peer)
    requires BeliefsRight(s) && p in s.nodes
    ensures Small(s.nodes[p].offsets)
  {
    hide HasPrefix;
    var offsets := s.nodes[p].offsets;
    forall r, q | r in offsets && q in offsets[r] ensures offsets[r][q] < SIZE { assert Reached(s, q, r, offsets[r][q]); }
  }

  /** A node's entry for itself among the peers is its own offset. */
  lemma OwnIsSelf(s: State, p: Peer, r: nat)
    requires OwnRight(s) && SelfRight(s) && p in s.nodes
    ensures Own(s.nodes[p].offsets, p, r) == Lookup(s.nodes[p].self, r)
  {
    hide PrefixIs, Own;
    OwnIs(s, p, r);
    SelfIs(s, p);
    RightAt(s.nodes[p].self, s.nodes[p].txs, r);
    PrefixUnique(s.nodes[p].txs, r, Own(s.nodes[p].offsets, p, r), Lookup(s.nodes[p].self, r));
  }

  lemma AskedHolds(s: State, req: Request)
    requires BeliefsRight(s) && req.from in s.nodes && Asks(s.nodes[req.from], req.to, req.intervals, req.goals)
    requires req.to != req.from && req.intervals != [] && Small(s.nodes[req.from].offsets)
    ensures RequestRight(s, req)
  {
    hide Asked;
    forall id: nat | Asked(req.intervals, id) ensures Holds(s, req.to, id) {
      var r, o := RangeOfId(id), OffsetOf(id);
      assert Reached(s, req.to, r, req.goals[r]);
      assert id == Id(r, o);
    }
  }

  lemma AnswerRight(s: State, resp: Response, s': State)
    requires TxsRight(s) && IssuedRight(s) && resp.request in s.requests && resp.request.to in s.nodes
    requires Answers(s.nodes[resp.request.to], resp) && s' == s.(responses := s.responses + {resp})
    ensures ResponseRight(s', resp)
  {
    hide Asked, Batch, Selected;
    var to, ivs := resp.request.to, resp.request.intervals;
    var txs := s.nodes[to].txs;
    forall id: nat | Asked(ivs, id) ensures id in txs { AskedBatch(ivs, id); }
    forall id | id in txs ensures id in s.issued && txs[id] == s.issued[id] && txs[id].id == id { assert Holds(s, to, id); }
    SelectedAnswers(txs, ivs);
  }

  lemma CatchUpStays(s: State, s': State)
    requires CatchUpRight(s) && Grows(s, s') && s.requests <= s'.requests
    requires forall id | id in s.issued :: id in s'.issued && s'.issued[id] == s.issued[id]
    requires forall req | req in s'.requests :: req in s.requests || RequestRight(s', req)
    requires forall resp | resp in s'.responses :: resp in s.responses || ResponseRight(s', resp)
    ensures CatchUpRight(s')
  {
    hide RequestRight, ResponseRight, Grows;
    forall req | req in s'.requests ensures RequestRight(s', req) {
      if req in s.requests { RequestStays(s, s', req); }
    }
    forall resp | resp in s'.responses ensures ResponseRight(s', resp) {
      if resp in s.responses { ResponseStays(s, s', resp); }
    }
  }

  lemma KeepsCatchUp(quorum: nat, s: State, step: Step, s': State)
    requires Inv(quorum, s) && Next(quorum, s, step, s') && Grows(s, s')
    ensures CatchUpRight(s')
  {
    hide BeliefsRight, OwnRight, QuorumRight, HistoryRight, CatchUpRight, SelfRight, Recalculates, Proposes, AskedOf,
         Answers, TakeAll, OrderOf, TxsRight, Heard, WithEpoch, Inserted, Grows, RequestRight, ResponseRight;
    match step
    case Ask(req, parts, asks) =>
      AskedIsHeld(s, req, parts, asks);
      RequestStays(s, s', req);
      CatchUpStays(s, s');
    case Answer(resp) =>
      AnswerRight(s, resp, s');
      CatchUpStays(s, s');
    case Issue(r, tx) =>
      IssueFresh(s, r, tx, s');
      CatchUpStays(s, s');
    case _ => CatchUpStays(s, s');
  }

  // ---------- Every run ----------

  lemma StepKeepsInv(quorum: nat, s: State, step: Step, s': State)
    requires Inv(quorum, s) && Next(quorum, s, step, s') && quorum > 0
    ensures Inv(quorum, s') && Grows(s, s')
  {
    hide Next, Inv;
    StepGrows(quorum, s, step, s');
    KeepsBeliefs(quorum, s, step, s');
    KeepsOwn(quorum, s, step, s');
    KeepsSelf(quorum, s, step, s');
    KeepsQuorum(quorum, s, step, s');
    KeepsHistory(quorum, s, step, s');
    KeepsCatchUp(quorum, s, step, s');
    assert Inv(quorum, s') by { Together(quorum, s'); }
  }

  lemma Together(quorum: nat, s: State)
    requires IssuedRight(s) && TxsRight(s) && SelfRight(s) && BeliefsRight(s) && OwnRight(s)
    requires QuorumRight(s, quorum) && HistoryRight(s) && CatchUpRight(s)
    ensures Inv(quorum, s)
  {}
}
