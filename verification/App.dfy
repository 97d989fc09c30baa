/** A node as an object whose handlers change its state in place. */
module App {
  import opened Wrappers
  import opened RangeKey
  import opened Replica
  import opened Epochs
  import opened Intake
  import opened NodeSpec
  import opened Delays
  import opened NodeMethods

  /** The log of a node. */
  class Linearizer {
    var sequence: seq<nat>

    constructor ()
      ensures sequence == []
    {
      sequence := [];
    }

    /** Appends the ids of an epoch, interval by interval in sorted order. */
    method NewEpoch(e: Epoch)
      modifies this
      ensures sequence == old(sequence) + Batch(Sort(e.increments))
    {
      var incs := Sort(e.increments);
      for k := 0 to |incs|
        invariant sequence == old(sequence) + Batch(incs[..k])
      {
        hide Batch, Ids;
        assert incs[..k + 1] == incs[..k] + [incs[k]];
        BatchAppend(incs[..k], incs[k]);
        var ids := Collect(incs[k]);
        for i := 0 to |ids|
          invariant sequence == old(sequence) + Batch(incs[..k]) + ids[..i]
        {
          assert ids[..i + 1] == ids[..i] + [ids[i]];
          sequence := sequence + [ids[i]];
        }
        assert ids[..|ids|] == ids;
      }
      assert incs[..|incs|] == incs;
    }
  }

  // ---------- Buckets ----------

  method ByRange(batch: seq<Tx>) returns (buckets: map<nat, seq<Tx>>)
    requires InBounds(batch)
    ensures buckets.Keys == Touched(batch)
    ensures forall r | r in buckets :: buckets[r] == OfRange(batch, r)
  {
    buckets := map[];
    for i := 0 to |batch|
      invariant buckets.Keys == Touched(batch[..i])
      invariant forall r: nat :: OfRange(batch[..i], r) == if r in buckets then buckets[r] else []
    {
      hide RangeOfId;
      var tx, r := batch[i], RangeOfId(batch[i].id);
      assert batch[..i + 1][..i] == batch[..i];
      assert Touched(batch[..i + 1]) == Touched(batch[..i]) + {r};
      buckets := buckets[r := if r in buckets then buckets[r] + [tx] else [tx]];
    }
    assert batch[..|batch|] == batch;
  }

  // ---------- The node ----------

  class App {
    const me: Peer
    const quorum: nat
    const linearizer: Linearizer
    var selfOffsets: Offsets
    var offsets: PeerOffsets
    var consensus: Offsets
    var committed: Offsets
    var epochs: seq<Epoch>
    var txs: Txs

    /** The batches sent to the runtime. */
    var sent: seq<seq<nat>>

    ghost predicate Valid()
      reads this
    {
      quorum > 0 && WellKeyed(txs) && Sound(selfOffsets, txs)
    }

    ghost function View(): Node
      reads this, linearizer
    {
      Node(txs, selfOffsets, offsets, consensus, committed, epochs, linearizer.sequence, sent)
    }

    constructor (me: Peer, quorum: nat)
      requires quorum > 0
      ensures Valid() && fresh(linearizer) && this.me == me && this.quorum == quorum
      ensures View() == EMPTY && OffsetsRight(selfOffsets, txs)
    {
      this.me, this.quorum := me, quorum;
      linearizer := new Linearizer();
      selfOffsets, offsets, consensus, committed, epochs, txs, sent := map[], map[], map[], map[], [], map[], [];
    }

    /** Takes in the transactions of one range and scans on from the range's offset. */
    method TakeBucket(r: nat, bucket: seq<Tx>) returns (update: Option<nat>)
      requires Valid() && InBounds(bucket) && forall i | 0 <= i < |bucket| :: RangeOfId(bucket[i].id) == r
      modifies `txs, `selfOffsets
      ensures Valid() && Held(txs, selfOffsets) == TakeRange(Held(old(txs), old(selfOffsets)), r, bucket)
      ensures update == Lookup(selfOffsets, r)
    {
      hide Inserted, HasPrefix;
      TakeRangeSound(Held(txs, selfOffsets), r, bucket);
      var hasFirst := InsertAll(bucket);
      if r !in selfOffsets {
        if !hasFirst {
          return None;
        }
        selfOffsets := selfOffsets[r := 0];
      }
      var start := selfOffsets[r];
      var key := Scan(Id(r, start));
      selfOffsets := selfOffsets[r := OffsetOf(key)];
      update := Some(OffsetOf(key));
      assert selfOffsets == old(selfOffsets)[r := key % SIZE];
    }

    method InsertAll(bucket: seq<Tx>) returns (hasFirst: bool)
      requires WellKeyed(txs) && InBounds(bucket)
      modifies `txs
      ensures WellKeyed(txs) && txs == Inserted(old(txs), bucket) && (hasFirst <==> HasFirst(bucket))
    {
      hasFirst := false;
      for i := 0 to |bucket|
        invariant txs == Inserted(old(txs), bucket[..i]) && WellKeyed(txs) && (hasFirst <==> HasFirst(bucket[..i]))
      {
        hide OffsetOf, HasFirst, Inserted, Unpack;
        OneMoreTx(old(txs), bucket, i);
        txs := txs[bucket[i].id := bucket[i]];
        if OffsetOf(bucket[i].id) == 0 {
          hasFirst := true;
        }
      }
      assert bucket[..|bucket|] == bucket;
    }

    method Scan(start: nat) returns (key: nat)
      ensures key == ScanEnd(txs, start)
    {
      key := start;
      while key + 1 in txs
        invariant ScanEnd(txs, key) == ScanEnd(txs, start)
        decreases Above(txs, key)
      {
        assert key + 1 in Above(txs, key) && key + 1 !in Above(txs, key + 1);
        key := key + 1;
      }
    }

    /** Takes in transactions range by range, in any order, and reports the offsets of the ranges it touched. */
    method UpdateSelfOffsets(batch: seq<Tx>) returns (updates: seq<(nat, nat)>, ghost order: seq<nat>)
      requires Valid() && InBounds(batch)
      modifies `txs, `selfOffsets
      ensures Valid() && OrderOf(batch, order)
      ensures Held(txs, selfOffsets) == TakeAll(Held(old(txs), old(selfOffsets)), batch, order)
      ensures Reported(updates, selfOffsets, Touched(batch))
    {
      var buckets := ByRange(batch);
      updates, order := [], [];
      var rest := buckets.Keys;
      while rest != {}
        invariant Valid() && rest <= Touched(batch) && OrderSoFar(batch, order, rest)
        invariant Held(txs, selfOffsets) == TakeAll(Held(old(txs), old(selfOffsets)), batch, order)
        invariant Reported(updates, selfOffsets, Touched(batch) - rest)
        decreases |rest|
      {
        hide Valid, RangeOfId, Touched, Reported, TakeRange, OrderSoFar;
        var r :| r in rest;
        ghost var before := Held(txs, selfOffsets);
        BucketRight(batch, r);
        TakeRangeRight(before, r, OfRange(batch, r));
        var update := TakeBucket(r, buckets[r]);
        assert rest == rest - {r} + {r};
        rest := rest - {r};
        ReportMore(updates, before.self, selfOffsets, Touched(batch), rest, r, update);
        OneMoreRange(batch, order, rest, r);
        assert (order + [r])[..|order|] == order;
        order := order + [r];
        if update.Some? {
          updates := updates + [(r, update.value)];
        }
      }
    }

    /** Records the offset that a peer, or this node itself, has reached on a range. */
    method MoveOffsetPointer(peer: Peer, r: nat, o: nat)
      modifies `offsets
      ensures offsets == Heard(old(offsets), peer, map[r := o])
    {
      HeardOne(offsets, peer, r, o);
      if r !in offsets {
        offsets := offsets[r := map[peer := o]];
      } else {
        var inMap: map<Peer, nat> := offsets[r];
        offsets := offsets[r := inMap[peer := o]];
      }
    }

    /** Transactions arrive from a peer. */
    method HandleTxs(batch: seq<Tx>) returns (ghost order: seq<nat>)
      requires Valid() && InBounds(batch)
      modifies `txs, `selfOffsets, `offsets
      ensures Valid() && OrderOf(batch, order) && View() == WithTxs(old(View()), me, batch, order)
    {
      hide TakeAll, OrderOf, Reported, WellKeyed, Sound;
      var updates;
      updates, order := UpdateSelfOffsets(batch);
      RecordOwn(updates);
      UpdatesAre(updates, selfOffsets, Touched(batch));
    }

    /** Records the reported offsets as this node's own. */
    method RecordOwn(updates: seq<(nat, nat)>)
      modifies `offsets
      ensures offsets == Heard(old(offsets), me, AsMap(updates))
    {
      hide Heard;
      HeardNothing(offsets, me);
      for k := 0 to |updates|
        invariant offsets == Heard(old(offsets), me, AsMap(updates[..k]))
      {
        assert updates[..k + 1][..k] == updates[..k];
        HeardTwice(old(offsets), me, AsMap(updates[..k]), map[updates[k].0 := updates[k].1]);
        MoveOffsetPointer(me, updates[k].0, updates[k].1);
      }
      assert updates[..|updates|] == updates;
    }

    /** A transaction arrives from a gateway: of the reported offsets only the last is recorded. */
    method HandleNewTransaction(tx: Tx) returns (ghost order: seq<nat>)
      requires Valid() && Unpack(tx.id).Some?
      modifies `txs, `selfOffsets, `offsets
      ensures Valid() && OrderOf([tx], order) && View() == WithTxs(old(View()), me, [tx], order)
    {
      hide TakeAll;
      var updates;
      updates, order := UpdateSelfOffsets([tx]);
      ghost var touched := Touched([tx]);
      assert touched == {RangeOfId(tx.id)} by { assert [tx][0] == tx; }
      if |updates| != 0 {
        var (r, o) := updates[|updates| - 1];
        assert (r, o) in updates;
        MoveOffsetPointer(me, r, o);
        assert Restricted(selfOffsets, touched) == map[r := o];
      } else {
        UpdatesAre(updates, selfOffsets, touched);
        HeardNothing(offsets, me);
      }
    }

    /** A peer reports its offsets. */
    method HandleState(from: Peer, state: Offsets)
      modifies `offsets
      ensures View() == old(View()).(offsets := Heard(old(offsets), from, state))
    {
      hide Heard, Restricted;
      var rest := state.Keys;
      HeardNothing(offsets, from);
      RestrictedNone(state);
      while rest != {}
        invariant rest <= state.Keys && offsets == Heard(old(offsets), from, Restricted(state, state.Keys - rest))
        decreases |rest|
      {
        var r :| r in rest;
        ghost var done := state.Keys - rest;
        HeardTwice(old(offsets), from, Restricted(state, done), map[r := state[r]]);
        RestrictedMore(state, done, r);
        MoveOffsetPointer(from, r, state[r]);
        rest := rest - {r};
        assert done + {r} == state.Keys - rest;
      }
      RestrictedAll(state);
      assert state.Keys - {} == state.Keys;
    }

    /** Renews the consensus offsets, range by range. */
    method RecalculateConsensusOffsets()
      requires Valid()
      modifies `consensus
      ensures Valid() && Recalculates(old(View()), quorum, consensus)
      ensures View() == old(View()).(consensus := consensus)
    {
      var rest := offsets.Keys;
      while rest != {}
        invariant rest <= offsets.Keys
        invariant forall r: nat | r in consensus :: r in old(consensus) || r in offsets
        invariant forall r: nat | r in offsets && r !in rest && |offsets[r]| >= quorum ::
                    r in consensus && IsQuorumOffset(offsets[r], quorum, consensus[r])
        invariant forall r: nat | r in rest || !(r in offsets && |offsets[r]| >= quorum) ::
                    Lookup(consensus, r) == Lookup(old(consensus), r)
        decreases |rest|
      {
        hide IsQuorumOffset;
        var r :| r in rest;
        rest := rest - {r};
        var max := ConsensusMaximum(offsets[r], quorum);
        if max.Some? {
          consensus := consensus[r := max.value];
        }
      }
    }

    /**
     * The periodic broadcast: the node's own offsets for everyone, and requests for what it lacks. What the requests are
     * worth depends on the offsets: see `Delays.GoalsRight`.
     */
    method Advertise() returns (state: Offsets, asks: map<Peer, seq<Interval>>, ghost parts: map<nat, Part>)
      requires Valid()
      modifies `consensus
      ensures Valid() && Recalculates(old(View()), quorum, consensus) && View() == old(View()).(consensus := consensus)
      ensures state == selfOffsets && Delayed(txs, selfOffsets, offsets, parts, asks)
    {
      hide Recalculates, Delayed, WellKeyed, Sound;
      RecalculateConsensusOffsets();
      state := selfOffsets;
      asks, parts := SelfDelays(txs, selfOffsets, offsets);
    }

    /** The epoch this node proposes. */
    method ProposeEpoch(time: nat) returns (e: Epoch)
      ensures Proposes(View(), me, e) && e.time == time
    {
      var incs := CalculateEpochIncrements(consensus, committed);
      var number := 0;
      if epochs != [] {
        number := epochs[|epochs| - 1].number + 1;
      }
      e := Epoch(number, incs, me, time);
    }

    /** A committed epoch arrives: every transaction of it must be there. */
    method HandleEpoch(epoch: Epoch)
      requires Valid() && forall id: nat | Asked(epoch.increments, id) :: id in txs
      requires forall i | 0 <= i < |epoch.increments| :: Unpack(epoch.increments[i].right).Some?
      modifies `committed, `epochs, `sent, linearizer
      ensures Valid() && View() == WithEpoch(old(View()), epoch)
    {
      var e := epoch.(increments := Sort(epoch.increments));
      SortSpec(epoch.increments);
      SortedStays(e.increments);
      hide Sort, Batch, Committed;
      HeldAfterSort(epoch.increments, txs);
      linearizer.NewEpoch(e);
      CommitOffsets(e.increments);
      epochs := epochs + [e];
      var blueprints := Blueprints(e.increments);
      if |blueprints| > 0 {
        sent := sent + [blueprints];
      }
    }

    method CommitOffsets(incs: seq<Interval>)
      requires forall i | 0 <= i < |incs| :: Unpack(incs[i].right).Some?
      modifies `committed
      ensures committed == Committed(old(committed), incs)
    {
      for k := 0 to |incs|
        invariant Committed(committed, incs[k..]) == Committed(old(committed), incs)
      {
        assert incs[k..][1..] == incs[k + 1..];
        committed := committed[RangeOfId(incs[k].right) := OffsetOf(incs[k].right)];
      }
    }

    /** The ids of an epoch's transactions, looked up one by one. */
    method Blueprints(incs: seq<Interval>) returns (ids: seq<nat>)
      requires WellKeyed(txs) && forall k, id | 0 <= k < |incs| && id in Ids(incs[k]) :: id in txs
      ensures ids == Batch(incs)
    {
      ids := [];
      for k := 0 to |incs|
        invariant ids == Batch(incs[..k])
      {
        hide Batch, Ids;
        assert incs[..k + 1] == incs[..k] + [incs[k]];
        BatchAppend(incs[..k], incs[k]);
        var next := Collect(incs[k]);
        for i := 0 to |next|
          invariant ids == Batch(incs[..k]) + next[..i]
        {
          assert next[..i + 1] == next[..i] + [next[i]];
          assert next[i] in Ids(incs[k]);
          ids := ids + [txs[next[i]].id];
        }
        assert next[..|next|] == next;
      }
      assert incs[..|incs|] == incs;
    }
  }

  // ---------- Recording offsets ----------

  /** The updates list the offsets of the given ranges. */
  ghost predicate Reported(updates: seq<(nat, nat)>, self: Offsets, ranges: set<nat>) {
    forall r, o :: (r, o) in updates <==> r in ranges && Lookup(self, r) == Some(o)
  }

  lemma OneMoreTx(txs: Txs, bucket: seq<Tx>, i: nat)
    requires i < |bucket|
    ensures Inserted(txs, bucket[..i + 1]) == Inserted(txs, bucket[..i])[bucket[i].id := bucket[i]]
    ensures HasFirst(bucket[..i + 1]) <==> HasFirst(bucket[..i]) || OffsetOf(bucket[i].id) == 0
  {
    hide OffsetOf, HasFirst, Inserted;
    assert bucket[..i + 1] == bucket[..i] + [bucket[i]] && bucket[..i + 1][..i] == bucket[..i];
    InsertedMore(txs, bucket[..i], bucket[i]);
    FirstIn(bucket[..i + 1]);
  }

  /** The ranges taken in so far, each once. */
  ghost predicate OrderSoFar(batch: seq<Tx>, order: seq<nat>, rest: set<nat>) {
    && (forall i, j | 0 <= i < j < |order| :: order[i] != order[j])
    && (forall r: nat :: r in order <==> r in Touched(batch) && r !in rest)
  }

  lemma OneMoreRange(batch: seq<Tx>, order: seq<nat>, rest: set<nat>, r: nat)
    requires OrderSoFar(batch, order, rest + {r}) && r in Touched(batch) && r !in rest
    ensures OrderSoFar(batch, order + [r], rest)
  {
    hide Touched;
  }

  lemma ReportMore(updates: seq<(nat, nat)>, self: Offsets, self': Offsets, touched: set<nat>, rest: set<nat>, r: nat, update: Option<nat>)
    requires Reported(updates, self, touched - (rest + {r})) && r in touched && r !in rest && update == Lookup(self', r)
    requires forall r' | r' != r :: Lookup(self', r') == Lookup(self, r')
    ensures Reported(if update.Some? then updates + [(r, update.value)] else updates, self', touched - rest)
  {}

  function AsMap(updates: seq<(nat, nat)>): Offsets {
    if updates == [] then map[] else AsMap(updates[..|updates| - 1]) + map[updates[|updates| - 1].0 := updates[|updates| - 1].1]
  }

  lemma RestrictedNone(state: Offsets)
    ensures Restricted(state, state.Keys - state.Keys) == map[]
  {}

  lemma RestrictedMore(state: Offsets, done: set<nat>, r: nat)
    requires r in state
    ensures Restricted(state, done) + map[r := state[r]] == Restricted(state, done + {r})
  {}

  lemma RestrictedAll(state: Offsets)
    ensures Restricted(state, state.Keys) == state
  {}

  lemma HeardNothing(offsets: PeerOffsets, from: Peer)
    ensures Heard(offsets, from, map[]) == offsets
  {}

  lemma HeardOne(offsets: PeerOffsets, from: Peer, r: nat, o: nat)
    ensures Heard(offsets, from, map[r := o]) == offsets[r := Known(offsets, r)[from := o]]
  {}

  lemma HeardTwice(offsets: PeerOffsets, from: Peer, a: Offsets, b: Offsets)
    ensures Heard(Heard(offsets, from, a), from, b) == Heard(offsets, from, a + b)
  {
    var heard, twice, once := Heard(offsets, from, a), Heard(Heard(offsets, from, a), from, b), Heard(offsets, from, a + b);
    forall r: nat ensures r in twice <==> r in once
                  ensures r in once ==> twice[r] == once[r]
    {
      HeardAt(offsets, from, a, r);
      HeardAt(heard, from, b, r);
      HeardAt(offsets, from, a + b, r);
      hide Heard;
    }
    hide Heard;
    assert twice == once;
  }

  lemma HeardAt(offsets: PeerOffsets, from: Peer, state: Offsets, r: nat)
    ensures r in Heard(offsets, from, state) <==> r in offsets || r in state
    ensures Known(Heard(offsets, from, state), r)
         == if r in state then Known(offsets, r)[from := state[r]] else Known(offsets, r)
  {}

  lemma {:induction false} AsMapIs(updates: seq<(nat, nat)>, self: Offsets)
    requires forall r, o | (r, o) in updates :: Lookup(self, r) == Some(o)
    ensures forall r: nat :: Lookup(AsMap(updates), r) == if exists o :: (r, o) in updates then Lookup(self, r) else None
  {
    if updates != [] {
      var n := |updates| - 1;
      assert forall u | u in updates[..n] :: u in updates;
      AsMapIs(updates[..n], self);
      forall r: nat ensures Lookup(AsMap(updates), r) == if exists o :: (r, o) in updates then Lookup(self, r) else None {
        var (r0, o0) := updates[n];
        assert (r0, o0) in updates && Lookup(self, r0) == Some(o0);
        if r != r0 {
          assert Lookup(AsMap(updates), r) == Lookup(AsMap(updates[..n]), r);
          forall o: nat ensures (r, o) in updates <==> (r, o) in updates[..n] { InPrefix(updates, (r, o)); }
        }
      }
    }
  }

  lemma InPrefix(updates: seq<(nat, nat)>, u: (nat, nat))
    requires updates != []
    ensures u in updates <==> u in updates[..|updates| - 1] || u == updates[|updates| - 1]
  {
    assert updates == updates[..|updates| - 1] + [updates[|updates| - 1]];
  }

  lemma UpdatesAre(updates: seq<(nat, nat)>, self: Offsets, touched: set<nat>)
    requires Reported(updates, self, touched)
    ensures AsMap(updates) == Restricted(self, touched)
  {
    AsMapIs(updates, self);
    forall r: nat ensures Lookup(AsMap(updates), r) == Lookup(Restricted(self, touched), r) {
      if r in touched && r in self { assert (r, self[r]) in updates; }
      if o :| (r, o) in updates { assert r in touched && Lookup(self, r) == Some(o); }
    }
    SameOffsets(AsMap(updates), Restricted(self, touched));
  }

  lemma HeldAfterSort(incs: seq<Interval>, txs: Txs)
    requires forall id: nat | Asked(incs, id) :: id in txs
    requires forall i | 0 <= i < |incs| :: Unpack(incs[i].right).Some?
    ensures forall k, id | 0 <= k < |Sort(incs)| && id in Ids(Sort(incs)[k]) :: id in txs
    ensures forall k | 0 <= k < |Sort(incs)| :: Unpack(Sort(incs)[k].right).Some?
  {
    hide Sort, Unpack;
    forall k | 0 <= k < |Sort(incs)|
      ensures Unpack(Sort(incs)[k].right).Some?
      ensures forall id | id in Ids(Sort(incs)[k]) :: id in txs
    {
      SortSpec(incs);
      assert Sort(incs)[k] in multiset(Sort(incs));
      var i :| 0 <= i < |incs| && incs[i] == Sort(incs)[k];
      forall id | id in Ids(incs[i]) ensures id in txs {
        assert Contains(incs[i], id);
        assert Asked(incs, id);
      }
    }
  }
}
