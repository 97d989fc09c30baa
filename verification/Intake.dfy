/**
 * How a node takes in transactions: range by range, in any order, each with a scan for the end of the run of held ids.
 * The scan alone decides what the node believes to hold.
 */
module Intake {
  import opened Wrappers
  import opened RangeKey
  import opened Replica
  import opened Epochs

  function Inserted(txs: Txs, batch: seq<Tx>): Txs
    decreases |batch|
  {
    if batch == [] then txs else Inserted(txs[batch[0].id := batch[0]], batch[1..])
  }

  function Touched(batch: seq<Tx>): set<nat> {
    set i | 0 <= i < |batch| :: RangeOfId(batch[i].id)
  }

  /** The transactions of one range, in order. */
  function OfRange(batch: seq<Tx>, r: nat): seq<Tx> {
    if batch == [] then []
    else
      var rest := OfRange(batch[..|batch| - 1], r);
      if RangeOfId(batch[|batch| - 1].id) == r then rest + [batch[|batch| - 1]] else rest
  }

  predicate InBounds(batch: seq<Tx>) {
    forall i | 0 <= i < |batch| :: Unpack(batch[i].id).Some?
  }

  /** A batch brings the first id of its range. */
  predicate HasFirst(bucket: seq<Tx>) {
    exists i | 0 <= i < |bucket| :: OffsetOf(bucket[i].id) == 0
  }

  /** What a node holds and the offsets it has reached. */
  datatype Held = Held(txs: Txs, self: Offsets)

  /** Takes in the transactions of one range: a known range scans on from its offset, a new one from its first id. */
  ghost function TakeRange(h: Held, r: nat, bucket: seq<Tx>): Held {
    var txs := Inserted(h.txs, bucket);
    if r in h.self then Held(txs, h.self[r := ScanEnd(txs, Id(r, h.self[r])) % SIZE])
    else if HasFirst(bucket) then Held(txs, h.self[r := ScanEnd(txs, Id(r, 0)) % SIZE])
    else Held(txs, h.self)
  }

  /** Takes in a batch, one range after the other. */
  ghost function TakeAll(h: Held, batch: seq<Tx>, order: seq<nat>): Held {
    if order == [] then h
    else
      var r := order[|order| - 1];
      TakeRange(TakeAll(h, batch, order[..|order| - 1]), r, OfRange(batch, r))
  }

  /** The ranges of a batch, each once. */
  ghost predicate OrderOf(batch: seq<Tx>, order: seq<nat>) {
    && (forall i, j | 0 <= i < j < |order| :: order[i] != order[j])
    && (forall r: nat :: r in order <==> r in Touched(batch))
  }

  ghost predicate Sound(self: Offsets, txs: Txs) {
    forall r | r in self :: self[r] < SIZE && HasPrefix(txs, r, self[r])
  }

  ghost predicate WellKeyed(txs: Txs) {
    forall id | id in txs :: Unpack(id).Some? && txs[id].id == id
  }

  // ---------- What a batch leaves under each id ----------

  /** The last transaction of a batch with a given id. */
  function LastTx(batch: seq<Tx>, id: nat): Option<Tx> {
    if batch == [] then None
    else if batch[|batch| - 1].id == id then Some(batch[|batch| - 1])
    else LastTx(batch[..|batch| - 1], id)
  }

  function LookupTx(txs: Txs, id: nat): Option<Tx> {
    if id in txs then Some(txs[id]) else None
  }

  lemma {:induction false} InsertedMore(txs: Txs, batch: seq<Tx>, tx: Tx)
    ensures Inserted(txs, batch + [tx]) == Inserted(txs, batch)[tx.id := tx]
    decreases |batch|
  {
    if batch == [] {
      assert [tx][1..] == [];
    } else {
      assert (batch + [tx])[1..] == batch[1..] + [tx];
      InsertedMore(txs[batch[0].id := batch[0]], batch[1..], tx);
    }
  }

  lemma {:induction false} InsertedAt(txs: Txs, batch: seq<Tx>, id: nat)
    ensures LookupTx(Inserted(txs, batch), id) == if LastTx(batch, id).Some? then LastTx(batch, id) else LookupTx(txs, id)
  {
    if batch != [] {
      var n := |batch| - 1;
      InsertedAt(txs, batch[..n], id);
      InsertedMore(txs, batch[..n], batch[n]);
      assert batch == batch[..n] + [batch[n]];
    }
  }

  lemma {:induction false} LastOfRange(batch: seq<Tx>, r: nat, id: nat)
    ensures LastTx(OfRange(batch, r), id) == if RangeOfId(id) == r then LastTx(batch, id) else None
  {
    hide RangeOfId;
    if batch != [] {
      var n := |batch| - 1;
      LastOfRange(batch[..n], r, id);
      var rest := OfRange(batch[..n], r);
      if RangeOfId(batch[n].id) == r { assert (rest + [batch[n]])[..|rest|] == rest; }
    }
  }

  // ---------- Progress ----------

  /** What a node holds under an id when the ranges in `rest` are still to be taken in. */
  function TakenIn(txs: Txs, batch: seq<Tx>, rest: set<nat>, id: nat): Option<Tx> {
    if RangeOfId(id) !in rest && LastTx(batch, id).Some? then LastTx(batch, id) else LookupTx(txs, id)
  }

  ghost predicate Progress(txs0: Txs, self0: Offsets, batch: seq<Tx>, rest: set<nat>, txs: Txs, self: Offsets) {
    && (forall id: nat :: LookupTx(txs, id) == TakenIn(txs0, batch, rest, id))
    && (forall r: nat | r in rest || r !in Touched(batch) :: Lookup(self, r) == Lookup(self0, r))
    && (forall r: nat | r in Touched(batch) && r !in rest :: KeepsPrefix(txs0, self0, txs, self, r))
  }

  predicate KeepsPrefix(txs0: Txs, self0: Offsets, txs: Txs, self: Offsets, r: nat) {
    PrefixIs(txs0, r, Lookup(self0, r)) && Id(r, LAST) !in txs ==> PrefixIs(txs, r, Lookup(self, r))
  }

  lemma {:induction false} BucketRight(batch: seq<Tx>, r: nat)
    requires InBounds(batch)
    ensures InBounds(OfRange(batch, r)) && forall i | 0 <= i < |OfRange(batch, r)| :: RangeOfId(OfRange(batch, r)[i].id) == r
  {
    hide RangeOfId;
    if batch != [] { BucketRight(batch[..|batch| - 1], r); }
  }

  lemma {:induction false} LastTouched(batch: seq<Tx>, id: nat)
    requires LastTx(batch, id).Some?
    ensures RangeOfId(id) in Touched(batch)
  {
    hide RangeOfId;
    var n := |batch| - 1;
    if batch[n].id != id {
      LastTouched(batch[..n], id);
      assert Touched(batch[..n]) <= Touched(batch);
    }
  }

  lemma StartProgress(txs: Txs, self: Offsets, batch: seq<Tx>)
    ensures Progress(txs, self, batch, Touched(batch), txs, self)
  {
    hide RangeOfId, Touched, KeepsPrefix;
    forall id: nat ensures LookupTx(txs, id) == TakenIn(txs, batch, Touched(batch), id) {
      if LastTx(batch, id).Some? { LastTouched(batch, id); }
    }
  }

  /** Two nodes hold the same ids of a range. */
  predicate SameRange(txs: Txs, txs': Txs, r: nat) {
    forall o | 0 <= o < SIZE :: Id(r, o) in txs <==> Id(r, o) in txs'
  }

  lemma PrefixSame(txs: Txs, txs': Txs, r: nat, p: Option<nat>)
    requires SameRange(txs, txs', r) && PrefixIs(txs, r, p)
    ensures PrefixIs(txs', r, p)
  {
    assert Id(r, 0) in txs <==> Id(r, 0) in txs';
  }

  lemma MoreProgress(txs0: Txs, self0: Offsets, batch: seq<Tx>, rest: set<nat>, txs: Txs, self: Offsets,
                     txs': Txs, self': Offsets, r: nat)
    requires Progress(txs0, self0, batch, rest, txs, self) && r in rest && rest <= Touched(batch)
    requires txs' == Inserted(txs, OfRange(batch, r)) && KeepsPrefix(txs, self, txs', self', r)
    requires forall r' | r' != r :: Lookup(self', r') == Lookup(self, r')
    ensures Progress(txs0, self0, batch, rest - {r}, txs', self')
  {
    hide RangeOfId, Touched, PrefixIs, Inserted;
    forall id: nat ensures LookupTx(txs', id) == TakenIn(txs0, batch, rest - {r}, id) {
      InsertedAt(txs, OfRange(batch, r), id);
      LastOfRange(batch, r, id);
    }
    forall r': nat | r' in Touched(batch) && r' !in rest - {r} ensures KeepsPrefix(txs0, self0, txs', self', r') {
      if r' == r {
        assert SameRange(txs0, txs, r) by { NotYet(txs0, batch, rest, txs, r); }
        if PrefixIs(txs0, r, Lookup(self0, r)) { PrefixSame(txs0, txs, r, Lookup(self0, r)); }
      } else {
        assert SameRange(txs, txs', r') by { Elsewhere(txs, batch, r, r'); }
        assert KeepsPrefix(txs0, self0, txs, self, r');
        assert Id(r', LAST) in txs <==> Id(r', LAST) in txs';
        if PrefixIs(txs, r', Lookup(self, r')) { PrefixSame(txs, txs', r', Lookup(self, r')); }
      }
    }
  }

  lemma NotYet(txs0: Txs, batch: seq<Tx>, rest: set<nat>, txs: Txs, r: nat)
    requires r in rest && forall id: nat :: LookupTx(txs, id) == TakenIn(txs0, batch, rest, id)
    ensures SameRange(txs0, txs, r)
  {
    forall o | 0 <= o < SIZE ensures Id(r, o) in txs0 <==> Id(r, o) in txs {
      assert RangeOfId(Id(r, o)) == r;
      assert LookupTx(txs, Id(r, o)) == TakenIn(txs0, batch, rest, Id(r, o));
    }
  }

  lemma Elsewhere(txs: Txs, batch: seq<Tx>, r: nat, r': nat)
    requires r != r'
    ensures SameRange(txs, Inserted(txs, OfRange(batch, r)), r')
  {
    hide Inserted;
    forall o | 0 <= o < SIZE ensures Id(r', o) in txs <==> Id(r', o) in Inserted(txs, OfRange(batch, r)) {
      assert RangeOfId(Id(r', o)) == r';
      InsertedAt(txs, OfRange(batch, r), Id(r', o));
      LastOfRange(batch, r, Id(r', o));
    }
  }

  lemma EndProgress(txs0: Txs, self0: Offsets, batch: seq<Tx>, txs: Txs, self: Offsets)
    requires Progress(txs0, self0, batch, {}, txs, self)
    ensures txs == Inserted(txs0, batch)
    ensures OffsetsRight(self0, txs0) && NoLast(txs) ==> OffsetsRight(self, txs)
  {
    hide RangeOfId, Touched, PrefixIs, Inserted;
    forall id: nat ensures LookupTx(txs, id) == LookupTx(Inserted(txs0, batch), id) {
      InsertedAt(txs0, batch, id);
    }
    SameTxMap(txs, Inserted(txs0, batch));
    if OffsetsRight(self0, txs0) && NoLast(txs) {
      forall r: nat ensures PrefixIs(txs, r, Lookup(self, r)) {
        assert PrefixIs(txs0, r, Lookup(self0, r)) && Id(r, LAST) !in txs;
        if r in Touched(batch) {
          assert KeepsPrefix(txs0, self0, txs, self, r);
        } else {
          assert SameRange(txs0, txs, r) by { NotTouched(txs0, batch, txs, r); }
          PrefixSame(txs0, txs, r, Lookup(self0, r));
        }
      }
    }
  }

  lemma NotTouched(txs0: Txs, batch: seq<Tx>, txs: Txs, r: nat)
    requires r !in Touched(batch) && forall id: nat :: LookupTx(txs, id) == TakenIn(txs0, batch, {}, id)
    ensures SameRange(txs0, txs, r)
  {
    hide Touched;
    forall o | 0 <= o < SIZE ensures Id(r, o) in txs0 <==> Id(r, o) in txs {
      assert RangeOfId(Id(r, o)) == r;
      if LastTx(batch, Id(r, o)).Some? { LastTouched(batch, Id(r, o)); }
      assert LookupTx(txs, Id(r, o)) == TakenIn(txs0, batch, {}, Id(r, o));
    }
  }

  lemma SameTxMap(a: Txs, b: Txs)
    requires forall id: nat :: LookupTx(a, id) == LookupTx(b, id)
    ensures a == b
  {
    assert forall id: nat | id in a :: id in b && b[id] == a[id] by {
      forall id: nat | id in a ensures id in b && b[id] == a[id] { assert LookupTx(a, id) == LookupTx(b, id); }
    }
    assert forall id: nat | id in b :: id in a by {
      forall id: nat | id in b ensures id in a { assert LookupTx(a, id) == LookupTx(b, id); }
    }
  }

  // ---------- Taking in by scanning ----------

  lemma InsertedKeeps(txs: Txs, batch: seq<Tx>, id: nat)
    ensures id in txs ==> id in Inserted(txs, batch)
  {
    hide Inserted;
    InsertedAt(txs, batch, id);
  }

  lemma PrefixKeeps(txs: Txs, batch: seq<Tx>, r: nat, o: nat)
    requires HasPrefix(txs, r, o)
    ensures HasPrefix(Inserted(txs, batch), r, o)
  {
    hide Inserted;
    forall i | 0 <= i <= o ensures Id(r, i) in Inserted(txs, batch) { InsertedKeeps(txs, batch, Id(r, i)); }
  }

  /** The first id of a range is held afterwards just when it was held or came along. */
  lemma {:induction false} FirstHeld(txs: Txs, bucket: seq<Tx>, r: nat)
    requires forall i | 0 <= i < |bucket| :: RangeOfId(bucket[i].id) == r
    ensures Id(r, 0) in Inserted(txs, bucket) <==> Id(r, 0) in txs || HasFirst(bucket)
    decreases |bucket|
  {
    if bucket != [] {
      var n := |bucket| - 1;
      FirstHeld(txs, bucket[..n], r);
      assert bucket == bucket[..n] + [bucket[n]];
      InsertedMore(txs, bucket[..n], bucket[n]);
      assert OffsetOf(bucket[n].id) == 0 <==> bucket[n].id == Id(r, 0);
      hide Inserted, OffsetOf, RangeOfId, Id;
      assert HasFirst(bucket) <==> HasFirst(bucket[..n]) || OffsetOf(bucket[n].id) == 0 by { FirstIn(bucket); }
    }
  }

  lemma FirstIn(bucket: seq<Tx>)
    requires bucket != []
    ensures HasFirst(bucket) <==> HasFirst(bucket[..|bucket| - 1]) || OffsetOf(bucket[|bucket| - 1].id) == 0
  {
    hide OffsetOf;
    var n := |bucket| - 1;
    if i :| 0 <= i < |bucket[..n]| && OffsetOf(bucket[..n][i].id) == 0 { assert OffsetOf(bucket[i].id) == 0; }
    if i :| 0 <= i < |bucket| && OffsetOf(bucket[i].id) == 0 { assert i < n ==> OffsetOf(bucket[..n][i].id) == 0; }
  }

  /** The offset of a range stays the end of its longest prefix as long as the range's last id is not in use. */
  lemma TakeRangeRight(h: Held, r: nat, bucket: seq<Tx>)
    requires forall i | 0 <= i < |bucket| :: RangeOfId(bucket[i].id) == r
    ensures KeepsPrefix(h.txs, h.self, TakeRange(h, r, bucket).txs, TakeRange(h, r, bucket).self, r)
    ensures forall r' | r' != r :: Lookup(TakeRange(h, r, bucket).self, r') == Lookup(h.self, r')
    ensures r in h.self ==> r in TakeRange(h, r, bucket).self
  {
    hide Inserted, HasFirst;
    var txs := Inserted(h.txs, bucket);
    if PrefixIs(h.txs, r, Lookup(h.self, r)) && Id(r, LAST) !in txs {
      FirstHeld(h.txs, bucket, r);
      if r in h.self {
        PrefixKeeps(h.txs, bucket, r, h.self[r]);
        ScanIsPrefix(txs, r, h.self[r]);
      } else if HasFirst(bucket) {
        assert HasPrefix(txs, r, 0);
        ScanIsPrefix(txs, r, 0);
      }
    }
  }

  /** Whatever is held, an offset never claims what is missing. */
  lemma TakeRangeSound(h: Held, r: nat, bucket: seq<Tx>)
    requires Sound(h.self, h.txs) && forall i | 0 <= i < |bucket| :: RangeOfId(bucket[i].id) == r
    ensures Sound(TakeRange(h, r, bucket).self, TakeRange(h, r, bucket).txs)
  {
    hide Inserted, HasFirst, HasPrefix;
    var txs, h' := Inserted(h.txs, bucket), TakeRange(h, r, bucket);
    FirstHeld(h.txs, bucket, r);
    forall r' | r' in h'.self ensures h'.self[r'] < SIZE && HasPrefix(h'.txs, r', h'.self[r']) {
      if r' != r || r in h.self { PrefixKeeps(h.txs, bucket, r', h.self[r']); }
      if r' == r && r in h.self { ScanSound(txs, r, h.self[r]); }
      if r' == r && r !in h.self {
        assert HasPrefix(txs, r, 0) by { OnePrefix(txs, r); }
        ScanSound(txs, r, 0);
      }
    }
  }

  lemma OnePrefix(txs: Txs, r: nat)
    requires Id(r, 0) in txs
    ensures HasPrefix(txs, r, 0)
  {}

  function RangesOf(order: seq<nat>): set<nat> {
    set i | 0 <= i < |order| :: order[i]
  }

  lemma {:induction false} TakeAllProgress(h: Held, batch: seq<Tx>, order: seq<nat>)
    requires (forall i, j | 0 <= i < j < |order| :: order[i] != order[j]) && InBounds(batch)
    requires forall i | 0 <= i < |order| :: order[i] in Touched(batch)
    ensures var h' := TakeAll(h, batch, order);
            && Progress(h.txs, h.self, batch, Touched(batch) - RangesOf(order), h'.txs, h'.self)
            && forall r | r in h.self :: r in h'.self
  {
    hide Touched, Progress, TakeRange;
    if order == [] {
      StartProgress(h.txs, h.self, batch);
      assert Touched(batch) - RangesOf([]) == Touched(batch);
    } else {
      var n := |order| - 1;
      var before, r := TakeAll(h, batch, order[..n]), order[n];
      TakeAllProgress(h, batch, order[..n]);
      BucketRight(batch, r);
      TakeRangeRight(before, r, OfRange(batch, r));
      var h' := TakeRange(before, r, OfRange(batch, r));
      assert h'.txs == Inserted(before.txs, OfRange(batch, r)) by { TakeRangeTxs(before, r, OfRange(batch, r)); }
      assert RangesOf(order) == RangesOf(order[..n]) + {r};
      MoreProgress(h.txs, h.self, batch, Touched(batch) - RangesOf(order[..n]), before.txs, before.self, h'.txs, h'.self, r);
      assert Touched(batch) - RangesOf(order[..n]) - {r} == Touched(batch) - RangesOf(order);
      forall r' | r' in h.self ensures r' in h'.self {
        assert r' != r ==> Lookup(h'.self, r') == Lookup(before.self, r');
      }
    }
  }

  lemma TakeRangeTxs(h: Held, r: nat, bucket: seq<Tx>)
    ensures TakeRange(h, r, bucket).txs == Inserted(h.txs, bucket)
  {}

  /**
   * In whatever order the ranges of a batch are taken in: the node holds what inserting the batch gives, ranges that the
   * batch does not touch keep their offsets, and the offsets stay longest prefixes as long as no last id is in use.
   */
  lemma TakeAllRight(h: Held, batch: seq<Tx>, order: seq<nat>)
    requires OrderOf(batch, order) && InBounds(batch)
    ensures var h' := TakeAll(h, batch, order);
            && h'.txs == Inserted(h.txs, batch)
            && (OffsetsRight(h.self, h.txs) && NoLast(h'.txs) ==> OffsetsRight(h'.self, h'.txs))
            && (forall r: nat | r !in Touched(batch) :: Lookup(h'.self, r) == Lookup(h.self, r))
            && forall r | r in h.self :: r in h'.self
  {
    hide Touched, Inserted, OffsetsRight, NoLast, KeepsPrefix, LastTx;
    TakeAllProgress(h, batch, order);
    assert Touched(batch) - RangesOf(order) == {};
    var h' := TakeAll(h, batch, order);
    EndProgress(h.txs, h.self, batch, h'.txs, h'.self);
  }

  /** With right offsets the order makes no difference. */
  lemma OrderIrrelevant(h: Held, batch: seq<Tx>, order: seq<nat>, order': seq<nat>)
    requires OrderOf(batch, order) && OrderOf(batch, order') && InBounds(batch)
    requires OffsetsRight(h.self, h.txs) && NoLast(Inserted(h.txs, batch))
    ensures TakeAll(h, batch, order) == TakeAll(h, batch, order')
  {
    hide OrderOf, TakeAll, Inserted, NoLast;
    TakeAllRight(h, batch, order);
    TakeAllRight(h, batch, order');
    var a, b := TakeAll(h, batch, order), TakeAll(h, batch, order');
    forall r: nat ensures Lookup(a.self, r) == Lookup(b.self, r) {
      assert PrefixIs(a.txs, r, Lookup(a.self, r)) && PrefixIs(a.txs, r, Lookup(b.self, r));
      PrefixUnique(a.txs, r, Lookup(a.self, r), Lookup(b.self, r));
    }
    SameOffsets(a.self, b.self);
  }

  lemma SameOffsets(a: Offsets, b: Offsets)
    requires forall r: nat :: Lookup(a, r) == Lookup(b, r)
    ensures a == b
  {
    forall r: nat | r in a ensures r in b && b[r] == a[r] { assert Lookup(a, r) == Lookup(b, r); }
    forall r: nat | r in b ensures r in a { assert Lookup(a, r) == Lookup(b, r); }
  }
}
