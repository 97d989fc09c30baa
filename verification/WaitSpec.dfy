/** What the wait registry is for: live registrations in the order they came, each with the arms it waits on. */
module WaitSpec {
  import opened Wrappers
  import opened WaitLists

  datatype Arm = Arm(key: Key, bind: Option<Name>, next: State)

  datatype Waiter = Waiter(id: nat, fiber: nat, arms: seq<Arm>)

  datatype Outcome = Outcome(fiber: nat, bind: Option<Name>, next: State)

  /** The first arm on a key. */
  function FirstArm(arms: seq<Arm>, k: Key): (r: Option<nat>)
    ensures r.Some? ==> r.value < |arms| && arms[r.value].key == k && forall j | 0 <= j < r.value :: arms[j].key != k
    ensures r.None? ==> forall j | 0 <= j < |arms| :: arms[j].key != k
  {
    if arms == [] then None
    else if arms[0].key == k then Some(0)
    else match FirstArm(arms[1..], k) case None => None case Some(j) => Some(j + 1)
  }

  /** The oldest registration with an arm on a key. */
  function Oldest(ws: seq<Waiter>, k: Key): (r: Option<nat>)
    ensures r.Some? ==> r.value < |ws| && FirstArm(ws[r.value].arms, k).Some?
    ensures r.Some? ==> forall j | 0 <= j < r.value :: FirstArm(ws[j].arms, k).None?
    ensures r.None? ==> forall j | 0 <= j < |ws| :: FirstArm(ws[j].arms, k).None?
  {
    if ws == [] then None
    else if FirstArm(ws[0].arms, k).Some? then Some(0)
    else match Oldest(ws[1..], k) case None => None case Some(j) => Some(j + 1)
  }

  function Removed<T>(s: seq<T>, i: nat): seq<T>
    requires i < |s|
  {
    s[..i] + s[i + 1..]
  }

  function Woken(w: Waiter, k: Key): Outcome
    requires FirstArm(w.arms, k).Some?
  {
    var arm := w.arms[FirstArm(w.arms, k).value];
    Outcome(w.fiber, arm.bind, arm.next)
  }

  // ---------- One FIFO queue per key ----------

  function Occurrences(w: Waiter, arms: seq<Arm>, k: Key): seq<nat> {
    if arms == [] then [] else (if arms[0].key == k then [w.id] else []) + Occurrences(w, arms[1..], k)
  }

  /** Who waits for a key, oldest first; a registration with several arms on the key is there several times. */
  function QueueFor(ws: seq<Waiter>, k: Key): seq<nat> {
    if ws == [] then [] else Occurrences(ws[0], ws[0].arms, k) + QueueFor(ws[1..], k)
  }

  function Dropped(s: seq<nat>, id: nat): seq<nat> {
    if s == [] then [] else (if s[0] == id then [] else [s[0]]) + Dropped(s[1..], id)
  }

  predicate DistinctIds(ws: seq<Waiter>) {
    forall i, j | 0 <= i < j < |ws| :: ws[i].id != ws[j].id
  }

  lemma Associate(a: seq<nat>, b: seq<nat>, c: seq<nat>)
    ensures a + (b + c) == a + b + c
  {}

  lemma {:induction false} DroppedConcat(a: seq<nat>, b: seq<nat>, id: nat)
    ensures Dropped(a + b, id) == Dropped(a, id) + Dropped(b, id)
  {
    if a == [] {
      assert a + b == b;
    } else {
      DroppedConcat(a[1..], b, id);
      var first := if a[0] == id then [] else [a[0]];
      assert (a + b)[1..] == a[1..] + b && (a + b)[0] == a[0];
      Associate(first, Dropped(a[1..], id), Dropped(b, id));
    }
  }

  lemma {:induction false} DroppedOwn(w: Waiter, arms: seq<Arm>, k: Key, id: nat)
    ensures Dropped(Occurrences(w, arms, k), id) == if w.id == id then [] else Occurrences(w, arms, k)
  {
    if arms != [] {
      DroppedOwn(w, arms[1..], k, id);
      var first: seq<nat> := if arms[0].key == k then [w.id] else [];
      DroppedConcat(first, Occurrences(w, arms[1..], k), id);
      if first != [] { assert first[1..] == []; }
    }
  }

  /** Removing a registration takes all its arms out of every queue, duplicates included, and moves nothing else. */
  lemma {:induction false} RemovedQueues(ws: seq<Waiter>, i: nat, k: Key)
    requires DistinctIds(ws) && i < |ws|
    ensures QueueFor(Removed(ws, i), k) == Dropped(QueueFor(ws, k), ws[i].id)
  {
    hide QueueFor, Occurrences, Dropped;
    QueueStep(ws, k);
    DroppedConcat(Occurrences(ws[0], ws[0].arms, k), QueueFor(ws[1..], k), ws[i].id);
    DroppedOwn(ws[0], ws[0].arms, k, ws[i].id);
    if i == 0 {
      assert Removed(ws, 0) == ws[1..];
      NotThere(ws[1..], k, ws[0].id);
      assert [] + QueueFor(ws[1..], k) == QueueFor(ws[1..], k);
    } else {
      var rest := Removed(ws, i);
      RemovedQueues(ws[1..], i - 1, k);
      assert rest[1..] == Removed(ws[1..], i - 1) && rest[0] == ws[0];
      QueueStep(rest, k);
    }
  }

  lemma QueueStep(ws: seq<Waiter>, k: Key)
    requires ws != []
    ensures QueueFor(ws, k) == Occurrences(ws[0], ws[0].arms, k) + QueueFor(ws[1..], k)
  {}

  lemma {:induction false} NotThere(ws: seq<Waiter>, k: Key, id: nat)
    requires forall j | 0 <= j < |ws| :: ws[j].id != id
    ensures Dropped(QueueFor(ws, k), id) == QueueFor(ws, k)
  {
    if ws != [] {
      NotThere(ws[1..], k, id);
      DroppedOwn(ws[0], ws[0].arms, k, id);
      DroppedConcat(Occurrences(ws[0], ws[0].arms, k), QueueFor(ws[1..], k), id);
    }
  }

  /** A new registration goes to the end of every queue it waits in. */
  lemma {:induction false} AppendedQueues(ws: seq<Waiter>, w: Waiter, k: Key)
    ensures QueueFor(ws + [w], k) == QueueFor(ws, k) + Occurrences(w, w.arms, k)
  {
    if ws == [] {
      assert [w][1..] == [] && ws + [w] == [w];
    } else {
      hide Occurrences;
      AppendedQueues(ws[1..], w, k);
      assert (ws + [w])[1..] == ws[1..] + [w] && (ws + [w])[0] == ws[0];
      Associate(Occurrences(ws[0], ws[0].arms, k), QueueFor(ws[1..], k), Occurrences(w, w.arms, k));
    }
  }

  /** The oldest registration is the one at the front of its key's queue. */
  lemma {:induction false} OldestIsFront(ws: seq<Waiter>, k: Key)
    ensures Oldest(ws, k).None? <==> QueueFor(ws, k) == []
    ensures Oldest(ws, k).Some? ==> QueueFor(ws, k)[0] == ws[Oldest(ws, k).value].id
  {
    if ws != [] {
      OldestIsFront(ws[1..], k);
      OccurrencesOf(ws[0], ws[0].arms, k);
    }
  }

  lemma {:induction false} OccurrencesOf(w: Waiter, arms: seq<Arm>, k: Key)
    ensures FirstArm(arms, k).None? <==> Occurrences(w, arms, k) == []
    ensures Occurrences(w, arms, k) != [] ==> Occurrences(w, arms, k)[0] == w.id
  {
    if arms != [] { OccurrencesOf(w, arms[1..], k); }
  }
}
