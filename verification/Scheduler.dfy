/** What the parts of the fiber scheduler have to agree on. */
module Scheduler {
  import opened Wrappers
  import opened WaitLists
  import opened WaitSpec

  type Value(==, !new)

  /** A message in a queue: from a fiber, or from outside together with the future that will carry its answer. */
  datatype Message = Internal(value: Value) | External(value: Value, answer: nat)

  /** The value that resolves a future: set by a fiber, or the unit value of a timer. */
  datatype Resolution = Set(value: Value) | Elapsed

  /** A request from outside; `id` is its global id. */
  datatype Blueprint = Blueprint(id: nat, queue: Name, value: Value)

  datatype Timer = Timer(when: nat, future: nat)

  type Queues = map<Name, seq<Message>>

  // ---------- Fibers ----------

  predicate NoRepeat<T(==)>(s: seq<T>) {
    forall i, j | 0 <= i < j < |s| :: s[i] != s[j]
  }

  predicate Waits(ws: seq<Waiter>, f: nat) {
    exists i | 0 <= i < |ws| :: ws[i].fiber == f
  }

  /** Every fiber is in one place, and a fiber is parked just when it has one live registration. */
  ghost predicate FibersRight(active: seq<nat>, parked: set<nat>, exited: set<nat>, next: nat, ws: seq<Waiter>) {
    && NoRepeat(active) && parked !! exited
    && (forall f | f in active :: f !in parked && f !in exited)
    && (forall f: nat :: f < next <==> f in active || f in parked || f in exited)
    && (forall f: nat :: f in parked <==> Waits(ws, f))
    && (forall i, j | 0 <= i < j < |ws| :: ws[i].fiber != ws[j].fiber)
  }

  lemma FiberParks(active: seq<nat>, parked: set<nat>, exited: set<nat>, next: nat, ws: seq<Waiter>, w: Waiter)
    requires active != [] && FibersRight(active, parked, exited, next, ws) && w.fiber == active[0]
    ensures FibersRight(active[1..], parked + {active[0]}, exited, next, ws + [w])
  {
    var f, ws' := active[0], ws + [w];
    assert active == [f] + active[1..];
    forall g: nat ensures Waits(ws', g) <==> Waits(ws, g) || g == f {
      if i :| 0 <= i < |ws| && ws[i].fiber == g { assert ws'[i].fiber == g; }
      if g == f { assert ws'[|ws|].fiber == f; }
    }
    forall i | 0 <= i < |ws| ensures ws[i].fiber != f {
      if ws[i].fiber == f { assert Waits(ws, f); }
    }
  }

  lemma FiberExits(active: seq<nat>, parked: set<nat>, exited: set<nat>, next: nat, ws: seq<Waiter>)
    requires active != [] && FibersRight(active, parked, exited, next, ws)
    ensures FibersRight(active[1..], parked, exited + {active[0]}, next, ws)
  {
    assert active == [active[0]] + active[1..];
  }

  lemma FiberWakes(active: seq<nat>, parked: set<nat>, exited: set<nat>, next: nat, ws: seq<Waiter>, p: nat)
    requires FibersRight(active, parked, exited, next, ws) && p < |ws|
    ensures ws[p].fiber in parked
    ensures FibersRight([ws[p].fiber] + active, parked - {ws[p].fiber}, exited, next, Removed(ws, p))
  {
    var f, ws' := ws[p].fiber, Removed(ws, p);
    assert Waits(ws, f);
    forall g: nat ensures Waits(ws', g) <==> Waits(ws, g) && g != f {
      if i :| 0 <= i < |ws'| && ws'[i].fiber == g { assert ws[if i < p then i else i + 1].fiber == g; }
      if g != f && Waits(ws, g) {
        var i :| 0 <= i < |ws| && ws[i].fiber == g;
        assert ws'[if i < p then i else i - 1].fiber == g;
      }
    }
  }

  /** Fresh ids for new fibers. */
  function Fresh(next: nat, n: nat): seq<nat> {
    seq(n, i requires 0 <= i < n => next + i)
  }

  lemma FibersSpawn(active: seq<nat>, parked: set<nat>, exited: set<nat>, next: nat, ws: seq<Waiter>, n: nat)
    requires FibersRight(active, parked, exited, next, ws)
    ensures FibersRight(active + Fresh(next, n), parked, exited, next + n, ws)
  {
    var new_, all := Fresh(next, n), active + Fresh(next, n);
    forall f: nat ensures f in all <==> f in active || next <= f < next + n {
      if next <= f < next + n { assert new_[f - next] == f; }
    }
    forall i, j | 0 <= i < j < |all| ensures all[i] != all[j] {
      if i < |active| { assert active[i] in active; }
    }
  }

  // ---------- Queues ----------

  /** A queue is listed once if it holds something, and messages leave it in the order they came. */
  ghost predicate QueuesRight(queues: Queues, nonEmpty: seq<Name>, enqueued: Queues, delivered: Queues) {
    && NoRepeat(nonEmpty)
    && (forall q :: q in nonEmpty <==> q in queues && queues[q] != [])
    && queues.Keys == enqueued.Keys == delivered.Keys
    && (forall q | q in queues :: enqueued[q] == delivered[q] + queues[q])
  }

  function Listed(queues: Queues, nonEmpty: seq<Name>, q: Name): seq<Name>
    requires q in queues
  {
    if queues[q] == [] then nonEmpty + [q] else nonEmpty
  }

  lemma MessageSent(queues: Queues, nonEmpty: seq<Name>, enqueued: Queues, delivered: Queues, q: Name, m: Message)
    requires QueuesRight(queues, nonEmpty, enqueued, delivered) && q in queues
    ensures QueuesRight(queues[q := queues[q] + [m]], Listed(queues, nonEmpty, q), enqueued[q := enqueued[q] + [m]], delivered)
  {
    assert delivered[q] + (queues[q] + [m]) == delivered[q] + queues[q] + [m];
    assert queues[q] == [] ==> q !in nonEmpty;
  }

  lemma MessageTaken(queues: Queues, nonEmpty: seq<Name>, enqueued: Queues, delivered: Queues)
    requires QueuesRight(queues, nonEmpty, enqueued, delivered) && nonEmpty != []
    ensures nonEmpty[0] in queues && queues[nonEmpty[0]] != []
    ensures var q := nonEmpty[0];
            var rest := queues[q][1..];
            QueuesRight(queues[q := rest], if rest == [] then nonEmpty[1..] else nonEmpty[1..] + [q], enqueued,
                        delivered[q := delivered[q] + [queues[q][0]]])
  {
    hide NoRepeat;
    var q := nonEmpty[0];
    assert q in nonEmpty;
    var m, rest := queues[q][0], queues[q][1..];
    assert queues[q] == [m] + rest;
    Associates(delivered[q], [m], rest);
    Tail(nonEmpty);
  }

  lemma Associates<T>(a: seq<T>, b: seq<T>, c: seq<T>)
    ensures a + (b + c) == a + b + c
  {}

  lemma Tail<T>(s: seq<T>)
    requires s != [] && NoRepeat(s)
    ensures NoRepeat(s[1..]) && NoRepeat(s[1..] + [s[0]])
    ensures forall x :: x in s[1..] <==> x in s && x != s[0]
    ensures forall x :: x in s[1..] + [s[0]] <==> x in s
  {
    assert s == [s[0]] + s[1..];
  }

  lemma QueueRotates(queues: Queues, nonEmpty: seq<Name>, enqueued: Queues, delivered: Queues)
    requires QueuesRight(queues, nonEmpty, enqueued, delivered) && nonEmpty != []
    ensures QueuesRight(queues, nonEmpty[1..] + [nonEmpty[0]], enqueued, delivered)
  {
    hide NoRepeat;
    Tail(nonEmpty);
  }

  lemma QueueCreated(queues: Queues, nonEmpty: seq<Name>, enqueued: Queues, delivered: Queues, q: Name)
    requires QueuesRight(queues, nonEmpty, enqueued, delivered) && q !in queues
    ensures QueuesRight(queues[q := []], nonEmpty, enqueued[q := []], delivered[q := []])
  {}

  // ---------- Requests from outside ----------

  function Items(m: map<nat, nat>): set<(nat, nat)> {
    set k | k in m :: (k, m[k])
  }

  /** Every accepted request is pending or answered, and not both; its future is its own. */
  ghost predicate RequestsRight(pending: map<nat, nat>, next: nat, accepted: seq<(nat, nat)>, answered: seq<(nat, nat)>) {
    && multiset(accepted) == multiset(answered) + multiset(Items(pending))
    && (forall i | 0 <= i < |accepted| :: accepted[i].0 < next)
    && (forall i, j | 0 <= i < j < |accepted| :: accepted[i].0 != accepted[j].0)
  }

  lemma RequestAccepted(pending: map<nat, nat>, next: nat, accepted: seq<(nat, nat)>, answered: seq<(nat, nat)>, id: nat)
    requires RequestsRight(pending, next, accepted, answered)
    ensures next !in pending
    ensures RequestsRight(pending[next := id], next + 1, accepted + [(next, id)], answered)
  {
    PendingBelow(pending, next, accepted, answered);
    ItemsMore(pending, next, id);
    assert (next, id) !in Items(pending);
  }

  lemma PendingBelow(pending: map<nat, nat>, next: nat, accepted: seq<(nat, nat)>, answered: seq<(nat, nat)>)
    requires RequestsRight(pending, next, accepted, answered)
    ensures forall k | k in pending :: k < next
  {
    forall k | k in pending ensures k < next {
      assert (k, pending[k]) in Items(pending);
      assert (k, pending[k]) in multiset(accepted);
      var i :| 0 <= i < |accepted| && accepted[i] == (k, pending[k]);
    }
  }

  lemma ItemsMore(m: map<nat, nat>, k: nat, v: nat)
    requires k !in m
    ensures Items(m[k := v]) == Items(m) + {(k, v)}
  {
    var m' := m[k := v];
    forall x | x in Items(m) + {(k, v)} ensures x in Items(m') {
      assert x.0 in m' && x == (x.0, m'[x.0]);
    }
    forall x | x in Items(m') ensures x in Items(m) + {(k, v)} {
      if x.0 != k { assert x.0 in m && x == (x.0, m[x.0]); }
    }
  }

  lemma RequestAnswered(pending: map<nat, nat>, next: nat, accepted: seq<(nat, nat)>, answered: seq<(nat, nat)>, future: nat)
    requires RequestsRight(pending, next, accepted, answered) && future in pending
    ensures RequestsRight(pending - {future}, next, accepted, answered + [(future, pending[future])])
  {
    var rest := pending - {future};
    ItemsMore(rest, future, pending[future]);
    assert rest[future := pending[future]] == pending;
    assert (future, pending[future]) !in Items(rest);
  }

  lemma MoreFutures(pending: map<nat, nat>, next: nat, accepted: seq<(nat, nat)>, answered: seq<(nat, nat)>)
    requires RequestsRight(pending, next, accepted, answered)
    ensures RequestsRight(pending, next + 1, accepted, answered)
  {}

  /** No request is answered twice: its future appears at most once among the answers, and not while it is pending. */
  lemma AnsweredOnce(pending: map<nat, nat>, next: nat, accepted: seq<(nat, nat)>, answered: seq<(nat, nat)>, i: nat, j: nat)
    requires RequestsRight(pending, next, accepted, answered) && i < j < |answered|
    ensures answered[i].0 != answered[j].0 && answered[i].0 !in pending
  {
    var a, b := answered[i], answered[j];
    assert a in multiset(answered) && b in multiset(answered);
    assert a in multiset(accepted) && b in multiset(accepted);
    if a.0 == b.0 { SameFuture(accepted, a, b); }
    if a.0 in pending {
      assert (a.0, pending[a.0]) in Items(pending);
      assert (a.0, pending[a.0]) in multiset(accepted);
      SameFuture(accepted, a, (a.0, pending[a.0]));
    }
    AcceptedOnce(accepted, a);
    TwoAnswers(answered, i, j);
  }

  lemma SameFuture(accepted: seq<(nat, nat)>, a: (nat, nat), b: (nat, nat))
    requires (forall i, j | 0 <= i < j < |accepted| :: accepted[i].0 != accepted[j].0) && a in accepted && b in accepted && a.0 == b.0
    ensures a == b
  {
    var x :| 0 <= x < |accepted| && accepted[x] == a;
    var y :| 0 <= y < |accepted| && accepted[y] == b;
    assert x == y;
  }

  lemma {:induction false} AcceptedOnce(accepted: seq<(nat, nat)>, a: (nat, nat))
    requires forall i, j | 0 <= i < j < |accepted| :: accepted[i].0 != accepted[j].0
    ensures multiset(accepted)[a] <= 1
  {
    if accepted != [] {
      var n := |accepted| - 1;
      AcceptedOnce(accepted[..n], a);
      assert accepted == accepted[..n] + [accepted[n]];
      assert accepted[n] !in accepted[..n];
      assert accepted[n] !in multiset(accepted[..n]);
    }
  }

  lemma TwoAnswers(answered: seq<(nat, nat)>, i: nat, j: nat)
    requires i < j < |answered|
    ensures answered[i] == answered[j] ==> multiset(answered)[answered[i]] >= 2
  {
    var a, b := answered[..j], answered[j..];
    assert answered == a + b && a[i] == answered[i] && b[0] == answered[j];
    assert answered[i] in multiset(a) && answered[j] in multiset(b);
  }

  // ---------- Timers ----------

  /**
   * Timers fire in the order of their deadlines, not before them, and once: what is still scheduled is due no earlier
   * than anything that has fired.
   */
  ghost predicate TimersRight(scheduled: seq<Timer>, fired: seq<Timer>, clock: nat, next: nat) {
    && (forall i | 0 <= i < |fired| :: fired[i].when <= clock)
    && (forall i, j | 0 <= i < j < |fired| :: fired[i].when <= fired[j].when)
    && (forall i, j | 0 <= i < |fired| && 0 <= j < |scheduled| :: fired[i].when <= scheduled[j].when)
    && (forall i | 0 <= i < |fired + scheduled| :: (fired + scheduled)[i].future < next)
    && (forall i, j | 0 <= i < j < |fired + scheduled| :: (fired + scheduled)[i].future != (fired + scheduled)[j].future)
  }

  predicate Earliest(scheduled: seq<Timer>, k: nat) {
    k < |scheduled| && forall j | 0 <= j < |scheduled| :: scheduled[k].when <= scheduled[j].when
  }

  lemma TimerFires(scheduled: seq<Timer>, fired: seq<Timer>, clock: nat, next: nat, k: nat)
    requires TimersRight(scheduled, fired, clock, next) && Earliest(scheduled, k) && scheduled[k].when <= clock
    ensures TimersRight(Removed(scheduled, k), fired + [scheduled[k]], clock, next)
  {
    var fired', scheduled' := fired + [scheduled[k]], Removed(scheduled, k);
    var all, all' := fired + scheduled, fired' + scheduled';
    forall j | 0 <= j < |scheduled'| ensures scheduled'[j] == scheduled[if j < k then j else j + 1] {}
    forall i | 0 <= i < |all'| ensures all'[i] == all[Place(|fired|, k, i)] && Place(|fired|, k, i) < |all| {}
    forall i, j | 0 <= i < j < |all'| ensures all'[i].future != all'[j].future {
      var x, y := Place(|fired|, k, i), Place(|fired|, k, j);
      assert x != y && all'[i] == all[x] && all'[j] == all[y];
      assert x < y ==> all[x].future != all[y].future;
      assert y < x ==> all[y].future != all[x].future;
    }
  }

  /** Where an entry was before the `k`-th scheduled timer moved to the end of the fired ones. */
  function Place(n: nat, k: nat, i: nat): nat {
    if i < n then i else if i == n then n + k else if i <= n + k then i - 1 else i
  }

  lemma TimerAdded(scheduled: seq<Timer>, fired: seq<Timer>, clock: nat, next: nat, ms: nat)
    requires TimersRight(scheduled, fired, clock, next)
    ensures TimersRight(scheduled + [Timer(clock + ms, next)], fired, clock, next + 1)
  {
    var t := Timer(clock + ms, next);
    Associates(fired, scheduled, [t]);
  }

  lemma ClockMoves(scheduled: seq<Timer>, fired: seq<Timer>, clock: nat, next: nat, clock': nat, next': nat)
    requires TimersRight(scheduled, fired, clock, next) && clock <= clock' && next <= next'
    ensures TimersRight(scheduled, fired, clock', next')
  {}
}
