/** What the main loop owes to fibers that wait and to timers that are due, over any number of passes. */
module RuntimeLaws {
  import opened Wrappers
  import opened WaitLists
  import opened WaitSpec
  import opened Scheduler
  import opened RuntimeSpec

  // ---------- Phases that hand nothing to a parked fiber ----------

  /** Nobody is woken; waiters, resolutions, listed queues and timers are only added, at the end and not in the past. */
  ghost predicate Keeps(w: World, w': World) {
    && w'.wakes == w.wakes && w'.fired == w.fired && w.clock <= w'.clock
    && w.waiters <= w'.waiters && w.resolved <= w'.resolved && w.nonEmpty <= w'.nonEmpty && w.scheduled <= w'.scheduled
    && forall i | |w.scheduled| <= i < |w'.scheduled| :: w.clock <= w'.scheduled[i].when
  }

  lemma KeepsTwice(a: World, b: World, c: World)
    requires Keeps(a, b) && Keeps(b, c)
    ensures Keeps(a, c)
  {
    forall i | |a.scheduled| <= i < |c.scheduled| ensures a.clock <= c.scheduled[i].when {
      if i < |b.scheduled| { assert c.scheduled[i] == b.scheduled[i]; }
    }
  }

  lemma {:induction false} SentKeeps(s: Sent, values: seq<SetValue>)
    ensures s.resolved <= SentAll(s, values).resolved && s.nonEmpty <= SentAll(s, values).nonEmpty
  {
    if values != [] { SentKeeps(s, values[..|values| - 1]); }
  }

  /** Every timer among those for `ps` is one that was asked for. */
  lemma {:induction false} TimerAsked(ps: seq<Primitive>, k: nat) returns (i: nat)
    requires k < TimerCount(ps)
    ensures i < |ps| && ps[i].NewTimer? && TimerCount(ps[..i]) == k
  {
    var n := |ps| - 1;
    if k < TimerCount(ps[..n]) {
      i := TimerAsked(ps[..n], k);
      assert ps[..n][..i] == ps[..i];
    } else {
      i := n;
    }
  }

  lemma CreatesKeeps(w: World, ps: seq<Primitive>, w': World)
    requires Creates(w, ps, w')
    ensures Keeps(w, w')
  {
    hide WithQueues, QueueNames, IdsFor;
    var n := |w.scheduled|;
    assert w'.scheduled == w'.scheduled[..n] + w'.scheduled[n..];
    forall i | n <= i < |w'.scheduled| ensures w.clock <= w'.scheduled[i].when {
      var j := TimerAsked(ps, i - n);
      assert w'.scheduled[n..][i - n] == w'.scheduled[i];
    }
  }

  lemma StoppedKeeps(w: World, result: RunResult, w': World)
    requires Stopped(w, result, w')
    ensures Keeps(w, w')
  {
    hide Creates, Creatable, SentAll, Fresh;
    match result
    case SetValues(values) => SentKeeps(SentOf(w), values);
    case Create(ps) => if Creatable(w.queues, ps) { CreatesKeeps(w, ps, w'); }
    case _ =>
  }

  lemma {:induction false} RanKeeps(ws: seq<World>, results: seq<RunResult>)
    requires Ran(ws, results)
    ensures Keeps(ws[0], Last(ws))
    decreases |ws|
  {
    hide Stopped, Keeps;
    if |ws| == 1 {
      assert Keeps(ws[0], ws[0]) by { KeepsSelf(ws[0]); }
    } else {
      var n := |ws| - 1;
      RanKeeps(ws[..n], results);
      assert Stopped(ws[n - 1], results[n - 1], ws[n - 1 + 1]);
      StoppedKeeps(ws[n - 1], results[n - 1], ws[n]);
      KeepsTwice(ws[0], ws[n - 1], ws[n]);
    }
  }

  lemma KeepsSelf(w: World)
    ensures Keeps(w, w)
  {}

  lemma {:induction false} RequestsKeep(w: World, bs: seq<Blueprint>)
    ensures Keeps(w, RequestedAll(w, bs)) && RequestedAll(w, bs).clock == w.clock
    ensures RequestedAll(w, bs).scheduled == w.scheduled
  {
    if bs == [] {
      KeepsSelf(w);
    } else {
      RequestsKeep(w, bs[..|bs| - 1]);
    }
  }

  lemma {:induction false} TakenKeeps(w: World, due: seq<Task>)
    ensures Keeps(w, TakenIn(w, due)) && TakenIn(w, due).clock == w.clock && TakenIn(w, due).scheduled == w.scheduled
  {
    hide Keeps, RequestedAll;
    if due == [] {
      KeepsSelf(w);
    } else {
      var before := TakenIn(w, due[..|due| - 1]);
      TakenKeeps(w, due[..|due| - 1]);
      RequestsKeep(before, due[|due| - 1].1);
      KeepsTwice(w, before, TakenIn(w, due));
    }
  }

  lemma TakesKeeps(w: World, inbox: seq<Task>, due: seq<Task>, w': World, rest: seq<Task>)
    requires Takes(w, inbox, due, w', rest)
    ensures Keeps(w, w') && w'.scheduled == w.scheduled
  {
    TakenKeeps(w, due);
  }

  // ---------- Waiting in line ----------

  /** `x` is the next to get what arrives under a key. */
  predicate Foremost(ws: seq<Waiter>, key: Key, x: Waiter) {
    Oldest(ws, key).Some? && ws[Oldest(ws, key).value] == x
  }

  function KeyOf(got: Got): Key {
    match got
    case Received(q, _) => Queue(q)
    case Resolved(future, _) => Future(future)
  }

  /** A wake that serves an arm of `x`. */
  ghost predicate ServedBy(wake: Wake, x: Waiter) {
    && wake.fiber == x.fiber
    && exists a :: 0 <= a < |x.arms| && x.arms[a] == Arm(KeyOf(wake.got), wake.bind, wake.next)
  }

  /** One of the wakes after the first `n` has served `x`. */
  ghost predicate Awoken(w: World, n: nat, x: Waiter) {
    exists i :: n <= i < |w.wakes| && ServedBy(w.wakes[i], x)
  }

  lemma AwokenStays(w: World, n: nat, x: Waiter, w': World)
    requires Awoken(w, n, x) && w.wakes <= w'.wakes
    ensures Awoken(w', n, x)
  {
    hide ServedBy;
    var i :| n <= i < |w.wakes| && ServedBy(w.wakes[i], x);
    assert w'.wakes[i] == w.wakes[i];
  }

  lemma OldestIs(ws: seq<Waiter>, key: Key, p: nat)
    requires p < |ws| && FirstArm(ws[p].arms, key).Some? && forall j | 0 <= j < p :: FirstArm(ws[j].arms, key).None?
    ensures Oldest(ws, key) == Some(p)
  {
    hide Oldest, FirstArm;
  }

  lemma ForemostStays(ws: seq<Waiter>, key: Key, x: Waiter, ws': seq<Waiter>)
    requires Foremost(ws, key, x) && ws <= ws'
    ensures Foremost(ws', key, x)
  {
    hide Oldest, FirstArm;
    var p := Oldest(ws, key).value;
    assert forall j | 0 <= j <= p :: ws'[j] == ws[j];
    OldestIs(ws', key, p);
  }

  lemma ForemostAfter(ws: seq<Waiter>, key: Key, x: Waiter, q: nat)
    requires Foremost(ws, key, x) && q < |ws| && q != Oldest(ws, key).value
    ensures Foremost(Removed(ws, q), key, x)
  {
    hide Oldest, FirstArm;
    var p := Oldest(ws, key).value;
    var p', ws' := if q < p then p - 1 else p, Removed(ws, q);
    assert forall j | 0 <= j < |ws'| :: ws'[j] == ws[if j < q then j else j + 1];
    OldestIs(ws', key, p');
  }

  /** Whoever is handed something: `x` is served, or stays in front of its line. */
  lemma HandedTo(w: World, k: Key, got: Got, key: Key, x: Waiter)
    requires Oldest(w.waiters, k).Some? && KeyOf(got) == k && Foremost(w.waiters, key, x)
    ensures var w' := Handed(w, k, got); Awoken(w', |w.wakes|, x) || Foremost(w'.waiters, key, x)
    ensures k == key ==> Awoken(Handed(w, k, got), |w.wakes|, x)
  {
    hide Oldest, Removed;
    var q, w' := Oldest(w.waiters, k).value, Handed(w, k, got);
    if q == Oldest(w.waiters, key).value {
      var a := FirstArm(x.arms, k).value;
      assert x.arms[a] == Arm(KeyOf(got), x.arms[a].bind, x.arms[a].next);
      assert ServedBy(w'.wakes[|w.wakes|], x);
    } else {
      ForemostAfter(w.waiters, key, x, q);
    }
  }

  // ---------- One pass ----------

  /** `x` is served since there were `n` wakes, or it is in front of its line and nothing was taken back. */
  ghost predicate InLine(w: World, n: nat, key: Key, x: Waiter) {
    n <= |w.wakes| && (Awoken(w, n, x) || Foremost(w.waiters, key, x))
  }

  lemma KeepsInLine(w: World, w': World, n: nat, key: Key, x: Waiter)
    requires InLine(w, n, key, x) && Keeps(w, w')
    ensures InLine(w', n, key, x) && (Awoken(w, n, x) ==> Awoken(w', n, x))
  {
    hide Awoken, Foremost;
    if Awoken(w, n, x) { AwokenStays(w, n, x, w'); } else { ForemostStays(w.waiters, key, x, w'.waiters); }
  }

  lemma LaterAwoken(w: World, n: nat, m: nat, x: Waiter)
    requires Awoken(w, m, x) && n <= m
    ensures Awoken(w, n, x)
  {}

  lemma HandsOverInLine(w: World, n: nat, key: Key, x: Waiter)
    requires InLine(w, n, key, x)
    ensures InLine(HandsOver(w), n, key, x) && (Awoken(w, n, x) ==> Awoken(HandsOver(w), n, x))
    ensures w.resolved != [] && key == Future(w.resolved[0].0) ==> Awoken(HandsOver(w), n, x)
  {
    hide Awoken, Oldest, Handed;
    var w' := HandsOver(w);
    if w.resolved != [] && Oldest(w.waiters, Future(w.resolved[0].0)).Some? {
      var (future, value) := w.resolved[0];
      HandedWakes(w, Future(future), Resolved(future, value));
      var h := Handed(w, Future(future), Resolved(future, value));
      if Awoken(w, n, x) {
        AwokenStays(w, n, x, w');
      } else {
        HandedTo(w, Future(future), Resolved(future, value), key, x);
        if Awoken(h, |w.wakes|, x) {
          LaterAwoken(h, n, |w.wakes|, x);
          AwokenStays(h, n, x, w');
        }
      }
    } else if Awoken(w, n, x) {
      AwokenStays(w, n, x, w');
    }
  }

  lemma HandedWakes(w: World, k: Key, got: Got)
    requires Oldest(w.waiters, k).Some?
    ensures w.wakes <= Handed(w, k, got).wakes
  {}

  lemma ServesInLine(w: World, w': World, n: nat, key: Key, x: Waiter)
    requires InLine(w, n, key, x) && Serves(w, w')
    ensures InLine(w', n, key, x) && (Awoken(w, n, x) ==> Awoken(w', n, x))
    ensures w.nonEmpty != [] && key == Queue(w.nonEmpty[0]) ==> Awoken(w', n, x)
  {
    hide Awoken, Oldest, Handed, Rotated;
    if Awaited(w) {
      var q := w.nonEmpty[0];
      var got := Received(q, w.queues[q][0]);
      HandedWakes(w, Queue(q), got);
      var h := Handed(w, Queue(q), got);
      if Awoken(w, n, x) {
        AwokenStays(w, n, x, w');
      } else {
        HandedTo(w, Queue(q), got, key, x);
        if Awoken(h, |w.wakes|, x) {
          LaterAwoken(h, n, |w.wakes|, x);
          AwokenStays(h, n, x, w');
        }
      }
    } else if Awoken(w, n, x) {
      AwokenStays(w, n, x, w');
    }
  }

  /** A pass moves a waiter's line on: the phases that wake others leave it in front, or serve it. */
  lemma PassInLine(results: seq<RunResult>, p: Pass, n: nat, key: Key, x: Waiter)
    requires Passed(results, p) && InLine(p.start, n, key, x)
    ensures InLine(p.end, n, key, x) && InLine(p.handed, n, key, x)
    ensures Awoken(p.start, n, x) || Awoken(p.handed, n, x) ==> Awoken(p.end, n, x)
    ensures Last(p.ran).resolved != [] && key == Future(Last(p.ran).resolved[0].0) ==> Awoken(p.end, n, x)
    ensures p.handed.nonEmpty != [] && key == Queue(p.handed.nonEmpty[0]) ==> Awoken(p.end, n, x)
  {
    hide Awoken, Foremost, HandsOver, Serves, Takes, Keeps, Stopped, Fires;
    var w1, w2 := p.ran[0], Last(p.ran);
    FiresInLine(p.start, w1, n, key, x);
    RanKeeps(p.ran, results);
    KeepsInLine(w1, w2, n, key, x);
    HandsOverInLine(w2, n, key, x);
    ServesInLine(p.handed, p.served, n, key, x);
    if !Awaited(p.handed) {
      TakesKeeps(p.served, p.inbox, p.due, p.end, p.rest);
      KeepsInLine(p.served, p.end, n, key, x);
    }
  }

  lemma FiresInLine(w: World, w': World, n: nat, key: Key, x: Waiter)
    requires Fires(w, w') && InLine(w, n, key, x)
    ensures InLine(w', n, key, x) && (Awoken(w, n, x) ==> Awoken(w', n, x))
    ensures w'.wakes == w.wakes && w'.waiters == w.waiters
  {
    hide Awoken, Foremost, Earliest;
    if Awoken(w, n, x) { AwokenStays(w, n, x, w'); }
  }

  // ---------- Positions ----------

  /** How far a resolution or a listed queue is from the front after the phases of a pass. */
  lemma PassMoves(results: seq<RunResult>, p: Pass)
    requires Passed(results, p)
    ensures p.start.fired <= p.end.fired && p.end.fired == p.ran[0].fired && |p.end.fired| <= |p.start.fired| + 1
    ensures var d := |p.end.fired| - |p.start.fired|;
            d <= |p.ran[0].resolved| && p.start.resolved == p.ran[0].resolved[d..]
    ensures p.ran[0].resolved <= Last(p.ran).resolved
    ensures Last(p.ran).resolved != [] ==> Last(p.ran).resolved[1..] <= p.end.resolved
    ensures p.start.nonEmpty <= p.handed.nonEmpty
    ensures p.handed.nonEmpty != [] ==> p.handed.nonEmpty[1..] <= p.end.nonEmpty
  {
    hide Stopped, Fires, HandsOver, Serves, Takes;
    FiresMoves(p.start, p.ran[0]);
    RanKeeps(p.ran, results);
    HandsOverMoves(Last(p.ran));
    ServesMoves(p.handed, p.served);
    if !Awaited(p.handed) {
      TakesKeeps(p.served, p.inbox, p.due, p.end, p.rest);
    }
  }

  lemma HandsOverMoves(w: World)
    ensures HandsOver(w).fired == w.fired && HandsOver(w).nonEmpty == w.nonEmpty && HandsOver(w).scheduled == w.scheduled
    ensures HandsOver(w).clock == w.clock && (w.resolved != [] ==> w.resolved[1..] <= HandsOver(w).resolved)
  {
    hide Oldest, Removed;
  }

  lemma ServesMoves(w: World, w': World)
    requires Serves(w, w')
    ensures w'.fired == w.fired && w'.resolved == w.resolved && w'.scheduled == w.scheduled && w'.clock == w.clock
    ensures w.nonEmpty != [] ==> w.nonEmpty[1..] <= w'.nonEmpty
  {
    hide Oldest, Removed;
  }

  lemma FiresMoves(w: World, w': World)
    requires Fires(w, w')
    ensures w.fired <= w'.fired && |w'.fired| <= |w.fired| + 1 && w'.nonEmpty == w.nonEmpty
    ensures var d := |w'.fired| - |w.fired|; d <= |w'.resolved| && w.resolved == w'.resolved[d..]
  {
    hide Earliest, Removed;
  }

  lemma ResolutionMoves(p: Pass, key: Key, j: nat, d: nat)
    requires p.ran != [] && j < |p.start.resolved| && key == Future(p.start.resolved[j].0)
    requires d <= |p.ran[0].resolved| && p.start.resolved == p.ran[0].resolved[d..] && p.ran[0].resolved <= Last(p.ran).resolved
    requires Last(p.ran).resolved != [] ==> Last(p.ran).resolved[1..] <= p.end.resolved && key != Future(Last(p.ran).resolved[0].0)
    ensures j + d > 0 && j + d - 1 < |p.end.resolved| && key == Future(p.end.resolved[j + d - 1].0)
  {
    var all := Last(p.ran).resolved;
    assert p.start.resolved[j] == p.ran[0].resolved[j + d] == all[j + d];
    assert j + d > 0;
    assert all[1..][j + d - 1] == all[j + d];
  }

  lemma QueueMoves(p: Pass, key: Key, j: nat)
    requires j < |p.start.nonEmpty| && key == Queue(p.start.nonEmpty[j]) && p.start.nonEmpty <= p.handed.nonEmpty
    requires p.handed.nonEmpty != [] ==> p.handed.nonEmpty[1..] <= p.end.nonEmpty && key != Queue(p.handed.nonEmpty[0])
    ensures j > 0 && j - 1 < |p.end.nonEmpty| && key == Queue(p.end.nonEmpty[j - 1])
  {
    var all := p.handed.nonEmpty;
    assert p.start.nonEmpty[j] == all[j];
    assert j > 0;
    assert all[1..][j - 1] == all[j];
  }

  // ---------- Whole runs ----------

  lemma PassesBefore(rounds: seq<Round>, w: World, run: seq<Pass>, m: nat)
    requires Passes(rounds, w, run) && m < |run|
    ensures m < |rounds| && Passed(rounds[m].results, run[m]) && run[m].ran != []
    ensures run[m].start == EndOf(w, run[..m]) && EndOf(w, run[..m + 1]) == run[m].end
  {
    assert run[..m + 1][m] == run[m];
  }

  /** What a key stands for is `j` places from the front. */
  predicate AtPlace(w: World, key: Key, j: int) {
    match key
    case Future(f) => 0 <= j < |w.resolved| && w.resolved[j].0 == f
    case Queue(q) => 0 <= j < |w.nonEmpty| && w.nonEmpty[j] == q
  }

  /** Every pass moves a key on by one place; a timer that fires moves resolutions back by one. */
  function Places(key: Key, k: nat, passes: nat, w: World, w': World): int {
    k - passes + if key.Future? then |w'.fired| - |w.fired| else 0
  }

  lemma PassPlaces(results: seq<RunResult>, p: Pass, n: nat, key: Key, x: Waiter, j: nat)
    requires Passed(results, p) && InLine(p.start, n, key, x) && AtPlace(p.start, key, j)
    ensures Awoken(p.end, n, x) || AtPlace(p.end, key, Places(key, j, 1, p.start, p.end))
  {
    hide Passed, InLine, Awoken;
    match key
    case Future(_) => FuturePlaces(results, p, n, key, x, j);
    case Queue(_) => QueuePlaces(results, p, n, key, x, j);
  }

  lemma FuturePlaces(results: seq<RunResult>, p: Pass, n: nat, key: Key, x: Waiter, j: nat)
    requires Passed(results, p) && InLine(p.start, n, key, x) && AtPlace(p.start, key, j) && key.Future?
    ensures Awoken(p.end, n, x) || AtPlace(p.end, key, j + |p.end.fired| - |p.start.fired| - 1)
  {
    hide Passed, InLine, Awoken;
    HasRun(results, p);
    PassInLine(results, p, n, key, x);
    PassMoves(results, p);
    if !Awoken(p.end, n, x) { ResolutionMoves(p, key, j, |p.end.fired| - |p.start.fired|); }
  }

  lemma QueuePlaces(results: seq<RunResult>, p: Pass, n: nat, key: Key, x: Waiter, j: nat)
    requires Passed(results, p) && InLine(p.start, n, key, x) && AtPlace(p.start, key, j) && key.Queue?
    ensures Awoken(p.end, n, x) || AtPlace(p.end, key, j - 1)
  {
    hide Passed, InLine, Awoken;
    PassInLine(results, p, n, key, x);
    assert p.start.nonEmpty <= p.handed.nonEmpty && (p.handed.nonEmpty != [] ==> p.handed.nonEmpty[1..] <= p.end.nonEmpty) by {
      PassMoves(results, p);
    }
    if !Awoken(p.end, n, x) { QueueMoves(p, key, j); }
  }

  lemma HasRun(results: seq<RunResult>, p: Pass)
    requires Passed(results, p)
    ensures p.ran != []
  {}

  lemma {:induction false} LineMoves(rounds: seq<Round>, w: World, run: seq<Pass>, key: Key, x: Waiter, k: nat, m: nat)
    requires Passes(rounds, w, run) && m <= |run| && Foremost(w.waiters, key, x) && AtPlace(w, key, k)
    ensures var e := EndOf(w, run[..m]);
            && InLine(e, |w.wakes|, key, x)
            && (Awoken(e, |w.wakes|, x) || AtPlace(e, key, Places(key, k, m, w, e)))
  {
    hide Passes, Passed, Awoken, Foremost;
    if m == 0 {
      assert run[..0] == [];
    } else {
      LineMoves(rounds, w, run, key, x, k, m - 1);
      PassesBefore(rounds, w, run, m - 1);
      var p, results := run[m - 1], rounds[m - 1].results;
      PassInLine(results, p, |w.wakes|, key, x);
      if !Awoken(p.end, |w.wakes|, x) {
        PassPlaces(results, p, |w.wakes|, key, x, Places(key, k, m - 1, w, p.start));
      }
    }
  }

  /**
   * A fiber that is the next to get the `k`-th resolution is woken within `k + 1` passes, and one more for every timer
   * that fires meanwhile: the end of a timer goes before everything else that is resolved.
   */
  lemma ResolutionReaches(rounds: seq<Round>, w: World, run: seq<Pass>, k: nat, x: Waiter)
    requires Passes(rounds, w, run) && k < |w.resolved| && Foremost(w.waiters, Future(w.resolved[k].0), x)
    requires |run| > k + |EndOf(w, run).fired| - |w.fired|
    ensures Awoken(EndOf(w, run), |w.wakes|, x)
  {
    hide Passes, Foremost, Awoken;
    LineMoves(rounds, w, run, Future(w.resolved[k].0), x, k, |run|);
    assert run[..|run|] == run;
  }

  /** A fiber that is the next to get a message of the `k`-th listed queue is woken within `k + 1` passes. */
  lemma MessageReaches(rounds: seq<Round>, w: World, run: seq<Pass>, k: nat, x: Waiter)
    requires Passes(rounds, w, run) && k < |w.nonEmpty| && Foremost(w.waiters, Queue(w.nonEmpty[k]), x)
    requires |run| > k
    ensures Awoken(EndOf(w, run), |w.wakes|, x)
  {
    hide Passes, Foremost, Awoken;
    LineMoves(rounds, w, run, Queue(w.nonEmpty[k]), x, k, |run|);
    assert run[..|run|] == run;
  }

  // ---------- Timers ----------

  /** How many timers are due by `d`. */
  function DueBy(timers: seq<Timer>, d: nat): nat {
    if timers == [] then 0 else DueBy(timers[..|timers| - 1], d) + if timers[|timers| - 1].when <= d then 1 else 0
  }

  lemma {:induction false} DueByBoth(a: seq<Timer>, b: seq<Timer>, d: nat)
    ensures DueBy(a + b, d) == DueBy(a, d) + DueBy(b, d)
    decreases |b|
  {
    if b == [] {
      assert a + b == a;
    } else {
      var n := |b| - 1;
      DueByBoth(a, b[..n], d);
      assert (a + b)[..|a| + n] == a + b[..n];
    }
  }

  lemma DueByOther(timers: seq<Timer>, k: nat, d: nat)
    requires k < |timers| && timers[k].when <= d
    ensures DueBy(timers, d) == DueBy(Removed(timers, k), d) + 1
  {
    var a, b := timers[..k], timers[k + 1..];
    assert timers == a + [timers[k]] + b;
    DueByBoth(a + [timers[k]], b, d);
    DueByBoth(a, b, d);
    assert (a + [timers[k]])[..k] == a;
  }

  lemma {:induction false} NoneDue(timers: seq<Timer>, d: nat)
    requires forall i | 0 <= i < |timers| :: timers[i].when > d
    ensures DueBy(timers, d) == 0
  {
    if timers != [] { NoneDue(timers[..|timers| - 1], d); }
  }

  /** Timers that are added later than `d` do not get in the way of those due by `d`. */
  lemma KeepsDue(w: World, w': World, d: nat)
    requires Keeps(w, w') && w.clock > d
    ensures DueBy(w'.scheduled, d) == DueBy(w.scheduled, d)
  {
    var n := |w.scheduled|;
    assert w'.scheduled == w.scheduled + w'.scheduled[n..];
    DueByBoth(w.scheduled, w'.scheduled[n..], d);
    NoneDue(w'.scheduled[n..], d);
  }

  /** While a timer is overdue, every pass fires it or one that is due no later. */
  lemma FiresOverdue(w: World, w': World, t: Timer)
    requires Fires(w, w') && t in w.scheduled && t.when < w.clock
    ensures |w'.fired| == |w.fired| + 1 && w.fired <= w'.fired
    ensures DueBy(w.scheduled, t.when) == DueBy(w'.scheduled, t.when) + 1
    ensures t in w'.scheduled || t == w'.fired[|w.fired|]
    ensures w'.resolved == [(w'.fired[|w.fired|].future, Elapsed)] + w.resolved
  {
    hide DueBy, Removed;
    var i :| 0 <= i < |w.scheduled| && w.scheduled[i] == t;
    var k: nat :| Earliest(w.scheduled, k) && w.scheduled[k].when <= w'.clock && w' == Fired(w.(clock := w'.clock), k);
    DueByOther(w.scheduled, k, t.when);
    if i != k { StillThere(w.scheduled, i, k); }
  }

  lemma StillThere(timers: seq<Timer>, i: nat, k: nat)
    requires i < |timers| && k < |timers| && i != k
    ensures timers[i] in Removed(timers, k)
  {
    assert Removed(timers, k)[if i < k then i else i - 1] == timers[i];
  }

  lemma PassTimers(results: seq<RunResult>, p: Pass, t: Timer)
    requires Passed(results, p) && t in p.start.scheduled && t.when < p.start.clock
    ensures p.end.clock > t.when && p.start.fired <= p.end.fired && |p.end.fired| == |p.start.fired| + 1
    ensures DueBy(p.start.scheduled, t.when) == DueBy(p.end.scheduled, t.when) + 1
    ensures t in p.end.scheduled || t == p.end.fired[|p.start.fired|]
    ensures Last(p.ran).resolved != [] && Last(p.ran).resolved[0].0 == p.end.fired[|p.start.fired|].future
  {
    FiresOverdue(p.start, p.ran[0], t);
    RanKeeps(p.ran, results);
    var w1, w2 := p.ran[0], Last(p.ran);
    assert w1.clock >= p.start.clock;
    hide Stopped, Fires, HandsOver, Serves, Takes, DueBy;
    KeepsDue(w1, w2, t.when);
    assert t in w1.scheduled ==> t in w2.scheduled by { KeepsTimer(w1, w2, t); }
    HandsOverMoves(w2);
    ServesMoves(p.handed, p.served);
    if !Awaited(p.handed) {
      TakesKeeps(p.served, p.inbox, p.due, p.end, p.rest);
    }
  }

  lemma KeepsTimer(w: World, w': World, t: Timer)
    requires Keeps(w, w')
    ensures t in w.scheduled ==> t in w'.scheduled
  {
    if i :| 0 <= i < |w.scheduled| && w.scheduled[i] == t { assert w'.scheduled[i] == t; }
  }

  lemma {:induction false} TimerMoves(rounds: seq<Round>, w: World, run: seq<Pass>, t: Timer, m: nat)
    requires Passes(rounds, w, run) && m <= |run| && t in w.scheduled && t.when < w.clock
    ensures var e := EndOf(w, run[..m]);
            && w.fired <= e.fired
            && (t in e.fired[|w.fired|..]
                || (t in e.scheduled && t.when < e.clock && DueBy(e.scheduled, t.when) + m == DueBy(w.scheduled, t.when)))
  {
    hide Passes, Passed, DueBy;
    if m == 0 {
      assert run[..0] == [] && w.fired[|w.fired|..] == [];
    } else {
      TimerMoves(rounds, w, run, t, m - 1);
      PassesBefore(rounds, w, run, m - 1);
      var p, results := run[m - 1], rounds[m - 1].results;
      assert p.start.fired <= p.end.fired && |p.end.fired| <= |p.start.fired| + 1 by { PassMoves(results, p); }
      FiredSince(p.start.fired, p.end.fired, |w.fired|, t);
      if t !in p.start.fired[|w.fired|..] { PassTimers(results, p, t); }
    }
  }

  /** A fiber that waits for the end of an overdue timer is woken in the pass that fires it, if not before. */
  lemma {:induction false} SleeperMoves(rounds: seq<Round>, w: World, run: seq<Pass>, t: Timer, x: Waiter, m: nat)
    requires Passes(rounds, w, run) && m <= |run| && t in w.scheduled && t.when < w.clock
    requires Foremost(w.waiters, Future(t.future), x)
    ensures var e := EndOf(w, run[..m]);
            && w.fired <= e.fired && InLine(e, |w.wakes|, Future(t.future), x)
            && (t in e.fired[|w.fired|..] ==> Awoken(e, |w.wakes|, x))
  {
    hide Passes, Passed, DueBy, Awoken, Foremost;
    TimerMoves(rounds, w, run, t, m);
    if m == 0 {
      assert run[..0] == [] && w.fired[|w.fired|..] == [];
    } else {
      SleeperMoves(rounds, w, run, t, x, m - 1);
      TimerMoves(rounds, w, run, t, m - 1);
      PassesBefore(rounds, w, run, m - 1);
      var p, results := run[m - 1], rounds[m - 1].results;
      PassInLine(results, p, |w.wakes|, Future(t.future), x);
      if t !in p.start.fired[|w.fired|..] {
        PassTimers(results, p, t);
        FiredSince(p.start.fired, p.end.fired, |w.fired|, t);
      }
    }
  }

  lemma FiredSince(fired: seq<Timer>, fired': seq<Timer>, n: nat, t: Timer)
    requires n <= |fired| && fired <= fired' && |fired'| <= |fired| + 1
    ensures t in fired'[n..] <==> t in fired[n..] || (|fired'| == |fired| + 1 && fired'[|fired|] == t)
  {
    assert fired' == fired || fired' == fired + [fired'[|fired|]];
    assert fired' != fired ==> fired'[n..] == fired[n..] + [fired'[|fired|]];
  }

  /**
   * An overdue timer fires within as many passes as there are timers due no later, and by then the fiber that is the
   * next to get its end has been woken.
   */
  lemma TimerReaches(rounds: seq<Round>, w: World, run: seq<Pass>, t: Timer)
    requires Passes(rounds, w, run) && t in w.scheduled && t.when < w.clock
    requires |run| >= DueBy(w.scheduled, t.when)
    ensures w.fired <= EndOf(w, run).fired && t in EndOf(w, run).fired[|w.fired|..]
    ensures forall x | Foremost(w.waiters, Future(t.future), x) :: Awoken(EndOf(w, run), |w.wakes|, x)
  {
    hide Passes, Awoken, Foremost;
    TimerMoves(rounds, w, run, t, |run|);
    assert run[..|run|] == run;
    forall x | Foremost(w.waiters, Future(t.future), x)
      ensures t in EndOf(w, run).fired[|w.fired|..] ==> Awoken(EndOf(w, run), |w.wakes|, x)
    {
      SleeperMoves(rounds, w, run, t, x, |run|);
    }
    var e := EndOf(w, run);
    if t in e.scheduled {
      var i :| 0 <= i < |e.scheduled| && e.scheduled[i] == t;
      DueByOther(e.scheduled, i, t.when);
    }
  }

  // ---------- The clock ----------

  lemma PassClock(results: seq<RunResult>, p: Pass)
    requires Passed(results, p)
    ensures p.start.clock <= p.end.clock
  {
    hide Stopped, HandsOver, Serves, Takes;
    RanKeeps(p.ran, results);
    HandsOverMoves(Last(p.ran));
    ServesMoves(p.handed, p.served);
    if !Awaited(p.handed) { TakesKeeps(p.served, p.inbox, p.due, p.end, p.rest); }
  }

  lemma {:induction false} PassesClock(rounds: seq<Round>, w: World, run: seq<Pass>, m: nat)
    requires Passes(rounds, w, run) && m <= |run|
    ensures w.clock <= EndOf(w, run[..m]).clock
  {
    hide Passes, Passed;
    if m > 0 {
      PassesClock(rounds, w, run, m - 1);
      PassesBefore(rounds, w, run, m - 1);
      PassClock(rounds[m - 1].results, run[m - 1]);
    }
  }

  /** The clock does not go back. */
  lemma LoopsClock(rounds: seq<Round>, w: World, run: seq<Pass>, w': World, rest: seq<Task>)
    requires Loops(rounds, w, run, w', rest)
    ensures w.clock <= w'.clock
  {
    assert |run| <= |rounds|;
    hide Passes, Stopped;
    PassesClock(rounds, w, run, |run|);
    assert run[..|run|] == run;
    if |run| < |rounds| {
      var ran :| Stuck(EndOf(w, run), rounds[|run|].results, ran, w');
      RanKeeps(ran, rounds[|run|].results);
    }
  }
}
