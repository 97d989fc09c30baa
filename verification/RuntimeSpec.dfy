/** What the fiber scheduler does, on values: its state, what has happened so far and what each phase of its loop does. */
module RuntimeSpec {
  import opened Wrappers
  import opened WaitLists
  import opened WaitSpec
  import opened Scheduler

  datatype SetValue = QueueMessage(queue: Name, value: Value) | FutureValue(future: nat, value: Value)

  datatype Primitive = NewQueue(name: Name) | NewFuture | NewTimer(ms: nat)

  /** Why a fiber stopped running. What fibers do is not part of this model: any fiber may stop for any reason. */
  datatype RunResult =
    | Done
    | Select(arms: seq<Arm>)
    | CreateFibers(count: nat)
    | SetValues(values: seq<SetValue>)
    | Create(primitives: seq<Primitive>)

  datatype Created = QueueName(name: Name) | FutureId(id: nat)

  datatype Got = Received(queue: Name, message: Message) | Resolved(future: nat, value: Resolution)

  /** A parked fiber goes on: what it got, the variable for it and its next step. */
  datatype Wake = Wake(fiber: nat, bind: Option<Name>, next: State, got: Got)

  type Task = (nat, seq<Blueprint>)

  /** The messages that fibers have received from a queue, in order. */
  function ReceivedFrom(wakes: seq<Wake>, q: Name): seq<Message> {
    if wakes == [] then [] else
      var rest, last := ReceivedFrom(wakes[..|wakes| - 1], q), wakes[|wakes| - 1].got;
      if last.Received? && last.queue == q then rest + [last.message] else rest
  }

  function HandedOver(wakes: seq<Wake>): multiset<(nat, Resolution)> {
    if wakes == [] then multiset{} else
      var rest, last := HandedOver(wakes[..|wakes| - 1]), wakes[|wakes| - 1].got;
      if last.Resolved? then rest + multiset{(last.future, last.value)} else rest
  }

  function UidsOf(answered: seq<(nat, nat)>): seq<nat> {
    seq(|answered|, i requires 0 <= i < |answered| => answered[i].1)
  }

  function IdsOf(outbox: seq<(nat, Value)>): seq<nat> {
    seq(|outbox|, i requires 0 <= i < |outbox| => outbox[i].0)
  }

  /** The names of the queues to create. */
  function QueueNames(ps: seq<Primitive>): seq<Name> {
    if ps == [] then [] else
      QueueNames(ps[..|ps| - 1]) + if ps[|ps| - 1].NewQueue? then [ps[|ps| - 1].name] else []
  }

  /** All primitives can be created: their queues are new and differ from each other. */
  ghost predicate Creatable(queues: Queues, ps: seq<Primitive>) {
    NoRepeat(QueueNames(ps)) && forall q | q in QueueNames(ps) :: q !in queues
  }

  /** A primitive that cannot be created: a queue whose name is taken, or taken by an earlier one of them. */
  predicate Offends(queues: Queues, ps: seq<Primitive>, i: nat)
    requires i < |ps|
  {
    ps[i].NewQueue? && (ps[i].name in queues || ps[i].name in QueueNames(ps[..i]))
  }

  /** The errors mark exactly the offenders. */
  predicate ErrorsFor(queues: Queues, ps: seq<Primitive>, errors: seq<bool>) {
    |errors| == |ps| && forall i | 0 <= i < |ps| :: errors[i] <==> Offends(queues, ps, i)
  }

  predicate Sendable(queues: Queues, values: seq<SetValue>) {
    forall i | 0 <= i < |values| :: values[i].QueueMessage? ==> values[i].queue in queues
  }

  /** What fibers have received from a queue is what was put into it, up to what is still there. */
  ghost predicate MessagesRight(queues: Queues, nonEmpty: seq<Name>, enqueued: Queues, delivered: Queues, wakes: seq<Wake>) {
    && QueuesRight(queues, nonEmpty, enqueued, delivered)
    && forall q :: ReceivedFrom(wakes, q) == if q in delivered then delivered[q] else []
  }

  /** Every resolution is handed to one fiber, or still there. */
  ghost predicate ResolutionsRight(resolved: seq<(nat, Resolution)>, wakes: seq<Wake>, pushed: multiset<(nat, Resolution)>) {
    multiset(resolved) + HandedOver(wakes) == pushed
  }

  /** How often a timer of a future has fired. */
  function TimesFired(fired: seq<Timer>, future: nat): nat {
    if fired == [] then 0
    else TimesFired(fired[..|fired| - 1], future) + if fired[|fired| - 1].future == future then 1 else 0
  }

  /** Exactly the timers that have fired have resolved their futures. */
  ghost predicate ElapsedRight(pushed: multiset<(nat, Resolution)>, fired: seq<Timer>) {
    forall future: nat :: pushed[(future, Elapsed)] == TimesFired(fired, future)
  }

  /**
   * What fibers see of timers: the end of a timer is waiting or handed to a fiber at most once, and only after a timer
   * for that future was due.
   */
  ghost predicate TimersHonest(resolved: seq<(nat, Resolution)>, wakes: seq<Wake>, fired: seq<Timer>, clock: nat) {
    forall future: nat ::
      var seen := (multiset(resolved) + HandedOver(wakes))[(future, Elapsed)];
      && seen <= 1
      && (seen == 1 ==> exists i :: 0 <= i < |fired| && fired[i].future == future && fired[i].when <= clock)
  }

  lemma TimersAreHonest(resolved: seq<(nat, Resolution)>, wakes: seq<Wake>, pushed: multiset<(nat, Resolution)>,
                        scheduled: seq<Timer>, fired: seq<Timer>, clock: nat, next: nat)
    requires ResolutionsRight(resolved, wakes, pushed) && ElapsedRight(pushed, fired)
    requires TimersRight(scheduled, fired, clock, next)
    ensures TimersHonest(resolved, wakes, fired, clock)
  {
    forall i | 0 <= i < |fired| ensures fired[i].when <= clock {}
    forall i, j | 0 <= i < j < |fired| ensures fired[i].future != fired[j].future {
      assert (fired + scheduled)[i] == fired[i] && (fired + scheduled)[j] == fired[j];
    }
    hide TimersRight, HandedOver, TimesFired;
    forall future: nat
      ensures var seen := (multiset(resolved) + HandedOver(wakes))[(future, Elapsed)];
              && seen <= 1
              && (seen == 1 ==> exists i :: 0 <= i < |fired| && fired[i].future == future && fired[i].when <= clock)
    {
      FiredOnce(fired, future);
    }
  }

  lemma {:induction false} FiredOnce(fired: seq<Timer>, future: nat)
    requires forall i, j | 0 <= i < j < |fired| :: fired[i].future != fired[j].future
    ensures TimesFired(fired, future) <= 1
    ensures TimesFired(fired, future) == 1 <==> exists i :: 0 <= i < |fired| && fired[i].future == future
  {
    if fired != [] {
      var n := |fired| - 1;
      FiredOnce(fired[..n], future);
      if i :| 0 <= i < |fired| && fired[i].future == future { assert i < n ==> fired[..n][i].future == future; }
      if i :| 0 <= i < n && fired[..n][i].future == future { assert fired[i].future == future; }
    }
  }

  lemma ElapsedFired(pushed: multiset<(nat, Resolution)>, fired: seq<Timer>, timer: Timer)
    requires ElapsedRight(pushed, fired)
    ensures ElapsedRight(pushed + multiset{(timer.future, Elapsed)}, fired + [timer])
  {
    assert (fired + [timer])[..|fired|] == fired;
  }

  lemma ElapsedSet(pushed: multiset<(nat, Resolution)>, fired: seq<Timer>, future: nat, value: Value)
    requires ElapsedRight(pushed, fired)
    ensures ElapsedRight(pushed + multiset{(future, Set(value))}, fired)
  {
    hide TimesFired;
  }

  /** Every accepted request is pending or answered, and the answers are what was sent out. */
  ghost predicate AnswersRight(pending: map<nat, nat>, next: nat, accepted: seq<(nat, nat)>, answered: seq<(nat, nat)>, outbox: seq<(nat, Value)>) {
    RequestsRight(pending, next, accepted, answered) && IdsOf(outbox) == UidsOf(answered)
  }

  /** Everything that has happened so far. */
  datatype Past = Past(
    fired: seq<Timer>,
    accepted: seq<(nat, nat)>,
    answered: seq<(nat, nat)>,
    outbox: seq<(nat, Value)>,
    exited: set<nat>,
    enqueued: Queues,
    pushed: multiset<(nat, Resolution)>,
    wakes: seq<Wake>)

  /** Nothing that has happened is ever taken back. */
  predicate Later(p: Past, p': Past) {
    && p.fired <= p'.fired && p.accepted <= p'.accepted && p.answered <= p'.answered && p.outbox <= p'.outbox
    && p.exited <= p'.exited && p.pushed <= p'.pushed && p.wakes <= p'.wakes
    && forall q | q in p.enqueued :: q in p'.enqueued && p.enqueued[q] <= p'.enqueued[q]
  }

  lemma LaterSelf(p: Past)
    ensures Later(p, p)
  {}

  lemma LaterSent(p: Past, q: Name, m: Message)
    requires q in p.enqueued
    ensures Later(p, p.(enqueued := p.enqueued[q := p.enqueued[q] + [m]]))
  {}

  lemma LaterFired(p: Past, timer: Timer)
    ensures Later(p, p.(fired := p.fired + [timer], pushed := p.pushed + multiset{(timer.future, Elapsed)}))
  {}

  lemma LaterQueue(p: Past, q: Name)
    requires q !in p.enqueued
    ensures Later(p, p.(enqueued := p.enqueued[q := []]))
  {}

  lemma LaterWoken(p: Past, wakes: seq<Wake>)
    requires p.wakes <= wakes
    ensures Later(p, p.(wakes := wakes))
  {}

  lemma LaterTwice(p: Past, q: Past, r: Past)
    requires Later(p, q) && Later(q, r)
    ensures Later(p, r)
  {
    forall x | x in p.enqueued ensures x in r.enqueued && p.enqueued[x] <= r.enqueued[x] {
      assert p.enqueued[x] <= q.enqueued[x] && q.enqueued[x] <= r.enqueued[x];
    }
  }

  datatype Round = Round(results: seq<RunResult>, arrived: seq<Task>)

  /** Moving the first task over. */
  lemma FirstTask(due: seq<Task>, tasks: seq<Task>, rest: seq<Task>)
    requires tasks != [] || rest != []
    ensures tasks != [] ==> due + (tasks + rest) == due + [tasks[0]] + (tasks[1..] + rest)
    ensures tasks == [] ==> due + (tasks + rest) == due + [rest[0]] + (tasks + rest[1..])
    ensures tasks == [] ==> due + (tasks + rest) == due + ([rest[0]] + rest[1..])
  {}

  function Rotated<T>(s: seq<T>): seq<T> {
    if s == [] then s else s[1..] + [s[0]]
  }

  lemma RotatedNone<T>(s: seq<T>)
    requires s == []
    ensures Rotated(s) == s
  {}

  lemma HandOver(resolved: seq<(nat, Resolution)>, wakes: seq<Wake>, wakes': seq<Wake>, pushed: multiset<(nat, Resolution)>)
    requires resolved != [] && ResolutionsRight(resolved, wakes, pushed)
    requires |wakes'| == |wakes| + 1 && wakes'[..|wakes|] == wakes
    requires wakes'[|wakes|].got == Resolved(resolved[0].0, resolved[0].1)
    ensures ResolutionsRight(resolved[1..], wakes', pushed)
  {
    assert resolved == [resolved[0]] + resolved[1..];
  }

  lemma NotHanded(resolved: seq<(nat, Resolution)>, wakes: seq<Wake>, wakes': seq<Wake>, pushed: multiset<(nat, Resolution)>)
    requires ResolutionsRight(resolved, wakes, pushed)
    requires |wakes'| == |wakes| + 1 && wakes'[..|wakes|] == wakes && wakes'[|wakes|].got.Received?
    ensures ResolutionsRight(resolved, wakes', pushed)
  {}

  lemma Rotates(resolved: seq<(nat, Resolution)>, wakes: seq<Wake>, pushed: multiset<(nat, Resolution)>)
    requires resolved != [] && ResolutionsRight(resolved, wakes, pushed)
    ensures ResolutionsRight(resolved[1..] + [resolved[0]], wakes, pushed)
  {
    hide HandedOver;
    assert resolved == [resolved[0]] + resolved[1..];
  }

  lemma NotReceived(queues: Queues, nonEmpty: seq<Name>, enqueued: Queues, delivered: Queues, wakes: seq<Wake>, wakes': seq<Wake>)
    requires MessagesRight(queues, nonEmpty, enqueued, delivered, wakes)
    requires |wakes'| == |wakes| + 1 && wakes'[..|wakes|] == wakes && wakes'[|wakes|].got.Resolved?
    ensures MessagesRight(queues, nonEmpty, enqueued, delivered, wakes')
  {
    hide QueuesRight;
    forall q ensures ReceivedFrom(wakes', q) == ReceivedFrom(wakes, q) {}
  }

  lemma Taken(queues: Queues, nonEmpty: seq<Name>, enqueued: Queues, delivered: Queues, wakes: seq<Wake>)
    requires MessagesRight(queues, nonEmpty, enqueued, delivered, wakes) && nonEmpty != []
    ensures nonEmpty[0] in queues && queues[nonEmpty[0]] != [] && nonEmpty[0] in delivered
  {
    hide QueuesRight, ReceivedFrom;
    MessageTaken(queues, nonEmpty, enqueued, delivered);
    KeysOf(queues, nonEmpty, enqueued, delivered);
  }

  lemma TakeMessage(queues: Queues, nonEmpty: seq<Name>, enqueued: Queues, delivered: Queues, wakes: seq<Wake>, wakes': seq<Wake>)
    requires MessagesRight(queues, nonEmpty, enqueued, delivered, wakes) && nonEmpty != []
    requires nonEmpty[0] in queues && queues[nonEmpty[0]] != [] && nonEmpty[0] in delivered
    requires |wakes'| == |wakes| + 1 && wakes'[..|wakes|] == wakes
    requires wakes'[|wakes|].got == Received(nonEmpty[0], queues[nonEmpty[0]][0])
    ensures var q := nonEmpty[0];
            var rest := queues[q][1..];
            MessagesRight(queues[q := rest], if rest == [] then nonEmpty[1..] else nonEmpty[1..] + [q], enqueued,
                          delivered[q := delivered[q] + [queues[q][0]]], wakes')
  {
    hide QueuesRight;
    MessageTaken(queues, nonEmpty, enqueued, delivered);
    var q0 := nonEmpty[0];
    forall q ensures ReceivedFrom(wakes', q) == ReceivedFrom(wakes, q) + if q == q0 then [queues[q0][0]] else [] {
      assert ReceivedFrom(wakes, q) + [] == ReceivedFrom(wakes, q);
    }
  }

  lemma Skipped(queues: Queues, nonEmpty: seq<Name>, enqueued: Queues, delivered: Queues, wakes: seq<Wake>)
    requires MessagesRight(queues, nonEmpty, enqueued, delivered, wakes) && nonEmpty != []
    ensures MessagesRight(queues, nonEmpty[1..] + [nonEmpty[0]], enqueued, delivered, wakes)
  {
    hide QueuesRight, ReceivedFrom;
    QueueRotates(queues, nonEmpty, enqueued, delivered);
  }

  /** What a fiber can change by setting values. */
  datatype Sent = Sent(queues: Queues, nonEmpty: seq<Name>, pending: map<nat, nat>, outbox: seq<(nat, Value)>, resolved: seq<(nat, Resolution)>)

  function SentOne(s: Sent, v: SetValue): Sent {
    match v
    case QueueMessage(q, value) =>
      if q !in s.queues then s
      else s.(queues := s.queues[q := s.queues[q] + [Internal(value)]], nonEmpty := Listed(s.queues, s.nonEmpty, q))
    case FutureValue(future, value) =>
      if future in s.pending then s.(pending := s.pending - {future}, outbox := s.outbox + [(s.pending[future], value)])
      else s.(resolved := s.resolved + [(future, Set(value))])
  }

  function SentAll(s: Sent, values: seq<SetValue>): Sent {
    if values == [] then s else SentOne(SentAll(s, values[..|values| - 1]), values[|values| - 1])
  }

  lemma StartRight()
    ensures FibersRight([0], {}, {}, 1, []) && MessagesRight(map[], [], map[], map[], []) && AnswersRight(map[], 0, [], [], [])
    ensures TimersRight([], [], 0, 0) && ResolutionsRight([], [], multiset{}) && ElapsedRight(multiset{}, [])
  {
    assert IdsOf([]) == UidsOf([]);
    assert forall f: nat :: !Waits([], f);
    assert Items(map[]) == {};
  }

  lemma NewQueueRight(queues: Queues, nonEmpty: seq<Name>, enqueued: Queues, delivered: Queues, wakes: seq<Wake>, q: Name)
    requires MessagesRight(queues, nonEmpty, enqueued, delivered, wakes) && q !in queues
    ensures MessagesRight(queues[q := []], nonEmpty, enqueued[q := []], delivered[q := []], wakes)
  {
    hide ReceivedFrom;
    QueueCreated(queues, nonEmpty, enqueued, delivered, q);
  }

  lemma SameQueues(queues: Queues, nonEmpty: seq<Name>, enqueued: Queues, delivered: Queues, wakes: seq<Wake>)
    requires MessagesRight(queues, nonEmpty, enqueued, delivered, wakes)
    ensures queues.Keys == enqueued.Keys
  {
    hide ReceivedFrom;
  }

  lemma KeysOf(queues: Queues, nonEmpty: seq<Name>, enqueued: Queues, delivered: Queues)
    requires QueuesRight(queues, nonEmpty, enqueued, delivered)
    ensures queues.Keys == enqueued.Keys == delivered.Keys
  {}

  lemma AnswerSent(pending: map<nat, nat>, next: nat, accepted: seq<(nat, nat)>, answered: seq<(nat, nat)>,
                   outbox: seq<(nat, Value)>, future: nat, value: Value)
    requires AnswersRight(pending, next, accepted, answered, outbox) && future in pending
    ensures AnswersRight(pending - {future}, next, accepted, answered + [(future, pending[future])], outbox + [(pending[future], value)])
  {
    hide RequestsRight;
    RequestAnswered(pending, next, accepted, answered, future);
    var outbox', answered' := outbox + [(pending[future], value)], answered + [(future, pending[future])];
    assert IdsOf(outbox') == IdsOf(outbox) + [pending[future]];
    assert UidsOf(answered') == UidsOf(answered) + [pending[future]];
  }

  lemma ResolvedFront(resolved: seq<(nat, Resolution)>, wakes: seq<Wake>, pushed: multiset<(nat, Resolution)>, r: (nat, Resolution))
    requires ResolutionsRight(resolved, wakes, pushed)
    ensures ResolutionsRight([r] + resolved, wakes, pushed + multiset{r})
    ensures ResolutionsRight(resolved + [r], wakes, pushed + multiset{r})
  {
    hide HandedOver;
  }

  lemma CreatableNone(queues: Queues)
    ensures Creatable(queues, [])
  {}

  lemma CreatableMore(queues: Queues, ps: seq<Primitive>, p: Primitive)
    ensures Creatable(queues, ps + [p])
            <==> Creatable(queues, ps) && (p.NewQueue? ==> p.name !in queues && p.name !in QueueNames(ps))
    ensures QueueNames(ps + [p]) == QueueNames(ps) + if p.NewQueue? then [p.name] else []
  {
    assert (ps + [p])[..|ps|] == ps;
    assert QueueNames(ps) + [] == QueueNames(ps);
    if p.NewQueue? { NamesMore(queues, QueueNames(ps), p.name); }
  }

  lemma NamesMore(queues: Queues, names: seq<Name>, name: Name)
    ensures NoRepeat(names + [name]) <==> NoRepeat(names) && name !in names
    ensures (forall q | q in names + [name] :: q !in queues) <==> (forall q | q in names :: q !in queues) && name !in queues
  {
    var names' := names + [name];
    if NoRepeat(names') {
      forall i | 0 <= i < |names| ensures names[i] != name { assert names'[i] != names'[|names|]; }
      forall i, j | 0 <= i < j < |names| ensures names[i] != names[j] { assert names'[i] != names'[j]; }
    }
    assert name in names';
    assert forall q | q in names :: q in names';
  }

  function FutureCount(ps: seq<Primitive>): nat {
    if ps == [] then 0 else FutureCount(ps[..|ps| - 1]) + if ps[|ps| - 1].NewQueue? then 0 else 1
  }

  function IdsFor(ps: seq<Primitive>, next: nat): seq<Created> {
    if ps == [] then [] else
      var rest, last := ps[..|ps| - 1], ps[|ps| - 1];
      IdsFor(rest, next) + [if last.NewQueue? then QueueName(last.name) else FutureId(next + FutureCount(rest))]
  }

  function WithQueues(queues: Queues, names: seq<Name>): Queues {
    map q | q in queues.Keys + (set i | 0 <= i < |names| :: names[i]) :: if q in queues then queues[q] else []
  }

  lemma NoNames()
    ensures QueueNames([]) == []
  {}

  lemma WithQueuesMore(queues: Queues, names: seq<Name>, p: Primitive)
    requires p.NewQueue? ==> p.name !in queues && p.name !in names
    ensures p.NewQueue? ==> p.name !in WithQueues(queues, names)
    ensures WithQueues(queues, names + if p.NewQueue? then [p.name] else [])
         == if p.NewQueue? then WithQueues(queues, names)[p.name := []] else WithQueues(queues, names)
  {
    if p.NewQueue? {
      var names' := names + [p.name];
      assert names'[|names|] == p.name;
      assert forall i | 0 <= i < |names| :: names'[i] == names[i];
      assert forall q :: q in WithQueues(queues, names') <==> q in WithQueues(queues, names) || q == p.name;
    } else {
      assert names + [] == names;
    }
  }

  lemma {:induction false} CreatablePrefix(queues: Queues, ps: seq<Primitive>, i: nat)
    requires Creatable(queues, ps) && i <= |ps|
    ensures Creatable(queues, ps[..i])
    decreases |ps| - i
  {
    hide Creatable;
    if i == |ps| {
      assert ps[..i] == ps;
    } else {
      CreatablePrefix(queues, ps, i + 1);
      assert ps[..i + 1] == ps[..i] + [ps[i]];
      CreatableMore(queues, ps[..i], ps[i]);
    }
  }

  /** The requests of a batch whose queue exists. */
  function Accepted(bs: seq<Blueprint>, queues: set<Name>): seq<nat> {
    if bs == [] then [] else
      Accepted(bs[..|bs| - 1], queues) + if bs[|bs| - 1].queue in queues then [bs[|bs| - 1].id] else []
  }

  function AcceptedTasks(tasks: seq<Task>, queues: set<Name>): seq<nat> {
    if tasks == [] then [] else AcceptedTasks(tasks[..|tasks| - 1], queues) + Accepted(tasks[|tasks| - 1].1, queues)
  }

  lemma AcceptedTask(due: seq<Task>, next: Task, queues: set<Name>)
    ensures AcceptedTasks(due + [next], queues) == AcceptedTasks(due, queues) + Accepted(next.1, queues)
  {
    assert (due + [next])[..|due|] == due;
  }

  // ---------- Timers that are created ----------

  function TimerCount(ps: seq<Primitive>): nat {
    if ps == [] then 0 else TimerCount(ps[..|ps| - 1]) + if ps[|ps| - 1].NewTimer? then 1 else 0
  }

  /**
   * The timers that creating `ps` schedules between two times: one for every new timer, in order, under the id that
   * its creator is told and due as much later as it asked for.
   */
  ghost predicate TimersFor(ps: seq<Primitive>, ids: seq<Created>, from: nat, to: nat, timers: seq<Timer>) {
    && |ids| == |ps| && |timers| == TimerCount(ps)
    && forall i | 0 <= i < |ps| && ps[i].NewTimer? ::
         var k := TimerCount(ps[..i]);
         && k < |timers| && ids[i] == FutureId(timers[k].future)
         && from + ps[i].ms <= timers[k].when <= to + ps[i].ms
  }

  lemma TimersNone(from: nat, to: nat)
    ensures TimersFor([], [], from, to, [])
  {}

  lemma TimersMore(ps: seq<Primitive>, ids: seq<Created>, from: nat, to: nat, timers: seq<Timer>,
                   p: Primitive, id: Created, to': nat, more: seq<Timer>)
    requires TimersFor(ps, ids, from, to, timers) && to <= to'
    requires p.NewTimer? ==>
               |more| == 1 && id == FutureId(more[0].future) && from + p.ms <= more[0].when <= to' + p.ms
    requires !p.NewTimer? ==> more == []
    ensures TimersFor(ps + [p], ids + [id], from, to', timers + more)
  {
    var ps', timers' := ps + [p], timers + more;
    assert ps'[..|ps|] == ps;
    forall i | 0 <= i < |ps'| && ps'[i].NewTimer?
      ensures var k := TimerCount(ps'[..i]);
              && k < |timers'| && (ids + [id])[i] == FutureId(timers'[k].future)
              && from + ps'[i].ms <= timers'[k].when <= to' + ps'[i].ms
    {
      assert ps'[..i] == ps[..i];
    }
  }

  // ---------- The phases of a pass ----------

  /** The state of the scheduler. */
  datatype World = World(
    clock: nat,
    active: seq<nat>,
    parked: set<nat>,
    exited: set<nat>,
    nextFiber: nat,
    waiters: seq<Waiter>,
    queues: Queues,
    nonEmpty: seq<Name>,
    resolved: seq<(nat, Resolution)>,
    scheduled: seq<Timer>,
    fired: seq<Timer>,
    nextFuture: nat,
    pending: map<nat, nat>,
    tasks: seq<Task>,
    outbox: seq<(nat, Value)>,
    wakes: seq<Wake>)

  /** The `k`-th timer is taken off, and its future is resolved before everything else. */
  function Fired(w: World, k: nat): World
    requires k < |w.scheduled|
  {
    w.(scheduled := Removed(w.scheduled, k), fired := w.fired + [w.scheduled[k]],
       resolved := [(w.scheduled[k].future, Elapsed)] + w.resolved)
  }

  /** No timer is due and nothing but the clock changes, or a timer that is due first fires. */
  ghost predicate Fires(w: World, w': World) {
    var now := w.(clock := w'.clock);
    && w.clock <= w'.clock
    && ((w' == now && forall j | 0 <= j < |w.scheduled| :: w'.clock < w.scheduled[j].when)
        || exists k: nat :: Earliest(w.scheduled, k) && w.scheduled[k].when <= w'.clock && w' == Fired(now, k))
  }

  function SentOf(w: World): Sent {
    Sent(w.queues, w.nonEmpty, w.pending, w.outbox, w.resolved)
  }

  function WithSent(w: World, s: Sent): World {
    w.(queues := s.queues, nonEmpty := s.nonEmpty, pending := s.pending, outbox := s.outbox, resolved := s.resolved)
  }

  /** All primitives come into being under the next ids. */
  ghost predicate Creates(w: World, ps: seq<Primitive>, w': World) {
    && w.clock <= w'.clock
    && w' == w.(clock := w'.clock, queues := WithQueues(w.queues, QueueNames(ps)), nextFuture := w.nextFuture + FutureCount(ps),
                scheduled := w'.scheduled)
    && |w.scheduled| <= |w'.scheduled| && w'.scheduled[..|w.scheduled|] == w.scheduled
    && TimersFor(ps, IdsFor(ps, w.nextFuture), w.clock, w'.clock, w'.scheduled[|w.scheduled|..])
  }

  /** Which fibers are active does not matter to what is created. */
  lemma CreatesAnyway(w: World, ps: seq<Primitive>, w': World, active: seq<nat>)
    requires Creates(w, ps, w')
    ensures Creates(w.(active := active), ps, w'.(active := active))
  {
    hide WithQueues, QueueNames, IdsFor, TimersFor, FutureCount;
  }

  /** The first active fiber has run and stopped with `result`. */
  ghost predicate Stopped(w: World, result: RunResult, w': World) {
    && w.active != []
    && match result
       case Done => w' == w.(active := w.active[1..], exited := w.exited + {w.active[0]})
       case Select(arms) =>
         && |w'.waiters| == |w.waiters| + 1
         && var id := w'.waiters[|w.waiters|].id;
         w' == w.(active := w.active[1..], parked := w.parked + {w.active[0]},
                  waiters := w.waiters + [Waiter(id, w.active[0], arms)])
       case CreateFibers(n) => w' == w.(active := w.active + Fresh(w.nextFiber, n), nextFiber := w.nextFiber + n)
       case SetValues(values) => w' == WithSent(w, SentAll(SentOf(w), values))
       case Create(ps) => if Creatable(w.queues, ps) then Creates(w, ps, w') else w' == w
  }

  /** Fibers run one after the other and stop as `results` says. */
  ghost predicate Ran(ws: seq<World>, results: seq<RunResult>) {
    && 1 <= |ws| <= |results| + 1
    && forall i | 0 <= i < |ws| - 1 :: Stopped(ws[i], results[i], ws[i + 1])
  }

  function Last<T>(s: seq<T>): T
    requires s != []
  {
    s[|s| - 1]
  }

  /** The oldest fiber that waits for a key goes on with what it got. */
  function Handed(w: World, key: Key, got: Got): World
    requires Oldest(w.waiters, key).Some?
  {
    var p := Oldest(w.waiters, key).value;
    var x := w.waiters[p];
    w.(waiters := Removed(w.waiters, p), parked := w.parked - {x.fiber}, active := [x.fiber] + w.active,
       wakes := w.wakes + [Wake(x.fiber, Woken(x, key).bind, Woken(x, key).next, got)])
  }

  lemma HandedShape(w: World, key: Key, got: Got)
    requires Oldest(w.waiters, key).Some?
    ensures var w' := Handed(w, key, got);
            |w'.wakes| == |w.wakes| + 1 && w'.wakes[..|w.wakes|] == w.wakes && w'.wakes[|w.wakes|].got == got
    ensures var w' := Handed(w, key, got);
            w' == w.(waiters := w'.waiters, parked := w'.parked, active := w'.active, wakes := w'.wakes)
  {
    hide Oldest, Removed;
  }

  /** The first resolution goes to the oldest fiber that waits for it, or to the end of the line. */
  function HandsOver(w: World): World {
    if w.resolved == [] then w
    else
      var (future, value) := w.resolved[0];
      if Oldest(w.waiters, Future(future)).Some?
      then Handed(w, Future(future), Resolved(future, value)).(resolved := w.resolved[1..])
      else w.(resolved := Rotated(w.resolved))
  }

  predicate Awaited(w: World) {
    w.nonEmpty != [] && Oldest(w.waiters, Queue(w.nonEmpty[0])).Some?
  }

  /** The first message of the first listed queue goes to the oldest fiber that waits for it, or the queue to the end. */
  ghost predicate Serves(w: World, w': World) {
    if !Awaited(w) then w' == w.(nonEmpty := Rotated(w.nonEmpty))
    else
      var q := w.nonEmpty[0];
      && q in w.queues && w.queues[q] != []
      && var rest := w.queues[q][1..];
      w' == Handed(w, Queue(q), Received(q, w.queues[q][0]))
            .(queues := w.queues[q := rest], nonEmpty := w.nonEmpty[1..] + if rest == [] then [] else [q])
  }

  /** A message at the end of its queue, which is listed if it was empty. */
  function Put(w: World, q: Name, m: Message): World
    requires q in w.queues
  {
    w.(queues := w.queues[q := w.queues[q] + [m]], nonEmpty := Listed(w.queues, w.nonEmpty, q))
  }

  /** The next future stands for the answer to a request. */
  function Opened(w: World, id: nat): (r: World)
    ensures r.queues == w.queues
  {
    w.(pending := w.pending[w.nextFuture := id], nextFuture := w.nextFuture + 1)
  }

  /** A request from outside gets the next future if its queue exists, and is dropped if not. */
  function Requested(w: World, b: Blueprint): World {
    if b.queue !in w.queues then w else Put(Opened(w, b.id), b.queue, External(b.value, w.nextFuture))
  }

  function RequestedAll(w: World, bs: seq<Blueprint>): World {
    if bs == [] then w else Requested(RequestedAll(w, bs[..|bs| - 1]), bs[|bs| - 1])
  }

  function TakenIn(w: World, due: seq<Task>): World {
    if due == [] then w else RequestedAll(TakenIn(w, due[..|due| - 1]), due[|due| - 1].1)
  }

  lemma TakenNone(w: World)
    ensures TakenIn(w, []) == w
  {}

  /** The time and the batches that wait do not matter to what a request does. */
  lemma {:induction false} RequestedAnyway(w: World, bs: seq<Blueprint>, clock: nat, tasks: seq<Task>)
    ensures RequestedAll(w.(clock := clock, tasks := tasks), bs) == RequestedAll(w, bs).(clock := clock, tasks := tasks)
  {
    hide Listed;
    if bs != [] { RequestedAnyway(w, bs[..|bs| - 1], clock, tasks); }
  }

  lemma TakenMore(w: World, due: seq<Task>, next: Task, clock: nat, tasks: seq<Task>)
    ensures TakenIn(w, due + [next]).(clock := clock, tasks := tasks)
         == RequestedAll(TakenIn(w, due).(clock := clock, tasks := tasks), next.1)
  {
    hide RequestedAll;
    assert (due + [next])[..|due|] == due;
    RequestedAnyway(TakenIn(w, due), next.1, clock, tasks);
  }

  /** Batches are taken in, in order, up to the first that is not due. */
  ghost predicate Takes(w: World, inbox: seq<Task>, due: seq<Task>, w': World, rest: seq<Task>) {
    && w.tasks + inbox == due + (w'.tasks + rest) && w.clock <= w'.clock
    && (forall i | 0 <= i < |due| :: due[i].0 <= w'.clock)
    && (w'.tasks + rest == [] || (w'.tasks + rest)[0].0 > w'.clock)
    && w' == TakenIn(w, due).(clock := w'.clock, tasks := w'.tasks)
  }

  /** One pass of the main loop, with the state after every phase, what has arrived and what of it was taken in. */
  datatype Pass = Pass(start: World, ran: seq<World>, handed: World, served: World, end: World,
                       inbox: seq<Task>, due: seq<Task>, rest: seq<Task>)

  /** A pass that is done: every phase has done its work. */
  ghost predicate Passed(results: seq<RunResult>, p: Pass) {
    && Ran(p.ran, results) && Fires(p.start, p.ran[0]) && Last(p.ran).active == []
    && p.handed == HandsOver(Last(p.ran))
    && Serves(p.handed, p.served)
    && if Awaited(p.handed) then p.end == p.served && p.due == [] && p.rest == p.inbox
       else Takes(p.served, p.inbox, p.due, p.end, p.rest)
  }

  /** A pass that cannot go on: it is not said how the next fiber stops, or that fiber sends to a queue that is not there. */
  ghost predicate Stuck(w: World, results: seq<RunResult>, ran: seq<World>, w': World) {
    && Ran(ran, results) && Fires(w, ran[0]) && w' == Last(ran) && w'.active != []
    && var n := |ran| - 1;
    n == |results| || (results[n].SetValues? && !Sendable(w'.queues, results[n].values))
  }

  function EndOf(w: World, run: seq<Pass>): World {
    if run == [] then w else run[|run| - 1].end
  }

  function RestOf(run: seq<Pass>): seq<Task> {
    if run == [] then [] else run[|run| - 1].rest
  }

  /** Passes one after the other; what a pass leaves in the inbox comes before what arrives during the next one. */
  ghost predicate Passes(rounds: seq<Round>, w: World, run: seq<Pass>) {
    && |run| <= |rounds|
    && forall i | 0 <= i < |run| ::
         && Passed(rounds[i].results, run[i])
         && run[i].start == EndOf(w, run[..i]) && run[i].inbox == RestOf(run[..i]) + rounds[i].arrived
  }

  /** All rounds are done, or the first one that is not could not go on. */
  ghost predicate Loops(rounds: seq<Round>, w: World, run: seq<Pass>, w': World, rest: seq<Task>) {
    && Passes(rounds, w, run)
    && if |run| == |rounds| then w' == EndOf(w, run) && rest == RestOf(run)
       else
         && rest == RestOf(run) + rounds[|run|].arrived
         && exists ran :: Stuck(EndOf(w, run), rounds[|run|].results, ran, w')
  }

  lemma NoPasses(rounds: seq<Round>, w: World)
    ensures Passes(rounds, w, []) && EndOf(w, []) == w && RestOf([]) == []
  {}

  lemma PassesMore(rounds: seq<Round>, w: World, run: seq<Pass>, p: Pass)
    requires Passes(rounds, w, run) && |run| < |rounds| && Passed(rounds[|run|].results, p)
    requires p.start == EndOf(w, run) && p.inbox == RestOf(run) + rounds[|run|].arrived
    ensures Passes(rounds, w, run + [p]) && EndOf(w, run + [p]) == p.end && RestOf(run + [p]) == p.rest
  {
    hide Passed, EndOf, RestOf;
    var run' := run + [p];
    forall i | 0 <= i < |run'|
      ensures Passed(rounds[i].results, run'[i])
      ensures run'[i].start == EndOf(w, run'[..i]) && run'[i].inbox == RestOf(run'[..i]) + rounds[i].arrived
    {
      assert run'[..i] == run[..i];
      if i < |run| { assert run'[i] == run[i]; } else { assert run[..i] == run; }
    }
    assert EndOf(w, run') == p.end && RestOf(run') == p.rest by { LastPass(w, run, p); }
  }

  lemma LastPass(w: World, run: seq<Pass>, p: Pass)
    ensures EndOf(w, run + [p]) == p.end && RestOf(run + [p]) == p.rest
  {}

  lemma RanMore(ws: seq<World>, results: seq<RunResult>, w: World)
    requires Ran(ws, results) && |ws| <= |results| && Stopped(Last(ws), results[|ws| - 1], w)
    ensures Ran(ws + [w], results) && Last(ws + [w]) == w
  {
    hide Stopped;
    var ws' := ws + [w];
    forall i | 0 <= i < |ws'| - 1 ensures Stopped(ws'[i], results[i], ws'[i + 1]) {
      if i < |ws| - 1 { assert ws'[i] == ws[i] && ws'[i + 1] == ws[i + 1]; }
    }
  }
}
