/** The fiber scheduler: one loop over queues, futures, timers, parked fibers and requests from outside. */
module Runtime {
  import opened Wrappers
  import opened WaitLists
  import opened WaitSpec
  import opened WaitRegistry
  import opened Scheduler
  import opened RuntimeSpec
  import opened RuntimeLaws

  class Runtime {
    const registry: Registry
    var clock: nat
    var active: seq<nat>
    var parked: set<nat>
    var nextFiber: nat
    var queues: Queues
    var nonEmpty: seq<Name>
    var resolved: seq<(nat, Resolution)>
    var scheduled: seq<Timer>
    var nextFuture: nat
    var pending: map<nat, nat>
    var tasks: seq<Task>

    /** What goes to the gateways and to the fibers. */
    var outbox: seq<(nat, Value)>
    var wakes: seq<Wake>

    /**
     * The waiters of the registry; the fiber that is out of every collection while it runs; the fibers that are done;
     * everything ever enqueued and received; requests accepted and answered, each with its future.
     */
    ghost var waiters: seq<Waiter>
    ghost var running: seq<nat>
    ghost var exited: set<nat>
    ghost var enqueued: Queues
    ghost var delivered: Queues
    ghost var accepted: seq<(nat, nat)>
    ghost var answered: seq<(nat, nat)>

    /** Timers that have fired, and everything that was ever resolved. */
    ghost var fired: seq<Timer>
    ghost var pushed: multiset<(nat, Resolution)>

    ghost predicate Valid()
      reads this, registry
    {
      && registry.Valid() && waiters == registry.View()
      && |running| <= 1 && FibersRight(running + active, parked, exited, nextFiber, waiters)
      && MessagesRight(queues, nonEmpty, enqueued, delivered, wakes)
      && AnswersRight(pending, nextFuture, accepted, answered, outbox)
      && TimersRight(scheduled, fired, clock, nextFuture)
      && ResolutionsRight(resolved, wakes, pushed) && ElapsedRight(pushed, fired)
    }

    ghost function View(): World
      reads this
    {
      World(clock, active, parked, exited, nextFiber, waiters, queues, nonEmpty, resolved, scheduled, fired, nextFuture, pending,
            tasks, outbox, wakes)
    }

    lemma ViewIs()
      ensures var w := View();
              && (w.clock, w.active, w.queues, w.nonEmpty) == (clock, active, queues, nonEmpty)
              && (w.resolved, w.scheduled, w.fired, w.nextFuture) == (resolved, scheduled, fired, nextFuture)
              && (w.waiters, w.pending, w.tasks, w.wakes) == (waiters, pending, tasks, wakes)
    {}

    ghost function History(): Past
      reads this
    {
      Past(fired, accepted, answered, outbox, exited, enqueued, pushed, wakes)
    }

    /** The root fiber is the first. */
    constructor ()
      ensures Valid() && fresh(registry) && active == [0] && queues == map[] && accepted == [] && wakes == []
    {
      hide FibersRight, MessagesRight, AnswersRight, TimersRight, ResolutionsRight, ElapsedRight, Consistent, DistinctIds, Waiters, Known;
      registry := new Registry();
      clock, active, parked, nextFiber := 0, [0], {}, 1;
      queues, nonEmpty, resolved, scheduled, nextFuture := map[], [], [], [], 0;
      pending, tasks, outbox, wakes := map[], [], [], [];
      waiters, running := [], [];
      exited, enqueued, delivered, accepted, answered, fired, pushed := {}, map[], map[], [], [], [], multiset{};
      new;
      assert running + active == [0];
      StartRight();
    }

    /** The clock never goes back. */
    method FromStart() returns (now: nat)
      requires Valid()
      modifies `clock
      ensures Valid() && now == clock >= old(clock) && View() == old(View()).(clock := clock)
    {
      hide FibersRight, MessagesRight, AnswersRight, TimersRight;
      var passed: nat :| true;
      ClockMoves(scheduled, fired, clock, nextFuture, clock + passed, nextFuture);
      clock := clock + passed;
      now := clock;
    }

    /** The timer that is due first; any of them if there are several. */
    method FindEarliest() returns (k: Option<nat>)
      ensures k.None? <==> scheduled == []
      ensures k.Some? ==> Earliest(scheduled, k.value)
    {
      if scheduled == [] {
        return None;
      }
      var best := 0;
      for i := 0 to |scheduled|
        invariant best < |scheduled| && forall j | 0 <= j < i :: scheduled[best].when <= scheduled[j].when
      {
        if scheduled[i].when < scheduled[best].when {
          best := i;
        }
      }
      k := Some(best);
    }

    /** A timer that is due resolves its future, before everything else that is resolved. */
    method FireTimer() returns (k: Option<nat>)
      requires Valid()
      modifies `clock, `scheduled, `resolved, `fired, `pushed
      ensures Later(old(History()), History())
      ensures Valid() && old(clock) <= clock
      ensures k.None? ==> fired == old(fired) && resolved == old(resolved) && scheduled == old(scheduled)
      ensures k.None? ==> forall j | 0 <= j < |scheduled| :: clock < scheduled[j].when
      ensures k.Some? ==> Earliest(old(scheduled), k.value) && old(scheduled)[k.value].when <= clock
      ensures k.Some? ==> fired == old(fired) + [old(scheduled)[k.value]] && scheduled == Removed(old(scheduled), k.value)
      ensures k.Some? ==> resolved == [(old(scheduled)[k.value].future, Elapsed)] + old(resolved)
      ensures Fires(old(View()), View())
    {
      hide Valid, Removed, Earliest;
      var now := FromStart();
      k := FindEarliest();
      if k.None? || now < scheduled[k.value].when {
        k := None;
      } else {
        Fire(k.value);
      }
    }

    method Fire(k: nat)
      requires Valid() && Earliest(scheduled, k) && scheduled[k].when <= clock
      modifies `scheduled, `resolved, `fired, `pushed
      ensures Later(old(History()), History())
      ensures Valid() && fired == old(fired) + [old(scheduled)[k]] && scheduled == Removed(old(scheduled), k)
      ensures resolved == [(old(scheduled)[k].future, Elapsed)] + old(resolved)
    {
      var timer := scheduled[k];
      hide FibersRight, MessagesRight, AnswersRight, TimersRight, ResolutionsRight, ElapsedRight, Consistent, Earliest, Removed, Later;
      TimerFires(scheduled, fired, clock, nextFuture, k);
      ResolvedFront(resolved, wakes, pushed, (timer.future, Elapsed));
      ElapsedFired(pushed, fired, timer);
      LaterFired(History(), timer);
      scheduled := Removed(scheduled, k);
      fired := fired + [timer];
      resolved := [(timer.future, Elapsed)] + resolved;
      pushed := pushed + multiset{(timer.future, Elapsed)};
    }

    // ---------- What a running fiber asks for ----------

    /** Puts a message at the end of a queue. */
    method SendMessage(q: Name, m: Message)
      requires Valid() && q in queues
      modifies `queues, `nonEmpty, `enqueued
      ensures Later(old(History()), History())
      ensures Valid() && queues == old(queues)[q := old(queues)[q] + [m]] && nonEmpty == Listed(old(queues), old(nonEmpty), q)
      ensures enqueued == old(enqueued)[q := old(enqueued)[q] + [m]] && View() == Put(old(View()), q, m)
    {
      hide FibersRight, AnswersRight, TimersRight, ResolutionsRight, ElapsedRight, Consistent, QueuesRight, ReceivedFrom, Later;
      assert queues.Keys == enqueued.Keys by { KeysOf(queues, nonEmpty, enqueued, delivered); }
      LaterSent(History(), q, m);
      MessageSent(queues, nonEmpty, enqueued, delivered, q, m);
      var wasEmpty := queues[q] == [];
      enqueued := enqueued[q := enqueued[q] + [m]];
      queues := queues[q := queues[q] + [m]];
      if wasEmpty {
        nonEmpty := nonEmpty + [q];
      }
    }

    /** A future gets its value: the answer to a request goes out, anything else waits for a fiber. */
    method ResolveFuture(future: nat, value: Value)
      requires Valid()
      modifies `pending, `outbox, `resolved, `answered, `pushed
      ensures Later(old(History()), History())
      ensures Valid()
      ensures future in old(pending) ==>
                pending == old(pending) - {future} && outbox == old(outbox) + [(old(pending)[future], value)] && resolved == old(resolved)
      ensures future !in old(pending) ==>
                pending == old(pending) && outbox == old(outbox) && resolved == old(resolved) + [(future, Set(value))]
    {
      hide FibersRight, MessagesRight, AnswersRight, TimersRight, ResolutionsRight, ElapsedRight, Consistent;
      if future in pending {
        var id := pending[future];
        AnswerSent(pending, nextFuture, accepted, answered, outbox, future, value);
        pending := pending - {future};
        outbox := outbox + [(id, value)];
        answered := answered + [(future, id)];
      } else {
        ResolvedFront(resolved, wakes, pushed, (future, Set(value)));
        ElapsedSet(pushed, fired, future, value);
        resolved := resolved + [(future, Set(value))];
        pushed := pushed + multiset{(future, Set(value))};
      }
    }

    ghost function Current(): Sent
      reads this
    {
      Sent(queues, nonEmpty, pending, outbox, resolved)
    }

    method ApplyOne(v: SetValue)
      requires Valid() && (v.QueueMessage? ==> v.queue in queues)
      modifies `queues, `nonEmpty, `enqueued, `pending, `outbox, `resolved, `answered, `pushed
      ensures Later(old(History()), History())
      ensures Valid() && Current() == SentOne(old(Current()), v) && queues.Keys == old(queues).Keys
    {
      hide Valid, Listed;
      match v
      case QueueMessage(q, value) => SendMessage(q, Internal(value));
      case FutureValue(future, value) => ResolveFuture(future, value);
    }

    /** Carries out the updates of a fiber one by one. */
    method ApplyAll(values: seq<SetValue>)
      requires Valid() && Sendable(queues, values)
      modifies `queues, `nonEmpty, `enqueued, `pending, `outbox, `resolved, `answered, `pushed
      ensures Later(old(History()), History())
      ensures Valid() && Current() == SentAll(old(Current()), values)
    {
      hide Valid, SentOne, Current, Later, History;
      LaterSelf(History());
      for i := 0 to |values|
        invariant Later(old(History()), History())
        invariant Valid() && queues.Keys == old(queues).Keys && Current() == SentAll(old(Current()), values[..i])
      {
        assert values[..i + 1][..i] == values[..i];
        ghost var h1 := History();
        ApplyOne(values[i]);
        LaterTwice(old(History()), h1, History());
      }
      assert values[..|values|] == values;
    }

    /** Which primitives cannot be created. */
    method Validate(ps: seq<Primitive>) returns (ok: bool, errors: seq<bool>)
      ensures (ok <==> Creatable(queues, ps)) && ErrorsFor(queues, ps, errors)
    {
      hide Creatable;
      ok, errors := true, [];
      var candidates: set<Name> := {};
      assert ps[..0] == [];
      assert Creatable(queues, ps[..0]) by { CreatableNone(queues); }
      for i := 0 to |ps|
        invariant |errors| == i && forall j | 0 <= j < i :: errors[j] <==> Offends(queues, ps, j)
        invariant ok <==> Creatable(queues, ps[..i])
        invariant forall q :: q in candidates || q in queues <==> q in queues || q in QueueNames(ps[..i])
      {
        CreatableMore(queues, ps[..i], ps[i]);
        assert ps[..i] + [ps[i]] == ps[..i + 1];
        hide QueueNames;
        if ps[i].NewQueue? {
          if ps[i].name in queues || ps[i].name in candidates {
            errors := errors + [true];
            ok := false;
          } else {
            errors := errors + [false];
            candidates := candidates + {ps[i].name};
          }
        } else {
          errors := errors + [false];
        }
      }
      assert ps[..|ps|] == ps;
    }

    /** Creates one primitive under a fresh id. */
    method CreateOne(p: Primitive) returns (id: Created)
      requires Valid() && (p.NewQueue? ==> p.name !in queues)
      modifies `clock, `queues, `enqueued, `delivered, `scheduled, `nextFuture
      ensures Later(old(History()), History())
      ensures Valid() && clock >= old(clock)
      ensures match p
              case NewQueue(q) =>
                && id == QueueName(q) && queues == old(queues)[q := []] && nextFuture == old(nextFuture)
                && scheduled == old(scheduled)
              case NewFuture =>
                && id == FutureId(old(nextFuture)) && queues == old(queues) && nextFuture == old(nextFuture) + 1
                && scheduled == old(scheduled)
              case NewTimer(ms) =>
                && id == FutureId(old(nextFuture)) && queues == old(queues) && nextFuture == old(nextFuture) + 1
                && scheduled == old(scheduled) + [Timer(clock + ms, old(nextFuture))]
    {
      hide Valid;
      match p
      case NewQueue(q) =>
        AddQueue(q);
        id := QueueName(q);
      case NewFuture =>
        id := FutureId(nextFuture);
        UseFuture();
      case NewTimer(ms) =>
        var now := FromStart();
        id := FutureId(nextFuture);
        AddTimer(now, ms);
    }

    method AddQueue(q: Name)
      requires Valid() && q !in queues
      modifies `queues, `enqueued, `delivered
      ensures Later(old(History()), History())
      ensures Valid() && queues == old(queues)[q := []]
    {
      hide FibersRight, AnswersRight, TimersRight, ResolutionsRight, ElapsedRight, Consistent, MessagesRight, Later;
      assert queues.Keys == enqueued.Keys by { SameQueues(queues, nonEmpty, enqueued, delivered, wakes); }
      LaterQueue(History(), q);
      NewQueueRight(queues, nonEmpty, enqueued, delivered, wakes, q);
      queues, enqueued, delivered := queues[q := []], enqueued[q := []], delivered[q := []];
    }

    method UseFuture()
      requires Valid()
      modifies `nextFuture
      ensures Valid() && nextFuture == old(nextFuture) + 1
    {
      hide FibersRight, MessagesRight, TimersRight, ResolutionsRight, ElapsedRight, Consistent, RequestsRight;
      ClockMoves(scheduled, fired, clock, nextFuture, clock, nextFuture + 1);
      MoreFutures(pending, nextFuture, accepted, answered);
      nextFuture := nextFuture + 1;
    }

    method AddTimer(now: nat, ms: nat)
      requires Valid() && now == clock
      modifies `nextFuture, `scheduled
      ensures Valid() && nextFuture == old(nextFuture) + 1 && scheduled == old(scheduled) + [Timer(now + ms, old(nextFuture))]
    {
      hide FibersRight, MessagesRight, TimersRight, ResolutionsRight, ElapsedRight, Consistent, RequestsRight;
      TimerAdded(scheduled, fired, clock, nextFuture, ms);
      MoreFutures(pending, nextFuture, accepted, answered);
      scheduled := scheduled + [Timer(now + ms, nextFuture)];
      nextFuture := nextFuture + 1;
    }

    /** Creates all primitives; futures get the next ids in order. */
    method CreateAll(ps: seq<Primitive>) returns (ids: seq<Created>)
      requires Valid() && Creatable(queues, ps)
      modifies `clock, `queues, `enqueued, `delivered, `scheduled, `nextFuture
      ensures Later(old(History()), History())
      ensures Valid() && clock >= old(clock)
      ensures ids == IdsFor(ps, old(nextFuture)) && nextFuture == old(nextFuture) + FutureCount(ps)
      ensures queues == WithQueues(old(queues), QueueNames(ps))
      ensures |old(scheduled)| <= |scheduled| && scheduled[..|old(scheduled)|] == old(scheduled)
      ensures TimersFor(ps, ids, old(clock), clock, scheduled[|old(scheduled)|..])
    {
      hide Valid, Creatable, QueueNames, Later, History, TimersFor;
      LaterSelf(History());
      ids := [];
      ghost var n := |scheduled|;
      assert scheduled[n..] == [] && TimersFor([], [], clock, clock, []) by { TimersNone(clock, clock); }
      CreatablePrefix(queues, ps, 0);
      assert ps[..0] == [];
      assert QueueNames(ps[..0]) == [] by { NoNames(); }
      for i := 0 to |ps|
        invariant Valid() && clock >= old(clock) && Later(old(History()), History())
        invariant ids == IdsFor(ps[..i], old(nextFuture)) && nextFuture == old(nextFuture) + FutureCount(ps[..i])
        invariant queues == WithQueues(old(queues), QueueNames(ps[..i]))
        invariant n <= |scheduled| && scheduled[..n] == old(scheduled)
        invariant TimersFor(ps[..i], ids, old(clock), clock, scheduled[n..])
      {
        assert ps[..i + 1] == ps[..i] + [ps[i]] && ps[..i + 1][..i] == ps[..i];
        CreatablePrefix(old(queues), ps, i + 1);
        CreatableMore(old(queues), ps[..i], ps[i]);
        WithQueuesMore(old(queues), QueueNames(ps[..i]), ps[i]);
        ghost var h1, clock1, scheduled1 := History(), clock, scheduled;
        var id := CreateOne(ps[i]);
        LaterTwice(old(History()), h1, History());
        ghost var more := scheduled[|scheduled1|..];
        assert scheduled == scheduled1 + more && scheduled[n..] == scheduled1[n..] + more;
        TimersMore(ps[..i], ids, old(clock), clock1, scheduled1[n..], ps[i], id, clock, more);
        ids := ids + [id];
      }
      assert ps[..|ps|] == ps;
    }

    // ---------- The loop ----------

    /**
     * The first active fiber has run and stopped with `result`. A fiber that creates is told the ids of what it created, or
     * which primitives stood in the way.
     */
    method RunFiber(result: RunResult) returns (ids: Option<seq<Created>>, errors: seq<bool>)
      requires Valid() && active != [] && running == []
      requires result.SetValues? ==> Sendable(queues, result.values)
      modifies this, registry
      ensures Later(old(History()), History())
      ensures Valid() && running == [] && Stopped(old(View()), result, View())
      ensures result.Create? ==> (ids.Some? <==> Creatable(old(queues), result.primitives))
      ensures result.Create? && ids.None? ==> ErrorsFor(old(queues), result.primitives, errors)
      ensures result.Create? && ids.Some? ==> ids.value == IdsFor(result.primitives, old(nextFuture))
    {
      ghost var w := View();
      assert w.queues == queues && w.nextFuture == nextFuture;
      hide Valid, Creatable, IdsFor, Sendable, Later, History, ErrorsFor, Stopped, View;
      LaterSelf(History());
      ids, errors := None, [];
      var fiber := StartFiber();
      match result
      case Done => StopDone(w, fiber);
      case Select(arms) => StopSelect(w, fiber, arms);
      case CreateFibers(n) => StopSpawn(w, fiber, n);
      case SetValues(values) => StopSet(w, fiber, values);
      case Create(ps) => ids, errors := StopCreate(w, fiber, ps);
    }

    /** The first active fiber of `w` is running and nothing else has happened. */
    ghost predicate Started(w: World, fiber: nat)
      reads this
    {
      w.active != [] && fiber == w.active[0] && running == [fiber] && View() == w.(active := w.active[1..])
    }

    method StopDone(ghost w: World, fiber: nat)
      requires Valid() && Started(w, fiber)
      modifies `running, `exited
      ensures Later(old(History()), History())
      ensures Valid() && running == [] && Stopped(w, Done, View())
    {
      hide Valid, Later, History;
      EndFiber();
    }

    method StopSelect(ghost w: World, fiber: nat, arms: seq<Arm>)
      requires Valid() && Started(w, fiber)
      modifies `running, `parked, `waiters, registry
      ensures History() == old(History())
      ensures Valid() && running == [] && Stopped(w, Select(arms), View())
    {
      hide Valid, History;
      ParkFiber(fiber, arms);
      assert waiters == w.waiters + [Waiter(waiters[|w.waiters|].id, fiber, arms)];
    }

    method StopSpawn(ghost w: World, fiber: nat, n: nat)
      requires Valid() && Started(w, fiber)
      modifies `active, `nextFiber, `running
      ensures History() == old(History())
      ensures Valid() && running == [] && Stopped(w, CreateFibers(n), View())
    {
      hide Valid, History, Fresh;
      SpawnFibers(n);
      ResumeFiber(fiber);
      assert active == w.active + Fresh(w.nextFiber, n);
    }

    method StopSet(ghost w: World, fiber: nat, values: seq<SetValue>)
      requires Valid() && Started(w, fiber) && Sendable(queues, values)
      modifies `queues, `nonEmpty, `enqueued, `pending, `outbox, `resolved, `answered, `pushed, `active, `running
      ensures Later(old(History()), History())
      ensures Valid() && running == [] && Stopped(w, SetValues(values), View())
    {
      hide Valid, Later, History, SentAll, Sendable;
      ApplyAll(values);
      ResumeFiber(fiber);
      assert active == w.active;
    }

    method StopCreate(ghost w: World, fiber: nat, ps: seq<Primitive>) returns (ids: Option<seq<Created>>, errors: seq<bool>)
      requires Valid() && Started(w, fiber)
      modifies `clock, `queues, `enqueued, `delivered, `scheduled, `nextFuture, `active, `running
      ensures Later(old(History()), History())
      ensures Valid() && running == [] && Stopped(w, Create(ps), View())
      ensures (ids.Some? <==> Creatable(w.queues, ps)) && ErrorsFor(w.queues, ps, errors)
      ensures ids.Some? ==> ids.value == IdsFor(ps, w.nextFuture)
    {
      hide Valid, Later, History, Creatable, IdsFor, WithQueues, QueueNames, ErrorsFor, Creates;
      ids, errors := TryCreate(ps);
      ghost var made := View();
      ResumeFiber(fiber);
      assert active == w.active && View() == made.(active := w.active);
      if ids.Some? { CreatesAnyway(w.(active := w.active[1..]), ps, made, w.active); }
      assert w == w.(active := w.active[1..]).(active := w.active);
    }

    /** Creates all primitives, or none of them. */
    method TryCreate(ps: seq<Primitive>) returns (ids: Option<seq<Created>>, errors: seq<bool>)
      requires Valid()
      modifies `clock, `queues, `enqueued, `delivered, `scheduled, `nextFuture
      ensures Valid() && clock >= old(clock) && Later(old(History()), History())
      ensures (ids.Some? <==> Creatable(old(queues), ps)) && ErrorsFor(old(queues), ps, errors)
      ensures ids.None? ==> queues == old(queues) && nextFuture == old(nextFuture)
      ensures ids.Some? ==> ids.value == IdsFor(ps, old(nextFuture)) && queues == WithQueues(old(queues), QueueNames(ps))
      ensures ids.None? ==> View() == old(View())
      ensures ids.Some? ==> Creates(old(View()), ps, View())
    {
      hide Valid, Creatable, IdsFor, WithQueues, QueueNames, Later, ErrorsFor, TimersFor, FutureCount;
      LaterSelf(History());
      ids := None;
      var ok;
      ok, errors := Validate(ps);
      if ok {
        var made := CreateAll(ps);
        ids := Some(made);
      }
    }

    method StartFiber() returns (fiber: nat)
      requires Valid() && active != [] && running == []
      modifies `active, `running
      ensures History() == old(History())
      ensures Valid() && Started(old(View()), fiber)
    {
      hide FibersRight, MessagesRight, AnswersRight, TimersRight, ResolutionsRight, ElapsedRight, Consistent;
      fiber := active[0];
      assert running + active == [fiber] + active[1..];
      running := [fiber];
      active := active[1..];
    }

    method ResumeFiber(fiber: nat)
      requires Valid() && running == [fiber]
      modifies `active, `running
      ensures History() == old(History())
      ensures Valid() && running == [] && active == [fiber] + old(active)
    {
      hide FibersRight, MessagesRight, AnswersRight, TimersRight, ResolutionsRight, ElapsedRight, Consistent;
      active := [fiber] + active;
      assert [] + active == active;
      running := [];
    }

    method EndFiber()
      requires Valid() && running != []
      modifies `running, `exited
      ensures Later(old(History()), History())
      ensures Valid() && running == [] && exited == old(exited) + {old(running)[0]}
    {
      hide FibersRight, MessagesRight, AnswersRight, TimersRight, ResolutionsRight, ElapsedRight, Consistent;
      FiberExits(running + active, parked, exited, nextFiber, waiters);
      assert (running + active)[1..] == [] + active;
      exited := exited + {running[0]};
      running := [];
    }

    method ParkFiber(fiber: nat, arms: seq<Arm>)
      requires Valid() && running == [fiber]
      modifies `running, `parked, `waiters, registry
      ensures History() == old(History())
      ensures Valid() && running == [] && parked == old(parked) + {fiber}
      ensures |waiters| == |old(waiters)| + 1 && waiters[..|old(waiters)|] == old(waiters)
      ensures waiters[|old(waiters)|].fiber == fiber && waiters[|old(waiters)|].arms == arms
    {
      hide FibersRight, MessagesRight, AnswersRight, TimersRight, ResolutionsRight, ElapsedRight, Consistent;
      var id := registry.RegisterSelect(fiber, arms);
      FiberParks(running + active, parked, exited, nextFiber, waiters, Waiter(id, fiber, arms));
      assert (running + active)[1..] == [] + active;
      waiters := waiters + [Waiter(id, fiber, arms)];
      parked := parked + {fiber};
      running := [];
    }

    /** New fibers get the next ids and go to the end. */
    method SpawnFibers(n: nat)
      requires Valid()
      modifies `active, `nextFiber
      ensures History() == old(History())
      ensures Valid() && active == old(active) + Fresh(old(nextFiber), n) && nextFiber == old(nextFiber) + n
    {
      hide FibersRight, MessagesRight, AnswersRight, TimersRight, ResolutionsRight, ElapsedRight, Consistent;
      FibersSpawn(running + active, parked, exited, nextFiber, waiters, n);
      Associates(running, active, Fresh(nextFiber, n));
      ghost var next0 := nextFiber;
      for i := 0 to n
        invariant active == old(active) + Fresh(next0, n)[..i] && nextFiber == next0 + i
      {
        assert Fresh(next0, n)[..i + 1] == Fresh(next0, n)[..i] + [next0 + i];
        active := active + [nextFiber];
        nextFiber := nextFiber + 1;
      }
      assert Fresh(next0, n)[..n] == Fresh(next0, n);
    }

    /** The oldest fiber that waits for a key goes on with what it got; it runs next. */
    method WakeFiber(key: Key, got: Got) returns (woken: bool)
      requires Valid() && running == []
      modifies `active, `parked, `waiters, `wakes, registry
      ensures registry.Valid() && waiters == registry.View() && FibersRight(active, parked, exited, nextFiber, waiters)
      ensures woken <==> Oldest(old(waiters), key).Some?
      ensures woken ==> View() == Handed(old(View()), key, got)
      ensures !woken ==> View() == old(View())
    {
      hide FibersRight, MessagesRight, AnswersRight, TimersRight, ResolutionsRight, ElapsedRight, Consistent, Oldest, Removed, FirstArm,
           Handed, View;
      assert [] + active == active;
      var outcome := registry.WakeOne(key);
      woken := outcome.Some?;
      if woken {
        HandTo(outcome.value, key, got);
      }
    }

    /** The fiber that the registry has just given up goes on. */
    method HandTo(o: Outcome, key: Key, got: Got)
      requires Oldest(waiters, key).Some? && o == Woken(waiters[Oldest(waiters, key).value], key)
      requires registry.Valid() && registry.View() == Removed(waiters, Oldest(waiters, key).value)
      requires FibersRight(active, parked, exited, nextFiber, waiters)
      modifies `active, `parked, `waiters, `wakes
      ensures registry.Valid() && waiters == registry.View() && FibersRight(active, parked, exited, nextFiber, waiters)
      ensures View() == Handed(old(View()), key, got)
    {
      hide FibersRight, Consistent, Oldest, Removed, FirstArm;
      ghost var p := Oldest(waiters, key).value;
      FiberWakes(active, parked, exited, nextFiber, waiters, p);
      waiters := Removed(waiters, p);
      parked := parked - {o.fiber};
      wakes := wakes + [Wake(o.fiber, o.bind, o.next, got)];
      active := [o.fiber] + active;
    }

    /** Hands the first resolution to the oldest fiber that waits for it; if there is none, it goes to the end. */
    method WakeFuture() returns (woken: bool)
      requires Valid() && running == []
      modifies `active, `parked, `waiters, `wakes, `resolved, registry
      ensures Later(old(History()), History())
      ensures Valid() && View() == HandsOver(old(View()))
      ensures woken <==> old(resolved) != [] && Oldest(old(waiters), Future(old(resolved)[0].0)).Some?
    {
      hide FibersRight, MessagesRight, AnswersRight, TimersRight, ResolutionsRight, ElapsedRight, Consistent, Oldest, Waiters, DistinctIds,
           Handed;
      woken := false;
      if resolved != [] {
        var (future, value) := resolved[0];
        ghost var w := View();
        woken := WakeFiber(Future(future), Resolved(future, value));
        assert [] + active == active;
        if woken {
          HandedShape(w, Future(future), Resolved(future, value));
          HandOver(resolved, w.wakes, wakes, pushed);
          NotReceived(queues, nonEmpty, enqueued, delivered, w.wakes, wakes);
          resolved := resolved[1..];
        } else {
          Rotates(resolved, wakes, pushed);
          resolved := resolved[1..] + [(future, value)];
        }
      }
    }

    /** Hands the first message of the first listed queue to the oldest fiber that waits for it. */
    method WakeQueue() returns (woken: bool)
      requires Valid() && running == []
      modifies `active, `parked, `waiters, `wakes, `queues, `nonEmpty, `delivered, registry
      ensures Later(old(History()), History())
      ensures Valid() && (woken <==> Awaited(old(View()))) && Serves(old(View()), View())
    {
      hide FibersRight, MessagesRight, AnswersRight, TimersRight, ResolutionsRight, ElapsedRight, Consistent, Oldest, Waiters, DistinctIds,
           Rotated, Handed, View, Later;
      ghost var w, h := View(), History();
      ViewIs();
      LaterSelf(h);
      if nonEmpty == [] {
        assert Rotated(nonEmpty) == nonEmpty by { RotatedNone(nonEmpty); }
        assert w == w.(nonEmpty := nonEmpty);
        return false;
      }
      var q := nonEmpty[0];
      Taken(queues, nonEmpty, enqueued, delivered, wakes);
      var message := queues[q][0];
      woken := WakeFiber(Queue(q), Received(q, message));
      ViewIs();
      if woken {
        HandedShape(w, Queue(q), Received(q, message));
        LaterWoken(h, wakes);
      }
      SettleQueue(woken, w.wakes);
    }

    /** After the oldest waiter of the first listed queue, if there was one, has got its first message. */
    method SettleQueue(woken: bool, ghost before: seq<Wake>)
      requires registry.Valid() && waiters == registry.View() && running == []
      requires FibersRight(active, parked, exited, nextFiber, waiters) && AnswersRight(pending, nextFuture, accepted, answered, outbox)
      requires TimersRight(scheduled, fired, clock, nextFuture) && ResolutionsRight(resolved, before, pushed)
      requires ElapsedRight(pushed, fired)
      requires MessagesRight(queues, nonEmpty, enqueued, delivered, before) && nonEmpty != []
      requires nonEmpty[0] in queues && queues[nonEmpty[0]] != []
      requires woken ==> |wakes| == |before| + 1 && wakes[..|before|] == before
      requires woken ==> wakes[|before|].got == Received(nonEmpty[0], queues[nonEmpty[0]][0])
      requires !woken ==> wakes == before
      modifies `queues, `nonEmpty, `delivered
      ensures Valid()
      ensures woken ==> queues == old(queues)[old(nonEmpty)[0] := old(queues)[old(nonEmpty)[0]][1..]]
      ensures woken ==> nonEmpty == old(nonEmpty)[1..] + if queues[old(nonEmpty)[0]] == [] then [] else [old(nonEmpty)[0]]
      ensures !woken ==> queues == old(queues) && nonEmpty == Rotated(old(nonEmpty))
      ensures View() == old(View()).(queues := queues, nonEmpty := nonEmpty)
    {
      hide FibersRight, MessagesRight, AnswersRight, TimersRight, ResolutionsRight, ElapsedRight, Consistent, Waiters, DistinctIds, Rotated;
      assert running + active == active;
      if woken {
        NotHanded(resolved, before, wakes, pushed);
        Dequeue(before);
      } else {
        Requeue();
      }
    }

    /** A queue that nobody waits for goes to the end of the list. */
    method Requeue()
      requires MessagesRight(queues, nonEmpty, enqueued, delivered, wakes) && nonEmpty != []
      modifies `nonEmpty
      ensures MessagesRight(queues, nonEmpty, enqueued, delivered, wakes)
      ensures nonEmpty == Rotated(old(nonEmpty))
    {
      hide MessagesRight;
      Skipped(queues, nonEmpty, enqueued, delivered, wakes);
      nonEmpty := nonEmpty[1..] + [nonEmpty[0]];
    }

    /** Takes the message off that the fiber woken last has got, and lists the queue again if it holds more. */
    method Dequeue(ghost before: seq<Wake>)
      requires MessagesRight(queues, nonEmpty, enqueued, delivered, before) && nonEmpty != []
      requires nonEmpty[0] in queues && queues[nonEmpty[0]] != []
      requires |wakes| == |before| + 1 && wakes[..|before|] == before
      requires wakes[|before|].got == Received(nonEmpty[0], queues[nonEmpty[0]][0])
      modifies `queues, `nonEmpty, `delivered
      ensures MessagesRight(queues, nonEmpty, enqueued, delivered, wakes)
      ensures queues == old(queues)[old(nonEmpty)[0] := old(queues)[old(nonEmpty)[0]][1..]]
      ensures nonEmpty == old(nonEmpty)[1..] + if queues[old(nonEmpty)[0]] == [] then [] else [old(nonEmpty)[0]]
    {
      hide MessagesRight;
      Taken(queues, nonEmpty, enqueued, delivered, before);
      TakeMessage(queues, nonEmpty, enqueued, delivered, before, wakes);
      var q := nonEmpty[0];
      var message, rest := queues[q][0], queues[q][1..];
      delivered := delivered[q := delivered[q] + [message]];
      queues := queues[q := rest];
      nonEmpty := nonEmpty[1..];
      if rest != [] {
        nonEmpty := nonEmpty + [q];
      }
    }

    /** A request from outside: it is accepted under a fresh future if its queue exists, and dropped if not. */
    method AcceptRequest(b: Blueprint)
      requires Valid()
      modifies `queues, `nonEmpty, `enqueued, `pending, `nextFuture, `accepted
      ensures Later(old(History()), History())
      ensures Valid() && queues.Keys == old(queues).Keys && View() == Requested(old(View()), b)
      ensures b.queue !in old(queues) ==> accepted == old(accepted)
      ensures b.queue in old(queues) ==>
                accepted == old(accepted) + [(old(nextFuture), b.id)] && old(nextFuture) !in old(pending)
    {
      ViewIs();
      hide Valid, Later, History, View, Put, Opened;
      LaterSelf(History());
      if b.queue in queues {
        var future := OpenRequest(b.id);
        ghost var h1 := History();
        SendMessage(b.queue, External(b.value, future));
        LaterTwice(old(History()), h1, History());
      }
    }

    method OpenRequest(id: nat) returns (future: nat)
      requires Valid()
      modifies `pending, `nextFuture, `accepted
      ensures Later(old(History()), History())
      ensures Valid() && future == old(nextFuture) && nextFuture == old(nextFuture) + 1 && future !in old(pending)
      ensures pending == old(pending)[future := id] && accepted == old(accepted) + [(future, id)]
      ensures View() == Opened(old(View()), id)
    {
      hide FibersRight, MessagesRight, TimersRight, ResolutionsRight, ElapsedRight, Consistent, RequestsRight, IdsOf, UidsOf;
      future := nextFuture;
      RequestAccepted(pending, nextFuture, accepted, answered, id);
      ClockMoves(scheduled, fired, clock, nextFuture, clock, nextFuture + 1);
      pending := pending[future := id];
      accepted := accepted + [(future, id)];
      nextFuture := nextFuture + 1;
    }

    method AcceptAll(bs: seq<Blueprint>)
      requires Valid()
      modifies `queues, `nonEmpty, `enqueued, `pending, `nextFuture, `accepted
      ensures Later(old(History()), History())
      ensures Valid() && queues.Keys == old(queues).Keys
      ensures UidsOf(accepted) == UidsOf(old(accepted)) + Accepted(bs, old(queues).Keys)
      ensures View() == RequestedAll(old(View()), bs)
    {
      hide Valid, Later, History, Requested, View;
      LaterSelf(History());
      for i := 0 to |bs|
        invariant Valid() && queues.Keys == old(queues).Keys && Later(old(History()), History())
        invariant UidsOf(accepted) == UidsOf(old(accepted)) + Accepted(bs[..i], old(queues).Keys)
        invariant View() == RequestedAll(old(View()), bs[..i])
      {
        assert bs[..i + 1][..i] == bs[..i];
        ghost var before, h1 := accepted, History();
        AcceptRequest(bs[i]);
        LaterTwice(old(History()), h1, History());
        if bs[i].queue in old(queues) { assert UidsOf(accepted) == UidsOf(before) + [bs[i].id]; }
      }
      assert bs[..|bs|] == bs;
    }

    /** Since `w`, the batches `due` have been taken in, and all of them were due. */
    ghost predicate TookIn(w: World, uids: seq<nat>, due: seq<Task>)
      reads this, registry
    {
      && Valid() && w.clock <= clock && queues.Keys == w.queues.Keys
      && View() == TakenIn(w, due).(clock := clock, tasks := tasks)
      && UidsOf(accepted) == uids + AcceptedTasks(due, w.queues.Keys)
      && forall i | 0 <= i < |due| :: due[i].0 <= clock
    }

    method LookAgain(ghost w: World, ghost uids: seq<nat>, ghost due: seq<Task>) returns (now: nat)
      requires TookIn(w, uids, due)
      modifies `clock
      ensures TookIn(w, uids, due) && now == clock && History() == old(History())
    {
      hide Valid, View, TakenIn, UidsOf, AcceptedTasks;
      now := FromStart();
    }

    method SetTasks(ts: seq<Task>, ghost w: World, ghost uids: seq<nat>, ghost due: seq<Task>)
      requires TookIn(w, uids, due)
      modifies `tasks
      ensures TookIn(w, uids, due) && tasks == ts && History() == old(History())
    {
      hide FibersRight, MessagesRight, AnswersRight, TimersRight, ResolutionsRight, ElapsedRight, Consistent, TakenIn, UidsOf, AcceptedTasks;
      tasks := ts;
    }

    /** Takes in one batch. */
    method TakeBatch(next: Task, ghost w: World, ghost uids: seq<nat>, ghost due: seq<Task>)
      requires TookIn(w, uids, due) && next.0 <= clock
      modifies `queues, `nonEmpty, `enqueued, `pending, `nextFuture, `accepted
      ensures Later(old(History()), History())
      ensures TookIn(w, uids, due + [next])
    {
      hide Valid, Later, History, View, TakenIn, RequestedAll, UidsOf, Accepted, AcceptedTasks;
      TakenMore(w, due, next, clock, tasks);
      AcceptedTask(due, next, w.queues.Keys);
      Associates(uids, AcceptedTasks(due, w.queues.Keys), Accepted(next.1, w.queues.Keys));
      AcceptAll(next.1);
    }

    /**
     * Takes in what has arrived up to the first batch that is not due when it is looked at. `rest` is what has not been
     * looked at.
     */
    method TakeTasks(arrived: seq<Task>) returns (rest: seq<Task>, ghost due: seq<Task>)
      requires Valid()
      modifies `clock, `tasks, `queues, `nonEmpty, `enqueued, `pending, `nextFuture, `accepted
      ensures Later(old(History()), History())
      ensures Valid() && Takes(old(View()), arrived, due, View(), rest)
      ensures UidsOf(accepted) == UidsOf(old(accepted)) + AcceptedTasks(due, old(queues).Keys)
    {
      hide Valid, UidsOf, Later, TakenIn, View, History, TookIn, Takes, AcceptedTasks;
      ghost var w, uids := View(), UidsOf(accepted);
      ViewIs();
      NothingTaken();
      LaterSelf(History());
      rest, due := arrived, [];
      assert w.tasks + arrived == due + (tasks + rest);
      while tasks != [] || rest != []
        invariant TookIn(w, uids, due) && Later(old(History()), History()) && w.tasks + arrived == due + (tasks + rest)
        decreases |tasks| + |rest|
      {
        ghost var h1 := History();
        FirstTask(due, tasks, rest);
        var now := LookAgain(w, uids, due);
        var next;
        if tasks != [] {
          next := tasks[0];
          if next.0 > now {
            assert (tasks + rest)[0] == next;
            break;
          }
          SetTasks(tasks[1..], w, uids, due);
        } else {
          next := rest[0];
          rest := rest[1..];
          if next.0 > now {
            SetTasks([next], w, uids, due);
            assert (tasks + rest)[0] == next;
            break;
          }
        }
        TakeBatch(next, w, uids, due);
        LaterTwice(old(History()), h1, History());
        due := due + [next];
      }
      TookInTakes(w, uids, arrived, due, rest);
    }

    lemma NothingTaken()
      requires Valid()
      ensures TookIn(View(), UidsOf(accepted), [])
    {
      hide Valid, UidsOf;
      assert UidsOf(accepted) + AcceptedTasks([], queues.Keys) == UidsOf(accepted);
    }

    lemma TookInTakes(w: World, uids: seq<nat>, arrived: seq<Task>, due: seq<Task>, rest: seq<Task>)
      requires TookIn(w, uids, due) && w.tasks + arrived == due + (tasks + rest)
      requires tasks + rest == [] || (tasks + rest)[0].0 > clock
      ensures Valid() && Takes(w, arrived, due, View(), rest) && UidsOf(accepted) == uids + AcceptedTasks(due, w.queues.Keys)
    {
      ViewIs();
      hide Valid, UidsOf, TakenIn, View;
    }

    /**
     * Rounds of the main loop. A round says how the fibers that run in it stop and what arrives from outside during it.
     * Every round is a pass through all phases; `run` holds the passes. The run ends early where a fiber sends to a queue
     * that does not exist, or where a round does not say how the next fiber stops. Whatever fibers do, everything stays
     * consistent.
     */
    method MainLoop(rounds: seq<Round>) returns (inbox: seq<Task>, ghost run: seq<Pass>)
      requires Valid() && running == []
      modifies this, registry
      ensures Loops(rounds, old(View()), run, View(), inbox)
      ensures TimersHonest(resolved, wakes, fired, clock)
      ensures Later(old(History()), History())
      ensures Valid() && running == [] && old(clock) <= clock
    {
      ViewIs();
      hide Valid, Later, History, View, Passed, Passes, EndOf, RestOf, Stuck;
      inbox, run := [], [];
      ghost var w, h := View(), History();
      LaterSelf(h);
      assert Passes(rounds, w, run) && EndOf(w, run) == w && RestOf(run) == [] by { NoPasses(rounds, w); }
      for i := 0 to |rounds|
        invariant Valid() && running == [] && Later(h, History()) && |run| == i
        invariant Passes(rounds, w, run) && EndOf(w, run) == View() && RestOf(run) == inbox
      {
        inbox := inbox + rounds[i].arrived;
        ghost var h1, w1 := History(), View();
        var finished;
        ghost var ran;
        finished, ran := RunRound(rounds[i].results);
        LaterTwice(h, h1, History());
        ViewIs();
        if !finished {
          LoopsClock(rounds, w, run, View(), inbox);
          Honest();
          return;
        }
        h1 := History();
        ghost var p;
        inbox, p := FinishRound(w1, rounds[i].results, ran, inbox);
        LaterTwice(h, h1, History());
        PassesMore(rounds, w, run, p);
        run := run + [p];
      }
      ViewIs();
      LoopsClock(rounds, w, run, View(), inbox);
      Honest();
    }

    /** The phases in which fibers run: a timer that is due fires, then all active fibers run. */
    method RunRound(results: seq<RunResult>) returns (finished: bool, ghost ran: seq<World>)
      requires Valid() && running == []
      modifies this, registry
      ensures Later(old(History()), History())
      ensures Valid() && running == []
      ensures Ran(ran, results) && Fires(old(View()), ran[0]) && Last(ran) == View()
      ensures finished ==> active == []
      ensures !finished ==> Stuck(old(View()), results, ran, View())
    {
      hide Valid, Later, History, View, Fires, Stopped;
      ghost var h := History();
      var _ := FireTimer();
      ghost var h1 := History();
      finished, ran := RunFibers(results);
      LaterTwice(h, h1, History());
      ViewIs();
    }

    /** The phases that wake fibers and take in requests. */
    method FinishRound(ghost start: World, ghost results: seq<RunResult>, ghost ran: seq<World>, inbox: seq<Task>)
      returns (rest: seq<Task>, ghost p: Pass)
      requires Valid() && running == [] && active == []
      requires Ran(ran, results) && Fires(start, ran[0]) && Last(ran) == View()
      modifies this, registry
      ensures Later(old(History()), History())
      ensures Valid() && running == []
      ensures Passed(results, p) && p.start == start && p.inbox == inbox && p.end == View() && p.rest == rest
    {
      ViewIs();
      hide Valid, Later, History, View, Fires, Stopped, HandsOver, Serves, Takes, Awaited;
      ghost var h := History();
      var _ := WakeFuture();
      ghost var handed, h1 := View(), History();
      var woken := WakeQueue();
      ghost var served, h2 := View(), History();
      LaterTwice(h, h1, h2);
      ghost var due := [];
      rest := inbox;
      if !woken {
        rest, due := TakeTasks(inbox);
        LaterTwice(h, h2, History());
      }
      p := Pass(start, ran, handed, served, View(), inbox, due, rest);
    }

    lemma Honest()
      requires Valid()
      ensures TimersHonest(resolved, wakes, fired, clock)
    {
      hide FibersRight, MessagesRight, AnswersRight, TimersRight, ResolutionsRight, ElapsedRight, Consistent, TimersHonest;
      TimersAreHonest(resolved, wakes, pushed, scheduled, fired, clock, nextFuture);
    }

    /** Runs fibers until none is active; `ran` holds the states on the way. */
    method RunFibers(results: seq<RunResult>) returns (finished: bool, ghost ran: seq<World>)
      requires Valid() && running == []
      modifies this, registry
      ensures Later(old(History()), History())
      ensures Valid() && running == []
      ensures Ran(ran, results) && ran[0] == old(View()) && Last(ran) == View()
      ensures finished ==> active == []
      ensures !finished ==>
                var n := |ran| - 1;
                active != [] && (n == |results| || (results[n].SetValues? && !Sendable(queues, results[n].values)))
    {
      hide Valid, Later, History, Stopped, View, Sendable;
      LaterSelf(History());
      var i := 0;
      ran := [View()];
      while active != []
        invariant Valid() && running == [] && i <= |results|
        invariant Later(old(History()), History())
        invariant Ran(ran, results) && |ran| == i + 1 && ran[0] == old(View()) && Last(ran) == View()
        decreases |results| - i
      {
        if i == |results| || (results[i].SetValues? && !Sendable(queues, results[i].values)) {
          return false, ran;
        }
        ghost var h1 := History();
        var _, _ := RunFiber(results[i]);
        LaterTwice(old(History()), h1, History());
        RanMore(ran, results, View());
        ran := ran + [View()];
        i := i + 1;
      }
      finished := true;
    }
  }
}
