/** The virtual-time runtime: many tasks, one step at a time, the earliest first. */
module VirtualRuntime {
  import opened Wrappers
  import opened VirtualTasks
  import opened VirtualPrograms

  datatype Printed = Printed(id: nat, time: nat, line: Line)

  /** What one task has written. */
  function OutputOf(out: seq<Printed>, id: nat): Output {
    if out == [] then [] else
      var rest, last := OutputOf(out[..|out| - 1], id), out[|out| - 1];
      if last.id == id then rest + [(last.time, last.line)] else rest
  }

  /** When a task is due. */
  datatype Due = Due(time: nat, id: nat)

  /** How a task began, and how many steps it has made. */
  datatype Life = Life(start: Progress, steps: nat)

  /** A task is where it would be if it had run alone. */
  ghost predicate Alone(life: Life, id: nat, tasks: map<nat, Task>, pending: seq<Due>, out: seq<Printed>) {
    match Solo(life.start, life.steps)
    case Running(task, time, written) =>
      id in tasks && tasks[id] == task && Due(time, id) in pending && OutputOf(out, id) == written
    case Finished(_, written) => id !in tasks && OutputOf(out, id) == written
    case Panicked => false
  }

  /** A task that never panics when it runs alone. */
  ghost predicate Sane(p: Progress) {
    forall k: nat :: Solo(p, k) != Panicked
  }

  /** A task only steps while it runs. */
  ghost predicate Lively(life: Life) {
    life.steps > 0 ==> Solo(life.start, life.steps - 1).Running?
  }

  predicate DistinctIds(pending: seq<Due>) {
    forall i, j | 0 <= i < j < |pending| :: pending[i].id != pending[j].id
  }

  predicate Earliest(pending: seq<Due>, k: nat) {
    k < |pending| && forall j | 0 <= j < |pending| :: pending[k].time <= pending[j].time
  }

  function Removed(pending: seq<Due>, k: nat): seq<Due>
    requires k < |pending|
  {
    pending[..k] + pending[k + 1..]
  }

  lemma RemovedHas(pending: seq<Due>, k: nat, d: Due)
    requires k < |pending| && DistinctIds(pending)
    ensures DistinctIds(Removed(pending, k))
    ensures d in Removed(pending, k) <==> d in pending && d.id != pending[k].id
    ensures forall e | e in Removed(pending, k) :: e in pending && e.id != pending[k].id
  {
    var rest := Removed(pending, k);
    if d in pending && d.id != pending[k].id {
      var i :| 0 <= i < |pending| && pending[i] == d;
      assert rest[if i < k then i else i - 1] == d;
    }
    forall i | 0 <= i < |rest| ensures rest[i] in pending && rest[i].id != pending[k].id {
      assert rest[i] == pending[if i < k then i else i + 1];
    }
  }

  lemma OutputMore(out: seq<Printed>, p: Printed, id: nat)
    ensures OutputOf(out + [p], id) == OutputOf(out, id) + if p.id == id then [(p.time, p.line)] else []
  {
    assert (out + [p])[..|out|] == out;
    assert OutputOf(out, id) + [] == OutputOf(out, id);
  }

  /** One more step of a life. */
  lemma OneMore(life: Life)
    ensures Solo(life.start, life.steps + 1) == Advance(Solo(life.start, life.steps))
  {
    hide Advance;
    SoloThen(life.start, life.steps, 1);
    assert Solo(Solo(life.start, life.steps), 1) == Solo(Advance(Solo(life.start, life.steps)), 0);
  }

  /** A step at position `k` writes at most one line, at its own time, and schedules nothing earlier. */
  ghost predicate Stepped(pending: seq<Due>, k: nat, out: seq<Printed>, pending': seq<Due>, out': seq<Printed>)
    requires k < |pending|
  {
    && out <= out' && |out'| <= |out| + 1 && (|out'| > |out| ==> out'[|out|].time == pending[k].time)
    && forall i | 0 <= i < |pending'| :: pending'[i] in pending || pending'[i].time >= pending[k].time
  }

  /** Lines are in the order of their times, and nothing that is pending comes before them. */
  ghost predicate Ordered(lines: seq<Printed>, pending: seq<Due>) {
    && (forall i, j | 0 <= i < j < |lines| :: lines[i].time <= lines[j].time)
    && (forall i, j | 0 <= i < |lines| && 0 <= j < |pending| :: lines[i].time <= pending[j].time)
  }

  lemma StillOrdered(pending: seq<Due>, k: nat, out: seq<Printed>, pending': seq<Due>, out': seq<Printed>, from: nat)
    requires Earliest(pending, k) && from <= |out| && Ordered(out[from..], pending) && Stepped(pending, k, out, pending', out')
    ensures out <= out' && Ordered(out'[from..], pending')
  {
    var lines, lines' := out[from..], out'[from..];
    assert forall i | 0 <= i < |lines| :: lines'[i] == lines[i];
    forall j | 0 <= j < |pending'| ensures pending'[j].time >= pending[k].time {
      if pending'[j] in pending { var i :| 0 <= i < |pending| && pending[i] == pending'[j]; }
    }
  }

  // ---------- One step leaves the other tasks alone ----------

  lemma OthersStay(life: Life, id: nat, tasks: map<nat, Task>, pending: seq<Due>, out: seq<Printed>,
                   tasks': map<nat, Task>, pending': seq<Due>, out': seq<Printed>)
    requires Alone(life, id, tasks, pending, out)
    requires (id in tasks' <==> id in tasks) && (id in tasks ==> tasks'[id] == tasks[id])
    requires forall time :: Due(time, id) in pending ==> Due(time, id) in pending'
    requires OutputOf(out', id) == OutputOf(out, id)
    ensures Alone(life, id, tasks', pending', out')
  {
    hide Solo;
  }

  /** The entry of a task in the heap of pending operations carries the time it would have alone. */
  lemma DueNow(life: Life, tasks: map<nat, Task>, pending: seq<Due>, out: seq<Printed>, k: nat)
    requires k < |pending| && DistinctIds(pending) && pending[k].id in tasks && Alone(life, pending[k].id, tasks, pending, out)
    ensures Solo(life.start, life.steps) == Running(tasks[pending[k].id], pending[k].time, OutputOf(out, pending[k].id))
  {
    hide Solo;
    var id := pending[k].id;
    var p := Solo(life.start, life.steps);
    assert p.Running?;
    var i :| 0 <= i < |pending| && pending[i] == Due(p.time, id);
    assert i == k;
  }

  /** A task fails just when it panics alone at that step, and it was running until then. */
  lemma FailsAlone(life: Life, tasks: map<nat, Task>, pending: seq<Due>, out: seq<Printed>, k: nat)
    requires k < |pending| && DistinctIds(pending) && pending[k].id in tasks && Alone(life, pending[k].id, tasks, pending, out)
    ensures StepTask(tasks[pending[k].id]) == Failed <==> Solo(life.start, life.steps + 1) == Panicked
    ensures Lively(life.(steps := life.steps + 1))
  {
    hide Solo, StepTask;
    DueNow(life, tasks, pending, out, k);
    OneMore(life);
  }

  /** The step that a task makes is the one it would make alone. */
  lemma OwnStep(life: Life, id: nat, tasks: map<nat, Task>, pending: seq<Due>, out: seq<Printed>, k: nat,
                tasks': map<nat, Task>, pending': seq<Due>, out': seq<Printed>)
    requires k < |pending| && DistinctIds(pending) && id == pending[k].id && id in tasks && Alone(life, id, tasks, pending, out)
    requires match StepTask(tasks[id])
             case Ended => id !in tasks' && OutputOf(out', id) == OutputOf(out, id)
             case Went(task, delay, line) =>
               && id in tasks' && tasks'[id] == task && Due(pending[k].time + delay, id) in pending'
               && OutputOf(out', id) == OutputOf(out, id) + Written(pending[k].time, line)
             case Failed => false
    ensures Alone(life.(steps := life.steps + 1), id, tasks', pending', out')
  {
    hide Solo, StepTask;
    DueNow(life, tasks, pending, out, k);
    OneMore(life);
  }

  class Runtime {
    var tasks: map<nat, Task>
    var pending: seq<Due>
    var out: seq<Printed>
    var nextId: nat
    var clock: nat

    /** The lives of all tasks so far. */
    ghost var lives: map<nat, Life>

    ghost predicate Valid()
      reads this
    {
      && DistinctIds(pending) && (forall i | 0 <= i < |pending| :: pending[i].id in tasks)
      && (forall id | id in tasks :: id in lives)
      && (forall id | id in lives :: id < nextId && Lively(lives[id]) && Alone(lives[id], id, tasks, pending, out))
      && (forall i | 0 <= i < |out| :: out[i].id in lives)
    }

    constructor ()
      ensures Valid() && lives == map[] && out == []
    {
      tasks, pending, out, nextId, clock, lives := map[], [], [], 1, 0, map[];
    }

    /** A new task, due at `time`. */
    method Schedule(task: Task, time: nat) returns (id: nat)
      requires Valid()
      modifies this
      ensures Valid() && id !in old(lives) && lives == old(lives)[id := Life(Running(task, time, []), 0)] && out == old(out)
    {
      hide Alone;
      id := nextId;
      var tasks', pending' := tasks[id := task], pending + [Due(time, id)];
      ghost var life := Life(Running(task, time, []), 0);
      assert forall i | 0 <= i < |pending| :: pending[i].id != id;
      forall other | other in lives ensures Alone(lives[other], other, tasks', pending', out) {
        OthersStay(lives[other], other, tasks, pending, out, tasks', pending', out);
      }
      assert Alone(life, id, tasks', pending', out) by { Newborn(life, id, tasks', pending', out); }
      nextId := nextId + 1;
      lives := lives[id := life];
      tasks, pending := tasks', pending';
    }

    /** Runs the step that is due at position `k`. A task that panics takes the whole runtime down. */
    method ExecuteOne(k: nat) returns (panicked: bool)
      requires Valid() && k < |pending|
      modifies this
      ensures Valid() && clock == old(clock) && nextId == old(nextId)
      ensures panicked <==> PanicsNext(old(lives), old(pending)[k].id)
      ensures panicked ==> lives == old(lives) && pending == old(pending) && out == old(out)
      ensures !panicked ==> lives == OneStep(old(lives), old(pending)[k].id) && Stepped(old(pending), k, old(out), pending, out)
    {
      hide Alone, StepTask, Lively;
      var Due(time, id) := pending[k];
      FailsAlone(lives[id], tasks, pending, out, k);
      var rest := Removed(pending, k);
      var result := StepOne(tasks[id]);
      if result.Failed? {
        return true;
      }
      var tasks', pending', out' := tasks - {id}, rest, out;
      if result.Went? {
        if result.line.Some? {
          out' := out + [Printed(id, time, result.line.value)];
        }
        tasks' := tasks'[id := result.task];
        pending' := rest + [Due(time + result.delay, id)];
      }
      StepKept(lives, tasks, pending, out, k, tasks', pending', out');
      RemovedHas(pending, k, pending[k]);
      lives := OneStep(lives, id);
      tasks, pending, out := tasks', pending', out';
      panicked := false;
    }

    /** The operation that is due first; any of them if there are several. */
    method FindEarliest() returns (k: nat)
      requires pending != []
      ensures Earliest(pending, k)
    {
      k := 0;
      for i := 0 to |pending|
        invariant k < |pending| && forall j | 0 <= j < i :: pending[k].time <= pending[j].time
      {
        if pending[i].time < pending[k].time {
          k := i;
        }
      }
    }

    method PassTime()
      requires Valid()
      modifies `clock
      ensures Valid() && clock >= old(clock)
    {
      hide Lively, Alone;
      var passed: nat :| true;
      clock := clock + passed;
    }

    lemma PendingLives(k: nat)
      requires Valid() && k < |pending|
      ensures pending[k].id in lives && pending[k].id < nextId
    {
      hide Alone, Lively;
    }

    /**
     * Executes what is due, the earliest first, for at most `limit` steps; time may pass meanwhile. Lines come out in
     * the order of their times. `done` says that nothing that is left is due; a run that is not done has made all its
     * steps, or a task has panicked that panics alone. So enough steps for all tasks to end are enough to be done.
     */
    method Execute(limit: nat) returns (done: bool, panicked: Option<nat>)
      requires Valid()
      modifies this
      ensures Valid() && clock >= old(clock) && nextId == old(nextId) && SameStarts(old(lives), lives)
      ensures old(out) <= out && Ordered(out[|old(out)|..], pending)
      ensures done ==> NothingDue(pending, clock)
      ensures panicked.Some? ==> PanicsNext(lives, panicked.value)
      ensures done || panicked.Some? || StepsMade(lives, nextId) == StepsMade(old(lives), nextId) + limit
      ensures forall need :: Ends(old(lives), need) && limit > Needed(need, nextId) ==> done
    {
      hide Valid, Lively, Solo, Ordered, Stepped, PanicsNext, SameStarts, Ends;
      panicked := None;
      StartsSame(lives);
      assert out[|out|..] == [];
      OrderedNone(pending);
      for i := 0 to limit
        invariant Valid() && clock >= old(clock) && nextId == old(nextId) && SameStarts(old(lives), lives)
        invariant old(out) <= out && Ordered(out[|old(out)|..], pending)
        invariant StepsMade(lives, nextId) == StepsMade(old(lives), nextId) + i
      {
        hide StepsMade, Needed;
        PassTime();
        if pending == [] {
          return true, None;
        }
        var k := FindEarliest();
        if pending[k].time > clock {
          return true, None;
        }
        PendingLives(k);
        ghost var before, due, then_ := out, pending, lives;
        var failed := ExecuteOne(k);
        if failed {
          forall need | Ends(old(lives), need) ensures false { EndsNoPanic(old(lives), lives, need, pending[k].id); }
          return false, Some(pending[k].id);
        }
        StillOrdered(due, k, before, pending, out, |old(out)|);
        OneStepMore(old(lives), then_, due[k].id, nextId);
      }
      forall need | Ends(old(lives), need) ensures StepsMade(lives, nextId) <= Needed(need, nextId) {
        AllLively();
        StepsBounded(old(lives), lives, need, nextId);
      }
      done := false;
    }

    lemma AllLively()
      requires Valid()
      ensures forall id | id in lives :: Lively(lives[id])
    {
      hide Alone, Lively;
    }

    /** Takes the top values off, steps, and puts the stack together again. */
    static method StepOne(task: Task) returns (result: TaskResult)
      ensures result == StepTask(task)
    {
      var stack := task.stack;
      if stack == [] || !stack[|stack| - 1].State? {
        return Failed;
      }
      hide GlobalStep, StepTask, TopVars;
      var s, n := stack[|stack| - 1].state, LocalVars(stack[|stack| - 1].state);
      stack := stack[..|stack| - 1];
      ghost var rest := stack;
      Unfolded(task, s, rest);
      var taken, vars := TakeVars(stack, n);
      if !taken {
        return Failed;
      }
      stack := stack[..|stack| - n];
      assert rest == stack + rest[|rest| - n..];
      var (stepped, heap) := GlobalStep(s, vars, task.heap);
      match stepped
      case Done => result := Ended;
      case Sleep(ms, next) =>
        var whole := PutBack(stack, vars, rest);
        result := Went(Task(whole + [State(next)], heap), ms, None);
      case Write(line, next) =>
        var whole := PutBack(stack, vars, rest);
        result := Went(Task(whole + [State(next)], heap), 0, Some(line));
      case Next(entries) => result := Went(Task(stack + entries, heap), 0, None);
      case Return(value) =>
        if stack == [] || !stack[|stack| - 1].Retrn? {
          return Failed;
        }
        var next := stack[|stack| - 1].state;
        result := Went(Task(stack[..|stack| - 1] + [Val(value), State(next)], heap), 0, None);
      case Panic => result := Failed;
    }

    /** The top values, topmost first, if there are enough of them. */
    static method TakeVars(rest: seq<Entry>, n: nat) returns (ok: bool, vars: seq<Value>)
      ensures ok <==> n <= |rest| && AllVals(rest[|rest| - n..])
      ensures ok ==> |vars| == n && vars == TopVars(rest, n) && forall j | 0 <= j < n :: rest[|rest| - 1 - j] == Val(vars[j])
    {
      vars := [];
      var stack := rest;
      for i := 0 to n
        invariant i <= |rest| && stack == rest[..|rest| - i] && |vars| == i
        invariant forall j | 0 <= j < i :: rest[|rest| - 1 - j] == Val(vars[j])
      {
        if stack == [] || !stack[|stack| - 1].Val? {
          if i < |rest| && n <= |rest| { assert rest[|rest| - n..][n - 1 - i] == rest[|rest| - 1 - i]; }
          return false, [];
        }
        vars := vars + [stack[|stack| - 1].value];
        stack := stack[..|stack| - 1];
      }
      ghost var top := rest[|rest| - n..];
      forall j | 0 <= j < |top| ensures top[j].Val? {
        var i := n - 1 - j;
        assert top[j] == rest[|rest| - 1 - i] == Val(vars[i]);
      }
      ok := true;
    }

    /** Puts values back that were taken off the top. */
    static method PutBack(stack: seq<Entry>, vars: seq<Value>, ghost rest: seq<Entry>) returns (whole: seq<Entry>)
      requires |rest| == |stack| + |vars| && stack == rest[..|stack|]
      requires forall j | 0 <= j < |vars| :: rest[|rest| - 1 - j] == Val(vars[j])
      ensures whole == rest
    {
      whole := stack;
      var n := |vars|;
      while n > 0
        invariant 0 <= n <= |vars| && whole == rest[..|rest| - n]
      {
        n := n - 1;
        whole := whole + [Val(vars[n])];
      }
    }
  }

  lemma Unfolded(task: Task, s: VirtualTasks.State, rest: seq<Entry>)
    requires task.stack != [] && task.stack[|task.stack| - 1] == State(s) && rest == task.stack[..|task.stack| - 1]
    ensures var n := LocalVars(s);
            StepTask(task) ==
            if n > |rest| || !AllVals(rest[|rest| - n..]) then Failed
            else
              var (result, heap) := GlobalStep(s, TopVars(rest, n), task.heap);
              Applied(rest[..|rest| - n], rest[|rest| - n..], result, heap)
  {
    hide GlobalStep, TopVars;
    var n := LocalVars(s);
    if n <= |rest| { assert rest == rest[..|rest| - n] + rest[|rest| - n..]; }
  }

  lemma Newborn(life: Life, id: nat, tasks: map<nat, Task>, pending: seq<Due>, out: seq<Printed>)
    requires life.start.Running? && life.steps == 0 && life.start.out == []
    requires id in tasks && tasks[id] == life.start.task && Due(life.start.time, id) in pending
    requires forall i | 0 <= i < |out| :: out[i].id != id
    ensures Alone(life, id, tasks, pending, out)
  {
    NothingYet(out, id);
  }

  lemma {:induction false} NothingYet(out: seq<Printed>, id: nat)
    requires forall i | 0 <= i < |out| :: out[i].id != id
    ensures OutputOf(out, id) == []
  {
    if out != [] { NothingYet(out[..|out| - 1], id); }
  }

  /** One step of one task keeps every task where it would be alone. */
  lemma StepKept(lives: map<nat, Life>, tasks: map<nat, Task>, pending: seq<Due>, out: seq<Printed>, k: nat,
                 tasks': map<nat, Task>, pending': seq<Due>, out': seq<Printed>)
    requires DistinctIds(pending) && k < |pending| && pending[k].id in tasks && pending[k].id in lives
    requires forall id | id in lives :: Alone(lives[id], id, tasks, pending, out)
    requires StepTask(tasks[pending[k].id]) != Failed
    requires var Due(time, id) := pending[k];
             match StepTask(tasks[id])
             case Ended => tasks' == tasks - {id} && pending' == Removed(pending, k) && out' == out
             case Went(task, delay, line) =>
               && tasks' == tasks[id := task] && pending' == Removed(pending, k) + [Due(time + delay, id)]
               && out' == out + if line.Some? then [Printed(id, time, line.value)] else []
             case Failed => false
    ensures DistinctIds(pending')
    ensures forall i | 0 <= i < |pending'| :: pending'[i] in pending || pending'[i].id in tasks'
    ensures forall id | id in lives ::
              Alone(if id == pending[k].id then lives[id].(steps := lives[id].steps + 1) else lives[id], id, tasks', pending', out')
  {
    hide Alone, StepTask, OutputOf;
    var Due(time, id) := pending[k];
    RemovedHas(pending, k, pending[k]);
    forall other | other in lives
      ensures Alone(if other == id then lives[other].(steps := lives[other].steps + 1) else lives[other], other, tasks', pending', out')
    {
      OutputAfter(out, out', time, id, StepTask(tasks[id]), other);
      if other == id {
        OwnStep(lives[id], id, tasks, pending, out, k, tasks', pending', out');
      } else {
        forall t | Due(t, other) in pending ensures Due(t, other) in pending' { RemovedHas(pending, k, Due(t, other)); }
        OthersStay(lives[other], other, tasks, pending, out, tasks', pending', out');
      }
    }
  }

  lemma OutputAfter(out: seq<Printed>, out': seq<Printed>, time: nat, id: nat, result: TaskResult, other: nat)
    requires match result
             case Went(_, _, line) => out' == out + if line.Some? then [Printed(id, time, line.value)] else []
             case _ => out' == out
    ensures OutputOf(out', other)
         == OutputOf(out, other) + if result.Went? && other == id then Written(time, result.line) else []
  {
    assert OutputOf(out, other) + [] == OutputOf(out, other) && out + [] == out;
    if result.Went? && result.line.Some? { OutputMore(out, Printed(id, time, result.line.value), other); }
  }

  // ---------- Steps made and steps needed ----------

  function OneStep(lives: map<nat, Life>, id: nat): map<nat, Life>
    requires id in lives
  {
    lives[id := lives[id].(steps := lives[id].steps + 1)]
  }

  ghost predicate PanicsNext(lives: map<nat, Life>, id: nat) {
    id in lives && Solo(lives[id].start, lives[id].steps + 1) == Panicked
  }

  /** The same tasks, none of them further back. */
  predicate SameStarts(lives: map<nat, Life>, lives': map<nat, Life>) {
    && lives'.Keys == lives.Keys
    && forall id | id in lives :: lives'[id].start == lives[id].start && lives'[id].steps >= lives[id].steps
  }

  /** The steps of all tasks with ids below `n`. */
  function StepsMade(lives: map<nat, Life>, n: nat): nat {
    if n == 0 then 0 else StepsMade(lives, n - 1) + if n - 1 in lives then lives[n - 1].steps else 0
  }

  function Needed(need: map<nat, nat>, n: nat): nat {
    if n == 0 then 0 else Needed(need, n - 1) + if n - 1 in need then need[n - 1] else 0
  }

  /** Every task ends when it runs alone, within the given number of steps. */
  ghost predicate Ends(lives: map<nat, Life>, need: map<nat, nat>) {
    forall id | id in lives :: id in need && Solo(lives[id].start, need[id]).Finished?
  }

  lemma StartsSame(lives: map<nat, Life>)
    ensures SameStarts(lives, lives)
  {}

  lemma OrderedNone(pending: seq<Due>)
    ensures Ordered([], pending)
  {}

  lemma OneStepMore(start: map<nat, Life>, lives: map<nat, Life>, id: nat, n: nat)
    requires SameStarts(start, lives) && id in lives && id < n
    ensures SameStarts(start, OneStep(lives, id)) && StepsMade(OneStep(lives, id), n) == StepsMade(lives, n) + 1
  {
    StepsGrow(lives, id, n);
  }

  lemma {:induction false} StepsGrow(lives: map<nat, Life>, id: nat, n: nat)
    requires id in lives
    ensures StepsMade(OneStep(lives, id), n) == StepsMade(lives, n) + if id < n then 1 else 0
  {
    if n > 0 { StepsGrow(lives, id, n - 1); }
  }

  /** A task that has ended does not step any more. */
  lemma {:induction false} StepsBounded(start: map<nat, Life>, lives: map<nat, Life>, need: map<nat, nat>, n: nat)
    requires SameStarts(start, lives) && Ends(start, need) && forall id | id in lives :: Lively(lives[id])
    ensures StepsMade(lives, n) <= Needed(need, n)
  {
    hide Lively, Solo;
    if n > 0 {
      StepsBounded(start, lives, need, n - 1);
      if n - 1 in lives { StepBounded(lives[n - 1], need[n - 1]); }
    }
  }

  lemma StepBounded(life: Life, need: nat)
    requires Lively(life) && Solo(life.start, need).Finished?
    ensures life.steps <= need
  {
    hide Solo;
    if life.steps > need {
      SoloThen(life.start, need, life.steps - 1 - need);
      SoloStays(Solo(life.start, need), life.steps - 1 - need);
      assert false;
    }
  }

  /** A task that ends does not panic. */
  lemma EndsNoPanic(start: map<nat, Life>, lives: map<nat, Life>, need: map<nat, nat>, id: nat)
    requires SameStarts(start, lives) && Ends(start, need)
    ensures !PanicsNext(lives, id)
  {
    hide Sane, Solo;
    if id in lives {
      assert Reaches(lives[id].start, Solo(lives[id].start, need[id]));
      EndingIsSane(lives[id].start, Solo(lives[id].start, need[id]));
      SaneAt(lives[id].start, lives[id].steps + 1);
    }
  }

  lemma SaneAt(p: Progress, k: nat)
    requires Sane(p)
    ensures Solo(p, k) != Panicked
  {}

  // ---------- Interleaving does not matter ----------

  function OutOf(p: Progress): Output {
    if p.Panicked? then [] else p.out
  }

  lemma {:induction false} OutGrows(p: Progress, k: nat)
    requires !Solo(p, k).Panicked?
    ensures OutOf(p) <= OutOf(Solo(p, k))
    decreases k
  {
    hide StepTask;
    if k > 0 {
      if Advance(p).Panicked? { SoloStays(Advance(p), k - 1); }
      OutGrows(Advance(p), k - 1);
    }
  }

  /** A task that ends when it runs alone never panics. */
  lemma EndingIsSane(p: Progress, end: Progress)
    requires Reaches(p, end) && end.Finished?
    ensures Sane(p)
  {
    hide Advance;
    var n: nat :| Solo(p, n) == end;
    forall k: nat ensures Solo(p, k) != Panicked {
      if k <= n {
        SoloThen(p, k, n - k);
        if Solo(p, k) == Panicked { SoloStays(Panicked, n - k); }
      } else {
        SoloThen(p, n, k - n);
        SoloStays(end, k - n);
      }
    }
  }

  /**
   * Whatever other tasks there are and however their steps interleave: what a task has written is the beginning of what
   * it writes alone, with the same times, and all of it once it is gone.
   */
  lemma PrintsAsAlone(life: Life, id: nat, tasks: map<nat, Task>, pending: seq<Due>, out: seq<Printed>, end: Progress)
    requires Alone(life, id, tasks, pending, out) && Reaches(life.start, end) && end.Finished?
    ensures OutputOf(out, id) <= end.out
    ensures id !in tasks ==> OutputOf(out, id) == end.out
  {
    hide Advance;
    var n: nat :| Solo(life.start, n) == end;
    var p := Solo(life.start, life.steps);
    if life.steps <= n {
      SoloThen(life.start, life.steps, n - life.steps);
      OutGrows(p, n - life.steps);
      if p.Finished? { SoloStays(p, n - life.steps); }
    } else {
      SoloThen(life.start, n, life.steps - n);
      SoloStays(end, life.steps - n);
    }
  }

  function TimeOf(p: Progress): nat {
    if p.Panicked? then 0 else p.time
  }

  lemma {:induction false} TimePasses(p: Progress, k: nat)
    requires !Solo(p, k).Panicked?
    ensures TimeOf(p) <= TimeOf(Solo(p, k))
    decreases k
  {
    hide StepTask;
    if k > 0 {
      if Advance(p).Panicked? { SoloStays(Advance(p), k - 1); }
      TimePasses(Advance(p), k - 1);
    }
  }

  /** Nothing that is left is due. */
  predicate NothingDue(pending: seq<Due>, clock: nat) {
    forall i | 0 <= i < |pending| :: pending[i].time > clock
  }

  /**
   * Once nothing is due and the clock has reached the time at which a task ends alone, the task is gone and has written
   * exactly what it writes alone, whatever other tasks there are and however their steps interleave.
   */
  lemma EndsAsAlone(life: Life, id: nat, tasks: map<nat, Task>, pending: seq<Due>, out: seq<Printed>, end: Progress, clock: nat)
    requires Alone(life, id, tasks, pending, out) && Reaches(life.start, end) && end.Finished?
    requires NothingDue(pending, clock) && end.time <= clock
    ensures id !in tasks && OutputOf(out, id) == end.out
  {
    hide Advance, OutputOf;
    PrintsAsAlone(life, id, tasks, pending, out, end);
    var n: nat :| Solo(life.start, n) == end;
    var p := Solo(life.start, life.steps);
    if life.steps <= n {
      SoloThen(life.start, life.steps, n - life.steps);
      TimePasses(p, n - life.steps);
      assert TimeOf(p) <= clock;
    } else {
      SoloThen(life.start, n, life.steps - n);
      SoloStays(end, life.steps - n);
    }
  }

  /**
   * The divisors task among any other tasks: it prints a beginning of its lines, and exactly its lines once the clock
   * has passed the last of them and nothing is due.
   */
  lemma DivisorsPrinted(n: nat, i: nat, t: nat, steps: nat, id: nat, tasks: map<nat, Task>, pending: seq<Due>,
                        out: seq<Printed>, clock: nat)
    requires Alone(Life(Running(Task([State(DivisorsBegin)], Divisors(n, i)), t, []), steps), id, tasks, pending, out)
    ensures OutputOf(out, id) <= DivisorLines(n, DivisorsDown(n, n), t)
    ensures NothingDue(pending, clock) && clock >= t + 10 * Sum(DivisorsDown(n, n)) ==>
              id !in tasks && OutputOf(out, id) == DivisorLines(n, DivisorsDown(n, n), t)
  {
    hide Alone, Reaches, DivisorLines, NothingDue;
    DivisorsProgram(n, i, t);
    var life := Life(Running(Task([State(DivisorsBegin)], Divisors(n, i)), t, []), steps);
    var end := Finished(t + 10 * Sum(DivisorsDown(n, n)), DivisorLines(n, DivisorsDown(n, n), t));
    PrintsAsAlone(life, id, tasks, pending, out, end);
    if NothingDue(pending, clock) && clock >= end.time { EndsAsAlone(life, id, tasks, pending, out, end, clock); }
  }

  /** The factorial task among any other tasks. */
  lemma FactorialPrinted(n: nat, heap: Heap, t: nat, steps: nat, id: nat, tasks: map<nat, Task>, pending: seq<Due>,
                         out: seq<Printed>, clock: nat)
    requires Alone(Life(Running(Task([Val(FactorialInput(n)), State(FactorialEntry)], heap), t, []), steps), id, tasks, pending, out)
    ensures OutputOf(out, id) <= CallLines(n, t) + [(t + 25 * n * (n + 1), FactorialIs(n, Fact(n)))]
    ensures NothingDue(pending, clock) && clock >= t + 25 * n * (n + 1) ==>
              id !in tasks && OutputOf(out, id) == CallLines(n, t) + [(t + 25 * n * (n + 1), FactorialIs(n, Fact(n)))]
  {
    hide Alone, Reaches, CallLines, NothingDue;
    FactorialProgram(n, heap, t);
    var life := Life(Running(Task([Val(FactorialInput(n)), State(FactorialEntry)], heap), t, []), steps);
    var time := t + 25 * n * (n + 1);
    var end := Finished(time, CallLines(n, t) + [(time, FactorialIs(n, Fact(n)))]);
    PrintsAsAlone(life, id, tasks, pending, out, end);
    if NothingDue(pending, clock) && clock >= time { EndsAsAlone(life, id, tasks, pending, out, end, clock); }
  }

  /** The Fibonacci task among any other tasks. */
  lemma FibonacciPrinted(heap: Heap, t: nat, steps: nat, id: nat, tasks: map<nat, Task>, pending: seq<Due>,
                         out: seq<Printed>, clock: nat)
    requires heap.Fibonacci? && heap.n > 1
    requires Alone(Life(Running(Task([State(FibonacciBegin)], heap), t, []), steps), id, tasks, pending, out)
    ensures OutputOf(out, id) <= FibLines(1, heap.n, t)
    ensures NothingDue(pending, clock) && clock >= FibEnd(1, heap.n, t) ==>
              id !in tasks && OutputOf(out, id) == FibLines(1, heap.n, t)
  {
    hide Alone, Reaches, FibLines, FibEnd, NothingDue;
    FibonacciProgram(heap, t);
    var life := Life(Running(Task([State(FibonacciBegin)], heap), t, []), steps);
    var end := Finished(FibEnd(1, heap.n, t), FibLines(1, heap.n, t));
    PrintsAsAlone(life, id, tasks, pending, out, end);
    if NothingDue(pending, clock) && clock >= end.time { EndsAsAlone(life, id, tasks, pending, out, end, clock); }
  }

  /** The delayed-message task among any other tasks: its text once, at the time it asked for, and not before. */
  lemma DelayedPrinted(text: Text, ms: nat, t: nat, steps: nat, id: nat, tasks: map<nat, Task>, pending: seq<Due>,
                       out: seq<Printed>, clock: nat)
    requires Alone(Life(Running(DelayedStart(text, ms), t, []), steps), id, tasks, pending, out)
    ensures OutputOf(out, id) <= [(t + ms, Delayed(text, ms))]
    ensures NothingDue(pending, clock) && clock >= t + ms ==>
              id !in tasks && OutputOf(out, id) == [(t + ms, Delayed(text, ms))]
  {
    hide Alone, Reaches, NothingDue;
    DelayedProgram(text, ms, t);
    var life := Life(Running(DelayedStart(text, ms), t, []), steps);
    var end := Finished(t + ms, [(t + ms, Delayed(text, ms))]);
    PrintsAsAlone(life, id, tasks, pending, out, end);
    if NothingDue(pending, clock) && clock >= end.time { EndsAsAlone(life, id, tasks, pending, out, end, clock); }
  }
}
