/** The fiber as an object: a stack that its own loop and its runtime change in place. */
module RustFiber {
  import opened Wrappers
  import opened RustIr
  import opened RustLowering
  import opened RustSimulation
  import opened RustRefinement
  import opened RustRuns

  /** The events that leave the fiber's loop. */
  predicate Stops(ev: Event) {
    ev.Selects? || ev.Sets? || ev.Creates? || ev.Spawns? || ev.Finished?
  }

  datatype RunEnd = RunEnd(config: Config, printed: seq<Event>, stop: Option<Event>)

  /** The interpreter up to the first event that stops it, or for `limit` turns. */
  function RunUntil(ir: Ir, heap: Heap, c: Config, limit: nat): RunEnd
    requires Valid(ir, heap) && ValidConfig(ir, c) && !c.parked
    decreases limit
  {
    if limit == 0 then RunEnd(c, [], None)
    else
      PairedValid(ir, heap, c);
      Parks(ir, heap, c);
      var (c', ev) := Paired(ir, heap, c);
      if Stops(ev) then RunEnd(c', [], Some(ev))
      else
        var r := RunUntil(ir, heap, c', limit - 1);
        r.(printed := Visible(ev) + r.printed)
  }

  lemma Parks(ir: Ir, heap: Heap, c: Config)
    requires Valid(ir, heap) && ValidConfig(ir, c) && !c.parked
    ensures var (c', ev) := Paired(ir, heap, c);
            (c'.parked <==> ev.Selects? || ev.Creates?) && (ev.Finished? ==> c'.frames == [])
  {
    hide Valid, ValidConfig, ReturnsDirectly, CallEnv, BindAll;
    if AtDirectReturn(ir, c) {
      DirectPair(ir, heap, c);
      DirectReturn(ir, heap, c);
    }
  }

  /** What is printed on the way is all that is printed, and nothing else happens on the way. */
  lemma {:induction false} RunPrints(ir: Ir, heap: Heap, c: Config, limit: nat)
    requires Valid(ir, heap) && ValidConfig(ir, c) && !c.parked
    ensures var r := RunUntil(ir, heap, c, limit);
            && (forall i | 0 <= i < |r.printed| :: r.printed[i].Printed? || r.printed[i].PrintedVars?)
            && (r.stop.Some? ==> !r.stop.value.Silent? && !r.stop.value.Printed? && !r.stop.value.PrintedVars?)
    decreases limit
  {
    hide Valid, ValidConfig, Paired;
    if limit > 0 {
      PairedValid(ir, heap, c);
      Parks(ir, heap, c);
      var (c', ev) := Paired(ir, heap, c);
      if !Stops(ev) { RunPrints(ir, heap, c', limit - 1); }
    }
  }

  class Fiber {
    const ir: Ir
    const heap: Heap
    var stack: seq<Entry>
    ghost var config: Config

    /** The stack holds whole frames: it is the stack of some configuration of the interpreter. */
    ghost predicate Whole()
      reads this
    {
      Valid(ir, heap) && ValidConfig(ir, config) && Aligned(ir, config) && stack == StackOf(ir, config)
    }

    constructor (ir: Ir, heap: Heap, ref: FuncRef, args: seq<Value>, placeholder: Value)
      requires Valid(ir, heap) && ref in ir && |args| == |ir[ref].params|
      ensures Whole() && this.ir == ir && this.heap == heap && config == Start(ir, ref, args, placeholder)
    {
      this.ir, this.heap := ir, heap;
      stack := Prepare(ir[ref], ref, args, placeholder);
      config := Start(ir, ref, args, placeholder);
      PrepareIsStart(ir, heap, ref, args, placeholder);
    }

    /** Assigns the topmost value with the given name. */
    method AssignLocal(name: string, value: Value)
      requires FindLast(stack, name).Some?
      modifies this`stack
      ensures stack == old(stack)[FindLast(old(stack), name).value := Val(name, value)]
    {
      var i := |stack| - 1;
      while !(stack[i].Val? && stack[i].name == name)
        invariant FindLast(stack, name).value <= i < |stack| && stack == old(stack)
        invariant forall j | i < j < |stack| :: !(stack[j].Val? && stack[j].name == name)
        decreases i
      {
        i := i - 1;
      }
      stack := stack[i := Val(name, value)];
    }

    /** Wakes a waiting fiber: binds some of its variables and pushes its next step. */
    method Answer(ref: FuncRef, binds: seq<(string, Value)>, next: string)
      requires Whole() && CanResume(ir, config, binds, next) && ref == Top(config).func
      modifies this
      ensures Whole() && config == Resume(old(config), binds, next)
    {
      ResumeValid(ir, heap, config, binds, next);
      for k := 0 to |binds|
        invariant config == old(config) && AssignLocals(stack, binds[k..]) == AssignLocals(old(stack), binds)
      {
        hide Whole, FindLast;
        assert binds[k..][0] == binds[k] && binds[k..][1..] == binds[k + 1..];
        AssignLocal(binds[k].0, binds[k].1);
      }
      stack := stack + [State(ref, next)];
      config := Resume(config, binds, next);
    }

    /** Overwrites the value at `i`, keeping its label. */
    method Overwrite(i: nat, value: Value, label_: string)
      requires i < |stack|
      modifies this`stack
      ensures stack == SetSlot(old(stack), i, value, label_)
    {
      var name := if stack[i].Val? then stack[i].name else label_;
      stack := stack[i := Val(name, value)];
    }

    /** Applies the entries of a step: assignments into the frame, everything else on top. */
    method Apply(start: nat, entries: seq<Entry>)
      requires Push(stack, start, entries).Some?
      modifies this`stack
      ensures Push(old(stack), start, entries) == Some(stack)
    {
      for k := 0 to |entries|
        invariant Push(stack, start, entries[k..]) == Push(old(stack), start, entries)
      {
        assert entries[k..][0] == entries[k] && entries[k..][1..] == entries[k + 1..];
        if entries[k].FrameAssign? {
          var updates := entries[k].updates;
          ghost var before := stack;
          for u := 0 to |updates|
            invariant AssignSlots(stack, start, updates[u..]) == AssignSlots(before, start, updates)
          {
            assert updates[u..][0] == updates[u] && updates[u..][1..] == updates[u + 1..];
            Overwrite(start + updates[u].0, updates[u].1, "_");
          }
        } else {
          stack := stack + [entries[k]];
        }
      }
    }

    /** Drops a frame with its return marker and binds its value. */
    method Unwind(start: nat, value: Option<Value>)
      requires start <= |stack| && PopFrame(stack[..start], value).Ran?
      modifies this`stack
      ensures Ran(stack, Silent) == PopFrame(old(stack)[..start], value)
    {
      stack := stack[..start];
      var mark := stack[|stack| - 1];
      stack := stack[..|stack| - 1];
      if value.Some? && mark.offset.Some? {
        Overwrite(|stack| - mark.offset.value, value.value, "ret");
      }
    }

    /** One turn of the loop. */
    method Execute() returns (event: Event)
      requires Turn(ir, heap, stack).Ran?
      modifies this`stack
      ensures Turn(ir, heap, old(stack)) == Ran(stack, event)
    {
      hide GlobalStep, Names, Push, PopFrame, Labelled;
      if stack == [] || !stack[|stack| - 1].State? {
        return Finished;
      }
      var State(ref, id) := stack[|stack| - 1];
      stack := stack[..|stack| - 1];
      var start := |stack| - |Names(ir[ref])|;
      event := Silent;
      match GlobalStep(ir, heap, ref, id, stack[start..])
      case Next(entries) => Apply(start, entries);
      case GoTo(step) => stack := stack + [State(ref, step)];
      case Returned(value) => Unwind(start, Some(value));
      case ReturnedVoid => Unwind(start, None);
      case Request(request) => event := request;
      case RequestThen(request, step) => event := request; stack := stack + [State(ref, step)];
      case PrintVars(step) => event := PrintedVars(Labelled(stack[start..])); stack := stack + [State(ref, step)];
      case Todo =>
    }

    /**
     * Runs until the fiber asks its runtime for something or is done, for at most `limit` turns. It does what the
     * interpreter does, prints what the interpreter prints and stops where and why the interpreter stops.
     */
    method Run(limit: nat) returns (printed: seq<Event>, stop: Option<Event>)
      requires Whole() && !config.parked
      modifies this
      ensures Whole() && RunUntil(ir, heap, old(config), limit) == RunEnd(config, printed, stop)
      ensures stop.Some? ==> (config.parked <==> stop.value.Selects? || stop.value.Creates?)
      ensures stop == Some(Finished) ==> config.frames == []
      ensures forall i | 0 <= i < |printed| :: printed[i].Printed? || printed[i].PrintedVars?
      ensures stop.Some? ==> !stop.value.Silent? && !stop.value.Printed? && !stop.value.PrintedVars?
    {
      hide Valid, ValidConfig, Aligned, StackOf, Paired, Turn;
      printed := [];
      ghost var c := config;
      for k := 0 to limit
        invariant Whole() && !config.parked
        invariant var r := RunUntil(ir, heap, config, limit - k);
                  RunUntil(ir, heap, old(config), limit) == r.(printed := printed + r.printed)
      {
        TurnRefinesStep(ir, heap, config);
        Parks(ir, heap, config);
        var event := Execute();
        config := Paired(ir, heap, config).0;
        if Stops(event) {
          RunPrints(ir, heap, c, limit);
          return printed, Some(event);
        }
        printed := printed + Visible(event);
      }
      RunPrints(ir, heap, c, limit);
      stop := None;
    }
  }

  /** The steps for which the generator emits no code: collected by one pass over the blocks. */
  method Suppressed(f: Func) returns (ids: set<string>)
    ensures forall id :: id in ids <==> Dropped(f, id)
  {
    ids := {};
    for i := 0 to |f.steps|
      invariant forall id :: id in ids <==> exists j | 0 <= j < i :: ReturnsDirectly(f, f.steps[j].1) && f.steps[j].1.next == id
    {
      var step := f.steps[i].1;
      if step.RustBlock? && |step.binds| == 1 {
        var k := 0;
        while k < |f.steps| && f.steps[k].0 != step.next
          invariant k <= |f.steps| && Find(f.steps, step.next) == Find(f.steps[k..], step.next)
        {
          assert f.steps[k..][1..] == f.steps[k + 1..];
          k := k + 1;
        }
        if k < |f.steps| && f.steps[k].1.Return? {
          var value := f.steps[k].1.value;
          if value.Var? && value.name == step.binds[0].name {
            ids := ids + {step.next};
          }
        }
      }
    }
  }
}
