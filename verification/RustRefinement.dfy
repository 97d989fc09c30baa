/** One turn of the flat stack machine is one step of the interpreter with named frames, kind of step by kind of step. */
module RustRefinement {
  import opened Wrappers
  import opened RustIr
  import opened RustLowering
  import opened RustSimulation

  function CurrentStep(ir: Ir, c: Config): Step
    requires ValidConfig(ir, c) && c.frames != []
  {
    Find(ir[Top(c).func].steps, Top(c).pc).value
  }

  predicate AtDirectReturn(ir: Ir, c: Config)
    requires ValidConfig(ir, c)
  {
    c.frames != [] && ReturnsDirectly(ir[Top(c).func], CurrentStep(ir, c))
  }

  // ---------- The interpreter keeps its frames whole ----------

  lemma WithTopValid(ir: Ir, c: Config, fr: Frame)
    requires ValidConfig(ir, c) && c.frames != [] && ValidFrame(ir, fr) && fr.bind == Top(c).bind && fr.func == Top(c).func
    ensures ValidConfig(ir, WithTop(c, fr))
  {
    hide ValidFrame;
  }

  lemma EndCallValid(ir: Ir, c: Config, value: Option<Value>)
    requires ValidConfig(ir, c) && c.frames != [] && !c.parked
    ensures ValidConfig(ir, EndCall(c, value))
  {
    hide NameSet;
    var k := |c.frames| - 1;
    if k > 0 {
      var caller, c' := c.frames[k - 1], EndCall(c, value);
      assert ValidFrame(ir, caller);
      if c.frames[k].bind.Some? { assert c'.frames[k - 1].env.Keys == caller.env.Keys; }
    }
  }

  function Called(c: Config, retTo: string, callee: Frame): Config
    requires c.frames != []
  {
    c.(frames := c.frames[..|c.frames| - 1] + [Top(c).(pc := retTo), callee])
  }

  lemma CalledValid(ir: Ir, c: Config, retTo: string, callee: Frame)
    requires ValidConfig(ir, c) && c.frames != [] && Find(ir[Top(c).func].steps, retTo).Some?
    requires ValidFrame(ir, callee) && (callee.bind.Some? ==> callee.bind.value in Top(c).env)
    ensures ValidConfig(ir, Called(c, retTo, callee))
  {
    hide ValidFrame;
    assert ValidFrame(ir, Top(c).(pc := retTo)) by { assert ValidFrame(ir, Top(c)); WholeFrame(ir, Top(c), retTo); }
  }

  lemma WholeFrame(ir: Ir, fr: Frame, pc: string)
    requires ValidFrame(ir, fr) && Find(ir[fr.func].steps, pc).Some?
    ensures ValidFrame(ir, fr.(pc := pc))
  {}

  lemma CalleeValid(ir: Ir, heap: Heap, target: FuncRef, values: seq<Value>, bind: Option<string>)
    requires Valid(ir, heap) && target in ir && |values| == |ir[target].params|
    ensures ValidFrame(ir, Frame(target, CallEnv(ir[target], values), ENTRY, bind))
  {
    hide CallEnv, NameSet;
    assert ValidFunc(ir, heap, target, ir[target]);
    FreshFrameIs(ir[target], values);
  }

  lemma InterpretValid(ir: Ir, heap: Heap, c: Config)
    requires Valid(ir, heap) && ValidConfig(ir, c) && !c.parked
    ensures ValidConfig(ir, Interpret(ir, heap, c).0)
  {
    hide NameSet, CallEnv, Names, Dropped, EndCall;
    if c.frames != [] {
      var fr, f, seen := Top(c), ir[Top(c).func], Seen(heap, Top(c));
      CurrentStepValid(ir, heap, fr);
      assert ValidFrame(ir, fr);
      match CurrentStep(ir, c)
      case Call(target, args, bind, retTo) =>
        CalleeValid(ir, heap, target, Evaluated(args, seen), bind);
        CalledValid(ir, c, retTo, Frame(target, CallEnv(ir[target], Evaluated(args, seen)), ENTRY, bind));
      case Return(value) => EndCallValid(ir, c, Some(if value.Var? then seen[value.name] else value.expr(seen)));
      case ReturnVoid => EndCallValid(ir, c, None);
      case RustBlock(binds, next) =>
        BindAllKeys(fr.env, binds, seen);
        WithTopValid(ir, c, fr.(env := BindAll(fr.env, binds, seen), pc := next));
      case Let(local, expr, next) =>
        LetKeys(f, fr.env, local, expr(seen));
        WithTopValid(ir, c, fr.(env := fr.env[local := expr(seen)], pc := next));
      case If(cond, then_, else_) => WithTopValid(ir, c, fr.(pc := if cond(seen) then then_ else else_));
      case SetValues(_, next) => WithTopValid(ir, c, fr.(pc := next));
      case CreateFibers(_, next) => WithTopValid(ir, c, fr.(pc := next));
      case Debug(_, next) => WithTopValid(ir, c, fr.(pc := next));
      case DebugPrintVars(next) => WithTopValid(ir, c, fr.(pc := next));
      case _ =>
    }
  }

  lemma {:induction false} BindAllKeys(env: Env, binds: seq<Bind>, seen: Env)
    requires forall i | 0 <= i < |binds| :: binds[i].name in env
    ensures BindAll(env, binds, seen).Keys == env.Keys
    decreases |binds|
  {
    if binds != [] {
      var env' := env[binds[0].name := binds[0].value(seen)];
      assert env'.Keys == env.Keys;
      BindAllKeys(env', binds[1..], seen);
    }
  }

  lemma LetKeys(f: Func, env: Env, name: string, value: Value)
    requires LetTarget(f, name) && env.Keys == NameSet(f)
    ensures name in NameSet(f) && env[name := value].Keys == NameSet(f)
  {
    if i :| 0 <= i < |f.locals| && f.locals[i].name == name {
      assert Names(f)[|f.params| + i] == name;
    } else {
      assert Names(f)[0] == name;
    }
  }

  // ---------- One turn on whole frames ----------

  /** What a turn makes of the result of a step, given the stack as the part below the frame and the frame. */
  function Applied(below: seq<Entry>, vals: seq<Entry>, ref: FuncRef, result: StepResult): Outcome {
    match result
    case Next(entries) =>
      (match Push(below + vals, |below|, entries) case None => Panicked case Some(s) => Ran(s, Silent))
    case GoTo(step) => Ran(below + vals + [State(ref, step)], Silent)
    case Returned(value) => PopFrame(below, Some(value))
    case ReturnedVoid => PopFrame(below, None)
    case Request(event) => Ran(below + vals, event)
    case RequestThen(event, step) => Ran(below + vals + [State(ref, step)], event)
    case PrintVars(step) => Ran(below + vals + [State(ref, step)], PrintedVars(Labelled(vals)))
    case Todo => Ran(below + vals, Silent)
    case Unreachable => Panicked
  }

  lemma TurnOnFrame(ir: Ir, heap: Heap, below: seq<Entry>, vals: seq<Entry>, ref: FuncRef, id: string)
    requires ref in ir && |vals| == |Names(ir[ref])|
    ensures Turn(ir, heap, below + vals + [State(ref, id)]) == Applied(below, vals, ref, GlobalStep(ir, heap, ref, id, vals))
  {
    hide GlobalStep, PopFrame, Push, Names, Labelled;
    var stack := below + vals + [State(ref, id)];
    assert stack[..|stack| - 1] == below + vals;
    assert (below + vals)[|below|..] == vals && (below + vals)[..|below|] == below;
  }

  lemma {:induction false} BelowSame(ir: Ir, c: Config, c': Config, k: nat)
    requires ValidConfig(ir, c) && ValidConfig(ir, c') && k < |c.frames| && k < |c'.frames| && c.result == c'.result
    requires c'.frames[..k] == c.frames[..k] && c'.frames[k].bind == c.frames[k].bind
    ensures Below(ir, c', k) == Below(ir, c, k)
  {
    hide ValidConfig, FrameVals, ReturnOffset;
    if k > 0 {
      assert c'.frames[k - 1] == c'.frames[..k][k - 1] == c.frames[..k][k - 1] == c.frames[k - 1];
      assert c'.frames[..k - 1] == c'.frames[..k][..k - 1] == c.frames[..k][..k - 1] == c.frames[..k - 1];
      BelowSame(ir, c, c', k - 1);
    }
  }

  /** The stack after a step inside the current frame. */
  lemma StackWithTop(ir: Ir, c: Config, fr: Frame)
    requires ValidConfig(ir, c) && c.frames != [] && !c.parked
    requires ValidFrame(ir, fr) && fr.bind == Top(c).bind && fr.func == Top(c).func
    ensures ValidConfig(ir, WithTop(c, fr))
    ensures StackOf(ir, WithTop(c, fr))
         == Below(ir, c, |c.frames| - 1) + FrameVals(ir, fr) + [State(fr.func, fr.pc)]
  {
    WithTopValid(ir, c, fr);
    hide ValidFrame, FrameVals, ValidConfig, Below;
    var k, c' := |c.frames| - 1, WithTop(c, fr);
    assert c'.frames[..k] == c.frames[..k] && Top(c') == fr;
    BelowSame(ir, c, c', k);
  }

  lemma StackParked(ir: Ir, c: Config)
    requires ValidConfig(ir, c) && c.frames != []
    ensures ValidConfig(ir, c.(parked := true))
    ensures StackOf(ir, c.(parked := true)) == Below(ir, c, |c.frames| - 1) + FrameVals(ir, Top(c))
  {
    hide ValidFrame, FrameVals;
    BelowSame(ir, c, c.(parked := true), |c.frames| - 1);
  }

  lemma StackCalled(ir: Ir, c: Config, retTo: string, callee: Frame)
    requires ValidConfig(ir, c) && c.frames != [] && !c.parked && Find(ir[Top(c).func].steps, retTo).Some?
    requires ValidFrame(ir, callee) && (callee.bind.Some? ==> callee.bind.value in Top(c).env)
    ensures ValidConfig(ir, Called(c, retTo, callee))
    ensures StackOf(ir, Called(c, retTo, callee))
         == Below(ir, c, |c.frames| - 1) + FrameVals(ir, Top(c))
            + [State(Top(c).func, retTo), Retrn(ReturnOffset(ir[Top(c).func], callee.bind))]
            + FrameVals(ir, callee) + [State(callee.func, callee.pc)]
  {
    CalledValid(ir, c, retTo, callee);
    hide ValidFrame, FrameVals, ValidConfig, ReturnOffset;
    var k, c' := |c.frames| - 1, Called(c, retTo, callee);
    assert c'.frames[..k] == c.frames[..k];
    BelowSame(ir, c, c', k);
    assert FrameVals(ir, c'.frames[k]) == FrameVals(ir, Top(c)) by { SameVals(ir, Top(c), retTo); }
  }

  lemma SameVals(ir: Ir, fr: Frame, pc: string)
    requires fr.func in ir && fr.env.Keys == NameSet(ir[fr.func])
    ensures FrameVals(ir, fr.(pc := pc)) == FrameVals(ir, fr)
  {}

  /** Returning drops exactly the frame of the call and changes only the variable that the result is bound to. */
  lemma StackEnded(ir: Ir, heap: Heap, c: Config, value: Option<Value>)
    requires Valid(ir, heap) && ValidConfig(ir, c) && c.frames != [] && !c.parked
    requires value.Some? ==> !ir[Top(c).func].void
    ensures ValidConfig(ir, EndCall(c, value))
    ensures PopFrame(Below(ir, c, |c.frames| - 1), value) == Ran(StackOf(ir, EndCall(c, value)), Silent)
  {
    EndCallValid(ir, c, value);
    if |c.frames| == 1 {
      hide FrameVals;
      var below := Below(ir, c, 0);
      assert below[..|below| - 1] == ResultSlot(c);
    } else {
      StackReturned(ir, heap, c, value);
    }
  }

  lemma StackReturned(ir: Ir, heap: Heap, c: Config, value: Option<Value>)
    requires Valid(ir, heap) && ValidConfig(ir, c) && |c.frames| > 1 && !c.parked && ValidConfig(ir, EndCall(c, value))
    ensures PopFrame(Below(ir, c, |c.frames| - 1), value) == Ran(StackOf(ir, EndCall(c, value)), Silent)
  {
    hide ValidConfig, FrameVals, SetSlot, PopFrame, ReturnOffset, EndCall, Below, StackOf;
    var k := |c.frames| - 1;
    var caller, bind := c.frames[k - 1], c.frames[k].bind;
    assert ValidFrame(ir, caller) && ValidFunc(ir, heap, caller.func, ir[caller.func]) by { CallerWhole(ir, heap, c, k); }
    var under, offset := Below(ir, c, k - 1), ReturnOffset(ir[caller.func], bind);
    var stack := under + FrameVals(ir, caller) + [State(caller.func, caller.pc)];
    StackOfEnded(ir, c, value);
    PopMarked(stack, offset, value);
    assert Below(ir, c, k) == stack + [Retrn(offset)];
    if bind.Some? && value.Some? {
      assert bind.value in caller.env by { CallerBinds(ir, c, k); }
      SetInCaller(under, ir[caller.func], caller, bind.value, value.value);
      FrameValsAre(ir, caller);
      FrameValsAre(ir, caller.(env := caller.env[bind.value := value.value]));
      assert offset.Some? && 0 < offset.value <= |stack|;
    } else {
      assert value.Some? ==> offset.None? by { NoOffset(ir[caller.func]); }
    }
  }

  lemma NoOffset(f: Func)
    ensures ReturnOffset(f, None).None?
  {}

  lemma PopMarked(stack: seq<Entry>, offset: Option<nat>, value: Option<Value>)
    ensures PopFrame(stack + [Retrn(offset)], value) ==
            if value.None? || offset.None? then Ran(stack, Silent)
            else if offset.value > |stack| || offset.value == 0 then Panicked
            else Ran(SetSlot(stack, |stack| - offset.value, value.value, "ret"), Silent)
  {
    hide SetSlot;
    assert (stack + [Retrn(offset)])[..|stack|] == stack;
  }

  lemma StackOfEnded(ir: Ir, c: Config, value: Option<Value>)
    requires ValidConfig(ir, c) && |c.frames| > 1 && !c.parked && ValidConfig(ir, EndCall(c, value))
    ensures var k := |c.frames| - 1;
            var caller, under := c.frames[k - 1], Below(ir, c, k - 1);
            var caller' := if c.frames[k].bind.Some? && value.Some?
                           then caller.(env := caller.env[c.frames[k].bind.value := value.value]) else caller;
            && ValidFrame(ir, caller) && ValidFrame(ir, caller')
            && Below(ir, c, k) == under + FrameVals(ir, caller) + [State(caller.func, caller.pc)]
                                  + [Retrn(ReturnOffset(ir[caller.func], c.frames[k].bind))]
            && StackOf(ir, EndCall(c, value)) == under + FrameVals(ir, caller') + [State(caller.func, caller.pc)]
  {
    var k, c' := |c.frames| - 1, EndCall(c, value);
    var caller := c.frames[k - 1];
    assert ValidFrame(ir, c.frames[k - 1]) && ValidFrame(ir, c'.frames[k - 1]);
    var marks := [State(caller.func, caller.pc), Retrn(ReturnOffset(ir[caller.func], c.frames[k].bind))];
    hide FrameVals, ReturnOffset, ValidFrame;
    BelowSame(ir, c, c', k - 1);
    assert marks == [marks[0]] + [marks[1]];
  }

  lemma CallerWhole(ir: Ir, heap: Heap, c: Config, k: nat)
    requires Valid(ir, heap) && ValidConfig(ir, c) && 0 < k < |c.frames|
    ensures ValidFrame(ir, c.frames[k - 1]) && ValidFunc(ir, heap, c.frames[k - 1].func, ir[c.frames[k - 1].func])
  {
    hide ValidFunc;
  }

  lemma CallerBinds(ir: Ir, c: Config, k: nat)
    requires ValidConfig(ir, c) && 0 < k < |c.frames| && c.frames[k].bind.Some?
    ensures c.frames[k].bind.value in c.frames[k - 1].env
  {
    hide ValidFrame;
  }

  lemma NamesAmong(f: Func)
    ensures Among(Names(f), NameSet(f))
  {}

  lemma FrameValsAre(ir: Ir, fr: Frame)
    requires fr.func in ir && fr.env.Keys == NameSet(ir[fr.func])
    ensures FrameVals(ir, fr) == Vals(Names(ir[fr.func]), fr.env)
  {}

  lemma SetInCaller(under: seq<Entry>, f: Func, caller: Frame, name: string, value: Value)
    requires caller.env.Keys == NameSet(f) && Distinct(Names(f)) && name in caller.env
    ensures ReturnOffset(f, Some(name)).Some?
    ensures var stack := under + Vals(Names(f), caller.env) + [State(caller.func, caller.pc)];
            var offset := ReturnOffset(f, Some(name)).value;
            && 0 < offset <= |stack|
            && SetSlot(stack, |stack| - offset, value, "ret")
               == under + Vals(Names(f), caller.env[name := value]) + [State(caller.func, caller.pc)]
  {
    hide SetSlot, Vals, ReturnOffset, Slot, Names;
    SlotOf(f, name);
    SetSlotInFrame(under, Names(f), caller.env, [State(caller.func, caller.pc)], Slot(f, name), value, "ret");
  }

  // ---------- One turn is one step ----------

  /** The interpreter's steps that one turn performs: a block that returns directly takes its return step along. */
  function Paired(ir: Ir, heap: Heap, c: Config): (Config, Event)
    requires Valid(ir, heap) && ValidConfig(ir, c) && !c.parked
  {
    if AtDirectReturn(ir, c) then
      InterpretValid(ir, heap, c);
      Interpret(ir, heap, Interpret(ir, heap, c).0)
    else Interpret(ir, heap, c)
  }

  ghost predicate Simulated(ir: Ir, heap: Heap, c: Config)
    requires Valid(ir, heap) && ValidConfig(ir, c) && !c.parked
  {
    var (c', ev) := Paired(ir, heap, c);
    ValidConfig(ir, c') && Aligned(ir, c') && Turn(ir, heap, StackOf(ir, c)) == Ran(StackOf(ir, c'), ev)
  }

  lemma AlignedTop(ir: Ir, c: Config, fr: Frame)
    requires ValidConfig(ir, c) && Aligned(ir, c) && c.frames != [] && ValidConfig(ir, WithTop(c, fr))
    requires fr.func == Top(c).func && Target(ir[fr.func], fr.pc)
    ensures Aligned(ir, WithTop(c, fr))
  {
    hide ValidConfig, Target;
  }

  lemma OnTop(ir: Ir, heap: Heap, c: Config)
    requires Valid(ir, heap) && ValidConfig(ir, c) && Aligned(ir, c) && c.frames != [] && !c.parked
    ensures ValidFrame(ir, Top(c)) && ValidFunc(ir, heap, Top(c).func, ir[Top(c).func])
    ensures ValidStep(ir, heap, Top(c).func, ir[Top(c).func], CurrentStep(ir, c))
    ensures var fr, vals := Top(c), FrameVals(ir, Top(c));
            && |vals| == |Names(ir[fr.func])| && AllVals(vals)
            && Turn(ir, heap, StackOf(ir, c)) == Applied(Below(ir, c, |c.frames| - 1), vals, fr.func,
                                                         StepCode(ir, fr.func, CurrentStep(ir, c), Seen(heap, fr), vals))
  {
    hide Turn, Below, Names, NameSet, Applied, StepCode, ValidStep;
    var fr := Top(c);
    assert ValidFrame(ir, fr) && Target(ir[fr.func], fr.pc);
    CurrentStepValid(ir, heap, fr);
    LoadedIsSeen(ir, heap, fr);
    TurnOnFrame(ir, heap, Below(ir, c, |c.frames| - 1), FrameVals(ir, fr), fr.func, fr.pc);
  }

  /** A turn that stays in the current frame. */
  lemma InFrame(ir: Ir, heap: Heap, c: Config, fr: Frame, ev: Event)
    requires Valid(ir, heap) && ValidConfig(ir, c) && Aligned(ir, c) && c.frames != [] && !c.parked
    requires ValidFrame(ir, fr) && fr.bind == Top(c).bind && fr.func == Top(c).func && Target(ir[fr.func], fr.pc)
    requires Paired(ir, heap, c) == (WithTop(c, fr), ev)
    requires Turn(ir, heap, StackOf(ir, c))
          == Ran(Below(ir, c, |c.frames| - 1) + FrameVals(ir, fr) + [State(fr.func, fr.pc)], ev)
    ensures Simulated(ir, heap, c)
  {
    hide ValidConfig, ValidFrame, Target, Turn, StackOf, Below, FrameVals, Paired, Aligned;
    StackWithTop(ir, c, fr);
    AlignedTop(ir, c, fr);
  }

  lemma SimJump(ir: Ir, heap: Heap, c: Config)
    requires Valid(ir, heap) && ValidConfig(ir, c) && Aligned(ir, c) && c.frames != [] && !c.parked
    requires CurrentStep(ir, c).If? || CurrentStep(ir, c).Debug?
    ensures Simulated(ir, heap, c)
  {
    hide Turn, Below, Names, NameSet, Aligned, StackOf, FrameVals, Dropped, Simulated, ValidConfig;
    OnTop(ir, heap, c);
    var fr, seen := Top(c), Seen(heap, Top(c));
    match CurrentStep(ir, c)
    case If(cond, then_, else_) =>
      var fr' := fr.(pc := if cond(seen) then then_ else else_);
      SameVals(ir, fr, fr'.pc);
      InFrame(ir, heap, c, fr', Silent);
    case Debug(text, next) =>
      SameVals(ir, fr, next);
      InFrame(ir, heap, c, fr.(pc := next), Printed(text));
  }

  lemma SimPrintVars(ir: Ir, heap: Heap, c: Config)
    requires Valid(ir, heap) && ValidConfig(ir, c) && Aligned(ir, c) && c.frames != [] && !c.parked
    requires CurrentStep(ir, c).DebugPrintVars?
    ensures Simulated(ir, heap, c)
  {
    hide Turn, Below, Aligned, StackOf, Dropped, Simulated, ValidConfig, Labelled, Names, NameSet, Listed, Vals;
    OnTop(ir, heap, c);
    var fr, next := Top(c), CurrentStep(ir, c).next;
    SameVals(ir, fr, next);
    NamesAmong(ir[fr.func]);
    LabelledIs(Names(ir[fr.func]), fr.env);
    InFrame(ir, heap, c, fr.(pc := next), Interpret(ir, heap, c).1);
  }

  lemma SimAssign(ir: Ir, heap: Heap, c: Config)
    requires Valid(ir, heap) && ValidConfig(ir, c) && Aligned(ir, c) && c.frames != [] && !c.parked
    requires CurrentStep(ir, c).RustBlock? && !AtDirectReturn(ir, c)
    ensures Simulated(ir, heap, c)
  {
    hide Turn, Below, Aligned, StackOf, Dropped, Simulated, ValidConfig, AssignSlots, SlotUpdates, BindAll, Names, NameSet, Vals;
    OnTop(ir, heap, c);
    var fr, f, seen, binds, next := Top(c), ir[Top(c).func], Seen(heap, Top(c)), CurrentStep(ir, c).binds, CurrentStep(ir, c).next;
    var below, fr' := Below(ir, c, |c.frames| - 1), fr.(env := BindAll(fr.env, binds, seen), pc := next);
    AssignSlotsInFrame(below, f, fr.env, binds, seen);
    PushAssign(below + FrameVals(ir, fr), |below|, SlotUpdates(f, binds, seen), State(fr.func, next));
    InFrame(ir, heap, c, fr', Silent);
  }

  lemma PushAssign(stack: seq<Entry>, start: nat, updates: seq<(nat, Value)>, state: Entry)
    requires state.State? && AssignSlots(stack, start, updates).Some?
    ensures Push(stack, start, [FrameAssign(updates), state]) == Some(AssignSlots(stack, start, updates).value + [state])
  {
    hide AssignSlots;
    var entries := [FrameAssign(updates), state];
    assert entries[1..] == [state] && [state][1..] == [];
    var s := AssignSlots(stack, start, updates).value;
    assert Push(s, start, [state]) == Push(s + [state], start, []);
  }

  lemma SimLet(ir: Ir, heap: Heap, c: Config)
    requires Valid(ir, heap) && ValidConfig(ir, c) && Aligned(ir, c) && c.frames != [] && !c.parked
    requires CurrentStep(ir, c).Let?
    ensures Simulated(ir, heap, c)
  {
    hide Turn, Below, Aligned, StackOf, Dropped, Simulated, ValidConfig, AssignSlots, Names, NameSet, LetSlot, Slot, LetTarget, Vals;
    OnTop(ir, heap, c);
    var fr, f, local, next := Top(c), ir[Top(c).func], CurrentStep(ir, c).local, CurrentStep(ir, c).next;
    var value := CurrentStep(ir, c).expr(Seen(heap, fr));
    var below, fr' := Below(ir, c, |c.frames| - 1), fr.(env := fr.env[local := value], pc := next);
    LetKeys(f, fr.env, local, value);
    LetAssigns(below, f, fr.env, local, value);
    PushAssign(below + FrameVals(ir, fr), |below|, [(LetSlot(f, local), value)], State(fr.func, next));
    InFrame(ir, heap, c, fr', Silent);
  }

  lemma LetAssigns(below: seq<Entry>, f: Func, env: Env, name: string, value: Value)
    requires env.Keys == NameSet(f) && Distinct(Names(f)) && name in env && LetTarget(f, name)
    ensures AssignSlots(below + Vals(Names(f), env), |below|, [(LetSlot(f, name), value)])
         == Some(below + Vals(Names(f), env[name := value]))
  {
    hide Names, LetSlot, Slot, LetTarget, SetSlot, Vals, AssignSlots, NameSet, Distinct;
    LetSlotIsRight(f, name);
    NamesAmong(f);
    SlotOf(f, name);
    SetTopSlot(below, Names(f), env, Slot(f, name), value, "_");
    AssignOne(below + Vals(Names(f), env), |below|, Slot(f, name), value);
  }

  lemma AssignOne(stack: seq<Entry>, start: nat, i: nat, value: Value)
    requires start + i < |stack|
    ensures AssignSlots(stack, start, [(i, value)]) == Some(SetSlot(stack, start + i, value, "_"))
  {
    hide SetSlot;
    var updates := [(i, value)];
    assert updates[1..] == [];
  }

  lemma SimSetValues(ir: Ir, heap: Heap, c: Config)
    requires Valid(ir, heap) && ValidConfig(ir, c) && Aligned(ir, c) && c.frames != [] && !c.parked
    requires CurrentStep(ir, c).SetValues?
    ensures Simulated(ir, heap, c)
  {
    hide Turn, Below, Names, NameSet, Aligned, StackOf, FrameVals, Dropped, Simulated, ValidConfig;
    OnTop(ir, heap, c);
    var fr, updates, next := Top(c), CurrentStep(ir, c).updates, CurrentStep(ir, c).next;
    assert Updates(updates, Seen(heap, fr), Seen(heap, fr)) == Updates(updates, Seen(heap, fr), fr.env);
    SameVals(ir, fr, next);
    InFrame(ir, heap, c, fr.(pc := next), Sets(Updates(updates, Seen(heap, fr), fr.env)));
  }

  lemma SimSpawn(ir: Ir, heap: Heap, c: Config)
    requires Valid(ir, heap) && ValidConfig(ir, c) && Aligned(ir, c) && c.frames != [] && !c.parked
    requires CurrentStep(ir, c).CreateFibers?
    ensures Simulated(ir, heap, c)
  {
    hide Turn, Below, Names, NameSet, Aligned, StackOf, Vals, Dropped, Simulated, ValidConfig, AtSlots, Among;
    OnTop(ir, heap, c);
    var fr, f, details, next := Top(c), ir[Top(c).func], CurrentStep(ir, c).details, CurrentStep(ir, c).next;
    forall i | 0 <= i < |details|
      ensures AtSlots(f, details[i].1, FrameVals(ir, fr)) == Some(Values(details[i].1, fr.env))
    {
      AtSlotsAre(f, fr.env, details[i].1);
    }
    SameVals(ir, fr, next);
    var code := StepCode(ir, fr.func, CurrentStep(ir, c), Seen(heap, fr), FrameVals(ir, fr));
    assert code.RequestThen? && code.step == next && code.event.Spawns?;
    assert code.event.details == Spawned(details, fr.env);
    InFrame(ir, heap, c, fr.(pc := next), Spawns(Spawned(details, fr.env)));
  }

  lemma SimPark(ir: Ir, heap: Heap, c: Config)
    requires Valid(ir, heap) && ValidConfig(ir, c) && Aligned(ir, c) && c.frames != [] && !c.parked
    requires CurrentStep(ir, c).Select? || CurrentStep(ir, c).Create?
    ensures Simulated(ir, heap, c)
  {
    hide Turn, Below, Names, NameSet, StackOf, Vals, Dropped, AtSlots, Armed, ValidConfig, Target, Among;
    OnTop(ir, heap, c);
    StackParked(ir, c);
    var fr := Top(c);
    if CurrentStep(ir, c).Create? {
      AtSlotsAre(ir[fr.func], fr.env, Operands(CurrentStep(ir, c).primitives));
    }
  }

  lemma SimCall(ir: Ir, heap: Heap, c: Config)
    requires Valid(ir, heap) && ValidConfig(ir, c) && Aligned(ir, c) && c.frames != [] && !c.parked
    requires CurrentStep(ir, c).Call?
    ensures Simulated(ir, heap, c)
  {
    hide Turn, Below, Names, NameSet, StackOf, FrameVals, Dropped, ValidConfig, Push, CallEnv, FreshFrame, ReturnOffset;
    OnTop(ir, heap, c);
    var fr := Top(c);
    var Call(target, args, bind, retTo) := CurrentStep(ir, c);
    var values := Evaluated(args, Seen(heap, fr));
    var callee := Frame(target, CallEnv(ir[target], values), ENTRY, bind);
    CalleeValid(ir, heap, target, values, bind);
    StackCalled(ir, c, retTo, callee);
    assert FreshFrame(ir[target], values) == FrameVals(ir, callee) by { FreshVals(ir, heap, target, values, bind); }
    PushCall(Below(ir, c, |c.frames| - 1) + FrameVals(ir, fr), |Below(ir, c, |c.frames| - 1)|,
             [State(fr.func, retTo), Retrn(ReturnOffset(ir[fr.func], bind))], FrameVals(ir, callee), State(target, ENTRY));
    AlignedCall(ir, heap, c, retTo, callee);
  }

  lemma FreshVals(ir: Ir, heap: Heap, target: FuncRef, values: seq<Value>, bind: Option<string>)
    requires Valid(ir, heap) && target in ir && |values| == |ir[target].params|
    ensures CallEnv(ir[target], values).Keys == NameSet(ir[target])
    ensures FreshFrame(ir[target], values) == FrameVals(ir, Frame(target, CallEnv(ir[target], values), ENTRY, bind))
  {
    hide CallEnv, NameSet, FreshFrame, Vals, Names;
    assert ValidFunc(ir, heap, target, ir[target]);
    FreshFrameIs(ir[target], values);
  }

  lemma {:induction false} PushPlain(stack: seq<Entry>, start: nat, entries: seq<Entry>)
    requires forall i | 0 <= i < |entries| :: !entries[i].FrameAssign?
    ensures Push(stack, start, entries) == Some(stack + entries)
    decreases |entries|
  {
    if entries == [] {
      assert stack + entries == stack;
    } else {
      PushPlain(stack + [entries[0]], start, entries[1..]);
      assert stack + [entries[0]] + entries[1..] == stack + entries;
    }
  }

  lemma PushCall(stack: seq<Entry>, start: nat, marks: seq<Entry>, vals: seq<Entry>, state: Entry)
    requires |marks| == 2 && marks[0].State? && marks[1].Retrn? && AllVals(vals) && state.State?
    ensures Push(stack, start, marks + vals + [state]) == Some(stack + marks + vals + [state])
  {
    hide Push;
    PushPlain(stack, start, marks + vals + [state]);
    assert stack + (marks + vals + [state]) == stack + marks + vals + [state];
  }

  lemma AlignedCall(ir: Ir, heap: Heap, c: Config, retTo: string, callee: Frame)
    requires Valid(ir, heap) && ValidConfig(ir, c) && Aligned(ir, c) && c.frames != []
    requires Target(ir[Top(c).func], retTo) && callee.func in ir && callee.pc == ENTRY
    requires ValidConfig(ir, Called(c, retTo, callee))
    ensures Aligned(ir, Called(c, retTo, callee))
  {
    hide ValidConfig, Dropped;
    assert ValidFunc(ir, heap, callee.func, ir[callee.func]);
    assert Target(ir[callee.func], ENTRY);
  }

  /** A turn that ends the current call. */
  lemma Ended(ir: Ir, heap: Heap, c: Config, value: Option<Value>)
    requires Valid(ir, heap) && ValidConfig(ir, c) && Aligned(ir, c) && c.frames != [] && !c.parked
    requires value.Some? ==> !ir[Top(c).func].void
    requires Paired(ir, heap, c) == (EndCall(c, value), Silent)
    requires Turn(ir, heap, StackOf(ir, c)) == PopFrame(Below(ir, c, |c.frames| - 1), value)
    ensures Simulated(ir, heap, c)
  {
    hide Turn, Below, StackOf, Paired, PopFrame, Target;
    StackEnded(ir, heap, c, value);
    hide ValidConfig;
    assert Aligned(ir, EndCall(c, value));
  }

  lemma SimReturn(ir: Ir, heap: Heap, c: Config)
    requires Valid(ir, heap) && ValidConfig(ir, c) && Aligned(ir, c) && c.frames != [] && !c.parked
    requires CurrentStep(ir, c).Return? || CurrentStep(ir, c).ReturnVoid?
    ensures Simulated(ir, heap, c)
  {
    hide Turn, Below, Names, NameSet, StackOf, FrameVals, Dropped, ValidConfig, PopFrame, EndCall, Simulated;
    OnTop(ir, heap, c);
    var step, seen := CurrentStep(ir, c), Seen(heap, Top(c));
    if step.ReturnVoid? {
      Ended(ir, heap, c, None);
    } else {
      Ended(ir, heap, c, Some(if step.value.Var? then seen[step.value.name] else step.value.expr(seen)));
    }
  }

  /** Storing a result and returning it is returning it. */
  lemma DirectReturn(ir: Ir, heap: Heap, c: Config)
    requires Valid(ir, heap) && ValidConfig(ir, c) && !c.parked && AtDirectReturn(ir, c)
    ensures !ir[Top(c).func].void
    ensures Paired(ir, heap, c) == (EndCall(c, Some(CurrentStep(ir, c).binds[0].value(Seen(heap, Top(c))))), Silent)
  {
    hide Names, NameSet, Dropped, ValidConfig;
    InterpretValid(ir, heap, c);
    var c1, fr, binds, next := Interpret(ir, heap, c).0, Top(c), CurrentStep(ir, c).binds, CurrentStep(ir, c).next;
    var v := binds[0].value(Seen(heap, fr));
    assert binds[1..] == [];
    assert BindAll(fr.env, binds, Seen(heap, fr)) == fr.env[binds[0].name := v];
    assert Top(c1) == fr.(env := fr.env[binds[0].name := v], pc := next);
    assert Seen(heap, Top(c1))[binds[0].name] == v;
    assert ValidFrame(ir, Top(c1)) by { TopWhole(ir, c1); }
    CurrentStepValid(ir, heap, Top(c1));
    SameEnd(c, Top(c1), Some(v));
  }

  lemma TopWhole(ir: Ir, c: Config)
    requires ValidConfig(ir, c) && c.frames != []
    ensures ValidFrame(ir, Top(c))
  {}

  lemma SameEnd(c: Config, fr: Frame, value: Option<Value>)
    requires c.frames != [] && fr.bind == Top(c).bind
    ensures EndCall(WithTop(c, fr), value) == EndCall(c, value)
  {}

  lemma SimDirect(ir: Ir, heap: Heap, c: Config)
    requires Valid(ir, heap) && ValidConfig(ir, c) && Aligned(ir, c) && c.frames != [] && !c.parked
    requires AtDirectReturn(ir, c)
    ensures Simulated(ir, heap, c)
  {
    hide Turn, Below, Names, NameSet, StackOf, FrameVals, Dropped, ValidConfig, PopFrame, EndCall, Simulated, Paired;
    OnTop(ir, heap, c);
    DirectReturn(ir, heap, c);
    Ended(ir, heap, c, Some(CurrentStep(ir, c).binds[0].value(Seen(heap, Top(c)))));
  }

  /**
   * One turn of the fiber on the stack of a configuration gives the stack of the configuration that the interpreter
   * steps to, and tells the runtime the same. It never panics and never meets a step without code.
   */
  lemma TurnRefinesStep(ir: Ir, heap: Heap, c: Config)
    requires Valid(ir, heap) && ValidConfig(ir, c) && Aligned(ir, c) && !c.parked
    ensures Simulated(ir, heap, c)
  {
    hide Simulated, ValidConfig, Aligned, Valid, ReturnsDirectly;
    if c.frames == [] {
      Finishes(ir, heap, c);
    } else if AtDirectReturn(ir, c) {
      SimDirect(ir, heap, c);
    } else {
      match CurrentStep(ir, c)
      case Call(_, _, _, _) => SimCall(ir, heap, c);
      case Return(_) => SimReturn(ir, heap, c);
      case ReturnVoid => SimReturn(ir, heap, c);
      case If(_, _, _) => SimJump(ir, heap, c);
      case Let(_, _, _) => SimLet(ir, heap, c);
      case RustBlock(_, _) => SimAssign(ir, heap, c);
      case Select(_) => SimPark(ir, heap, c);
      case SetValues(_, _) => SimSetValues(ir, heap, c);
      case Create(_, _, _, _, _) => SimPark(ir, heap, c);
      case CreateFibers(_, _) => SimSpawn(ir, heap, c);
      case Debug(_, _) => SimJump(ir, heap, c);
      case DebugPrintVars(_) => SimPrintVars(ir, heap, c);
    }
  }

  lemma Finishes(ir: Ir, heap: Heap, c: Config)
    requires Valid(ir, heap) && ValidConfig(ir, c) && c.frames == [] && !c.parked
    ensures Simulated(ir, heap, c)
  {}

  // ---------- Where it would not be ----------

  /**
   * Outside `Valid`: a `Let` of a parameter other than the first leaves that parameter as it is and overwrites the first
   * one with the new value.
   */
  lemma LetOverwritesFirst(ir: Ir, heap: Heap, below: seq<Entry>, fr: Frame)
    requires ValidFrame(ir, fr) && Distinct(Names(ir[fr.func])) && Target(ir[fr.func], fr.pc)
    requires var step := Find(ir[fr.func].steps, fr.pc).value;
             step.Let? && step.local in fr.env && !LetTarget(ir[fr.func], step.local)
    ensures var f, step := ir[fr.func], Find(ir[fr.func].steps, fr.pc).value;
            && |Names(f)| > 1 && Names(f)[0] != step.local
            && var env' := fr.env[Names(f)[0] := step.expr(Seen(heap, fr))];
            && Among(Names(f), fr.env.Keys) && Among(Names(f), env'.Keys) && env'[step.local] == fr.env[step.local]
            && Turn(ir, heap, below + Vals(Names(f), fr.env) + [State(fr.func, fr.pc)])
               == Ran(below + Vals(Names(f), env') + [State(fr.func, step.next)], Silent)
  {
    hide Turn, Names, NameSet, Vals, Dropped, LetSlot, LetTarget, AssignSlots, Find;
    var f, step := ir[fr.func], Find(ir[fr.func].steps, fr.pc).value;
    var names, value := Names(f), step.expr(Seen(heap, fr));
    NamesAmong(f);
    LetSlotIsFirst(f, step.local);
    LoadedIsSeen(ir, heap, fr);
    TurnOnFrame(ir, heap, below, FrameVals(ir, fr), fr.func, fr.pc);
    SetTopSlot(below, names, fr.env, 0, value, "_");
    AssignOne(below + Vals(names, fr.env), |below|, 0, value);
    PushAssign(below + Vals(names, fr.env), |below|, [(0, value)], State(fr.func, step.next));
  }

  /** The shortest such function: two parameters, and a `Let` of the second as its first step. */
  lemma LetOfSecondParameter(ir: Ir, heap: Heap, below: seq<Entry>, ref: FuncRef, x: Value, y: Value, expr: Env -> Value, next: string)
    requires ref in ir && ir[ref] == Func(["a", "b"], [], true, [(ENTRY, Let("b", expr, next))])
    ensures var value := expr(heap(ref.fiber) + map["a" := x, "b" := y]);
            Turn(ir, heap, below + [Val("a", x), Val("b", y), State(ref, ENTRY)])
            == Ran(below + [Val("a", value), Val("b", y), State(ref, next)], Silent)
  {
    var f, env := ir[ref], map["a" := x, "b" := y];
    assert "a" != "b" by { assert "a"[0] != "b"[0]; }
    assert Names(f) == ["a", "b"] && Names(f)[0] == "a" && Names(f)[1] == "b";
    var fr := Frame(ref, env, ENTRY, None);
    assert NameSet(f) == {"a", "b"};
    LetOverwritesFirst(ir, heap, below, fr);
    var value := expr(heap(ref.fiber) + env);
    hide Turn;
    assert Vals(Names(f), env) == [Val("a", x), Val("b", y)];
    assert Vals(Names(f), env["a" := value]) == [Val("a", value), Val("b", y)];
    assert below + [Val("a", x), Val("b", y)] + [State(ref, ENTRY)] == below + [Val("a", x), Val("b", y), State(ref, ENTRY)];
    assert below + [Val("a", value), Val("b", y)] + [State(ref, next)] == below + [Val("a", value), Val("b", y), State(ref, next)];
  }
}
