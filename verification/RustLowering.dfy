/**
 * The code generated for an IR and the fiber that runs it: one flat stack holds values, return markers and states,
 * and every variable has become an offset.
 */
module RustLowering {
  import opened Wrappers
  import opened RustIr

  datatype Entry =
    | State(func: FuncRef, step: string)
    | Retrn(offset: Option<nat>)
    | Val(name: string, value: Value)
    | FrameAssign(updates: seq<(nat, Value)>)

  datatype StepResult =
    | Next(entries: seq<Entry>)
    | GoTo(step: string)
    | Returned(value: Value)
    | ReturnedVoid
    | Request(event: Event)
    | RequestThen(event: Event, step: string)
    | PrintVars(step: string)
    | Todo
    | Unreachable

  function IndexOf(names: seq<string>, name: string): (r: Option<nat>)
    ensures r.Some? ==> r.value < |names| && names[r.value] == name
    ensures r.None? ==> name !in names
  {
    if names == [] then None
    else if names[0] == name then Some(0)
    else match IndexOf(names[1..], name) case None => None case Some(i) => Some(i + 1)
  }

  /** The slot of a variable; what is not a variable of the frame falls back to slot 0. */
  function Slot(f: Func, name: string): nat {
    match IndexOf(Names(f), name) case Some(i) => i case None => 0
  }

  /** The slot that `Let` writes: only locals are looked up, anything else falls back to slot 0. */
  function LetSlot(f: Func, name: string): nat {
    match IndexOf(Names(f)[|f.params|..], name) case Some(i) => |f.params| + i case None => 0
  }

  /** How far below the top a result is bound: the continuation state lies above the caller's variables. */
  function ReturnOffset(f: Func, bind: Option<string>): Option<nat> {
    if bind.None? then None
    else match IndexOf(Names(f), bind.value) case Some(i) => Some(|Names(f)| + 1 - i) case None => None
  }

  predicate AllVals(vars: seq<Entry>) {
    forall i | 0 <= i < |vars| :: vars[i].Val?
  }

  function Contents(vars: seq<Entry>): seq<Value>
    requires AllVals(vars)
  {
    seq(|vars|, i requires 0 <= i < |vars| => vars[i].value)
  }

  /** The variables a step's code binds before it runs, read by position. */
  function Loaded(heap: Heap, ref: FuncRef, f: Func, vars: seq<Entry>): Env
    requires |vars| == |Names(f)| && AllVals(vars)
  {
    heap(ref.fiber) + Zip(Names(f), Contents(vars))
  }

  function AtSlots(f: Func, names: seq<string>, vars: seq<Entry>): Option<seq<Value>>
    requires |vars| == |Names(f)| && AllVals(vars)
  {
    if names == [] then Some([])
    else if Slot(f, names[0]) >= |vars| then None
    else
      match AtSlots(f, names[1..], vars)
      case None => None
      case Some(rest) => Some([vars[Slot(f, names[0])].value] + rest)
  }

  function SlotUpdates(f: Func, binds: seq<Bind>, seen: Env): seq<(nat, Value)> {
    if binds == [] then [] else [(Slot(f, binds[0].name), binds[0].value(seen))] + SlotUpdates(f, binds[1..], seen)
  }

  function FreshFrame(f: Func, args: seq<Value>): seq<Entry>
    requires |args| == |f.params|
  {
    seq(|Names(f)|, i requires 0 <= i < |Names(f)| =>
      Val(Names(f)[i], if i < |args| then args[i] else f.locals[i - |args|].default))
  }

  /** The code generated for a step, run on the variables it sees and the values of its frame. */
  function StepCode(ir: Ir, ref: FuncRef, step: Step, seen: Env, vars: seq<Entry>): StepResult
    requires ref in ir && |vars| == |Names(ir[ref])| && AllVals(vars)
  {
    var f := ir[ref];
    match step
    case Call(target, args, bind, retTo) =>
      if target !in ir then GoTo(retTo)
      else if |args| != |ir[target].params| then Unreachable
      else
        Next([State(ref, retTo), Retrn(ReturnOffset(f, bind))]
             + FreshFrame(ir[target], Evaluated(args, seen)) + [State(target, ENTRY)])
    case Return(value) =>
      if value.Var? then if value.name in seen then Returned(seen[value.name]) else Unreachable
      else Returned(value.expr(seen))
    case ReturnVoid => ReturnedVoid
    case If(cond, then_, else_) => GoTo(if cond(seen) then then_ else else_)
    case Let(local, expr, next) => Next([FrameAssign([(LetSlot(f, local), expr(seen))]), State(ref, next)])
    case RustBlock(binds, next) =>
      if ReturnsDirectly(f, step) then Returned(binds[0].value(seen))
      else
        Next([FrameAssign(SlotUpdates(f, binds, seen)), State(ref, next)])
    case Select(arms) =>
      if exists i | 0 <= i < |arms| :: arms[i].source !in seen then Unreachable
      else Request(Selects(ref, Armed(arms, seen)))
    case SetValues(updates, next) =>
      if exists i | 0 <= i < |updates| :: updates[i].0 !in seen || updates[i].1 !in seen then Unreachable
      else RequestThen(Sets(Updates(updates, seen, seen)), next)
    case Create(ps, _, _, _, _) =>
      (match AtSlots(f, Operands(ps), vars)
       case None => Unreachable
       case Some(operands) => Request(Creates(ref, operands, step)))
    case CreateFibers(details, next) =>
      if exists i | 0 <= i < |details| :: AtSlots(f, details[i].1, vars).None? then Unreachable
      else
        RequestThen(Spawns(seq(|details|, i requires 0 <= i < |details| =>
          (details[i].0, AtSlots(f, details[i].1, vars).value))), next)
    case Debug(text, next) => RequestThen(Printed(text), next)
    case DebugPrintVars(next) => PrintVars(next)
  }

  /** The code generated for step `id` of `ref`, run on the values of its frame. */
  function GlobalStep(ir: Ir, heap: Heap, ref: FuncRef, id: string, vars: seq<Entry>): StepResult
    requires ref in ir && |vars| == |Names(ir[ref])|
  {
    var f := ir[ref];
    if Find(f.steps, id).None? then if id == ENTRY then GoTo(ENTRY) else Todo
    else if id != ENTRY && Dropped(f, id) then Todo
    else if !AllVals(vars) then Unreachable
    else StepCode(ir, ref, Find(f.steps, id).value, Loaded(heap, ref, f, vars), vars)
  }

  // ---------- The fiber ----------

  datatype Outcome = Ran(stack: seq<Entry>, event: Event) | Panicked

  /** Overwrites a slot, keeping its label if it has one. */
  function SetSlot(stack: seq<Entry>, i: nat, value: Value, label_: string): (r: seq<Entry>)
    requires i < |stack|
    ensures |r| == |stack|
  {
    stack[i := Val(if stack[i].Val? then stack[i].name else label_, value)]
  }

  function AssignSlots(stack: seq<Entry>, start: nat, updates: seq<(nat, Value)>): Option<seq<Entry>>
    decreases |updates|
  {
    if updates == [] then Some(stack)
    else if start + updates[0].0 >= |stack| then None
    else AssignSlots(SetSlot(stack, start + updates[0].0, updates[0].1, "_"), start, updates[1..])
  }

  /** Applies what a step produced: in-frame assignments where they stand, everything else on top. */
  function Push(stack: seq<Entry>, start: nat, entries: seq<Entry>): Option<seq<Entry>>
    decreases |entries|
  {
    if entries == [] then Some(stack)
    else if entries[0].FrameAssign? then
      match AssignSlots(stack, start, entries[0].updates)
      case None => None
      case Some(stack') => Push(stack', start, entries[1..])
    else Push(stack + [entries[0]], start, entries[1..])
  }

  /** Drops the frame of a call and binds its value, if any, where its return marker says. */
  function PopFrame(below: seq<Entry>, value: Option<Value>): Outcome {
    if below == [] || !below[|below| - 1].Retrn? then Panicked
    else
      var stack, offset := below[..|below| - 1], below[|below| - 1].offset;
      if value.None? || offset.None? then Ran(stack, Silent)
      else if offset.value > |stack| || offset.value == 0 then Panicked
      else Ran(SetSlot(stack, |stack| - offset.value, value.value, "ret"), Silent)
  }

  /** One turn of the fiber's loop. */
  function Turn(ir: Ir, heap: Heap, stack: seq<Entry>): Outcome {
    if stack == [] || !stack[|stack| - 1].State? then Ran(stack, Finished)
    else
      var State(ref, id) := stack[|stack| - 1];
      var rest := stack[..|stack| - 1];
      if ref !in ir || |Names(ir[ref])| > |rest| then Panicked
      else
        var start := |rest| - |Names(ir[ref])|;
        match GlobalStep(ir, heap, ref, id, rest[start..])
        case Next(entries) =>
          (match Push(rest, start, entries) case None => Panicked case Some(s) => Ran(s, Silent))
        case GoTo(step) => Ran(rest + [State(ref, step)], Silent)
        case Returned(value) => PopFrame(rest[..start], Some(value))
        case ReturnedVoid => PopFrame(rest[..start], None)
        case Request(event) => Ran(rest, event)
        case RequestThen(event, step) => Ran(rest + [State(ref, step)], event)
        case PrintVars(step) => Ran(rest + [State(ref, step)], PrintedVars(Labelled(rest[start..])))
        case Todo => Ran(rest, Silent)
        case Unreachable => Panicked
  }

  function Labelled(vars: seq<Entry>): seq<(string, Value)> {
    if vars == [] then []
    else (if vars[0].Val? then [(vars[0].name, vars[0].value)] else []) + Labelled(vars[1..])
  }

  /** The topmost value with the given name. */
  function FindLast(stack: seq<Entry>, name: string): (r: Option<nat>)
    ensures r.Some? ==> r.value < |stack| && stack[r.value].Val? && stack[r.value].name == name
    ensures r.Some? ==> forall j | r.value < j < |stack| :: !(stack[j].Val? && stack[j].name == name)
    ensures r.None? ==> forall j | 0 <= j < |stack| :: !(stack[j].Val? && stack[j].name == name)
  {
    if stack == [] then None else
      var k := |stack| - 1;
      if stack[k].Val? && stack[k].name == name then Some(k) else FindLast(stack[..k], name)
  }

  function AssignLocals(stack: seq<Entry>, binds: seq<(string, Value)>): Option<seq<Entry>>
    decreases |binds|
  {
    if binds == [] then Some(stack) else
      match FindLast(stack, binds[0].0)
      case None => None
      case Some(i) => AssignLocals(stack[i := Val(binds[0].0, binds[0].1)], binds[1..])
  }

  /** Binds variables by name and pushes the next state. */
  function Wake(stack: seq<Entry>, ref: FuncRef, binds: seq<(string, Value)>, next: string): Outcome {
    match AssignLocals(stack, binds)
    case None => Panicked
    case Some(s) => Ran(s + [State(ref, next)], Silent)
  }

  /** The stack of a call from outside; a result, if there is one, will replace `placeholder`. */
  function Prepare(f: Func, ref: FuncRef, args: seq<Value>, placeholder: Value): seq<Entry>
    requires |args| == |f.params|
  {
    (if f.void then [] else [Val("ret", placeholder)]) + [Retrn(Some(1))] + FreshFrame(f, args) + [State(ref, ENTRY)]
  }
}
