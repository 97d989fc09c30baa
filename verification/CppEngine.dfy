/** The engine that runs numbered steps on a stack of frames; every variable is a slot of its frame. */
module CppEngine {
  import opened Wrappers
  import opened CppIr
  import opened CppGenerator

  /** The slot of a capture holds no value. */
  datatype Slot = Slot(name: string, value: Option<Value>)

  datatype Frame = Frame(idx: nat, vars: seq<Slot>, bind: Option<nat>, args: seq<Value>, used: nat)

  /** `Crashed` is an "internal invariant" exit of the engine. */
  datatype State =
    | Running(stack: seq<Frame>, output: seq<string>)
    | Halted(output: seq<string>)
    | Threw(error: Error)
    | Crashed

  /** The checks of the accessors emitted for `scope`. */
  predicate Accessible(scope: seq<Var>, vars: seq<Slot>) {
    |scope| <= |vars|
    && forall i | 0 <= i < |scope| && !scope[i].Capture? :: vars[i].name == scope[i].name && vars[i].value.Some?
  }

  /** The variables that code compiled for `scope` sees. */
  function Read(scope: seq<Var>, vars: seq<Slot>): Env
    requires Accessible(scope, vars)
  {
    if scope == [] then map[] else
      var k := |scope| - 1;
      var env := Read(scope[..k], vars);
      if scope[k].Capture? then env else env[scope[k].name := vars[k].value.value]
  }

  function Write(scope: seq<Var>, vars: seq<Slot>, env: Env): (r: seq<Slot>)
    requires Accessible(scope, vars)
    ensures |r| == |vars|
  {
    seq(|vars|, i requires 0 <= i < |vars| =>
      if i < |scope| && !scope[i].Capture? && scope[i].name in env
      then vars[i].(value := Some(env[scope[i].name])) else vars[i])
  }

  /** The slots a step declares, or `None` when it asks for more arguments than were passed. */
  function NewSlots(decls: seq<Var>, env: Env, args: seq<Value>): Option<seq<Slot>> {
    if decls == [] then Some([])
    else if decls[0].FunctionArg? then
      if args == [] then None else
        match NewSlots(decls[1..], env, args[1..])
        case None => None
        case Some(rest) => Some([Slot(decls[0].name, Some(args[0]))] + rest)
    else
      match NewSlots(decls[1..], env, args)
      case None => None
      case Some(rest) =>
        Some([Slot(decls[0].name, if decls[0].Regular? then Some(decls[0].init(env)) else None)] + rest)
  }

  function ArgsUsed(decls: seq<Var>): (n: nat)
    ensures n <= |decls|
  {
    if decls == [] then 0 else (if decls[0].FunctionArg? then 1 else 0) + ArgsUsed(decls[1..])
  }

  function Position(scope: seq<Var>, name: string): (r: Option<nat>)
    ensures r.Some? ==> r.value < |scope| && !scope[r.value].Capture? && scope[r.value].name == name
    ensures r.None? ==> name !in Names(scope)
  {
    if scope == [] then None
    else if !scope[0].Capture? && scope[0].name == name then Some(0)
    else
      match Position(scope[1..], name)
      case None => assert forall i | 0 < i < |scope| :: scope[i] == scope[1..][i - 1]; None
      case Some(i) => Some(i + 1)
  }

  /** Pops the frame of a function that returned `value`; `stack` is what lies below it. */
  function DoReturn(stack: seq<Frame>, bind: Option<nat>, value: Option<Value>, output: seq<string>): State {
    if value.None? then if bind.None? then Running(stack, output) else Threw(NoReturnValue)
    else if stack == [] then Crashed
    else if bind.None? then Running(stack, output)
    else
      var caller := stack[|stack| - 1];
      if bind.value >= |caller.vars| then Crashed
      else
        var slot := caller.vars[bind.value].(value := value);
        Running(stack[|stack| - 1 := caller.(vars := caller.vars[bind.value := slot])], output)
  }

  function DoAct(p: Program, base: seq<Frame>, top: Frame, scope: seq<Var>, action: Action, output: seq<string>): State
    requires Accessible(scope, top.vars)
  {
    var env := Read(scope, top.vars);
    match action
    case Goto(target) => Running(base + [top.(idx := target)], output)
    case Branch(cond, yes, no) => Running(base + [top.(idx := if cond(env) then yes else no)], output)
    case Switch(tag, arms) => Running(base + [top.(idx := Select(arms, tag(env), top.idx + 1))], output)
    case Do(run) =>
      var effect := run(env);
      var top' := top.(vars := Write(scope, top.vars, effect.env));
      var output' := output + effect.output;
      match effect.control
      case Next => Running(base + [top'.(idx := top.idx + 1)], output')
      case Return(value) => DoReturn(base, top.bind, value, output')
      case Call(callee, args, bind) => DoCall(p, base, top'.(idx := top.idx + 1), scope, callee, args, bind, output')
  }

  /** Pushes the frame of a callee on that of its caller, which already points past the call. */
  function DoCall(
    p: Program, base: seq<Frame>, caller: Frame, scope: seq<Var>,
    callee: nat, args: seq<Value>, bind: Option<string>, output: seq<string>): State
  {
    var slot := if bind.None? then None else Position(scope, bind.value);
    if callee >= |p.fns| || (bind.Some? && slot.None?) then Crashed
    else if |args| != |p.fns[callee].params| then Threw(WrongNumberOfArgs)
    else Running(base + [caller, Frame(Start(p.fns, callee), [], slot, args, 0)], output)
  }

  /** The arm a match branches to; without one, control falls through to `next`. */
  function Select(arms: seq<(Option<string>, nat)>, tag: string, next: nat): nat {
    if arms == [] then next
    else if arms[0].0.None? || arms[0].0.value == tag then arms[0].1
    else Select(arms[1..], tag, next)
  }

  /** One turn of the engine's loop over the linked steps `code`. */
  function Turn(p: Program, code: seq<Step>, st: State): State {
    if !st.Running? then st
    else if st.stack == [] then Halted(st.output)
    else
      var base, top := st.stack[..|st.stack| - 1], st.stack[|st.stack| - 1];
      if top.idx >= |code| then Threw(NoReturnStatement)
      else
        var step := code[top.idx];
        if |top.vars| < |step.scope| then Crashed
        else
          var kept := top.vars[..|step.scope|];
          if !Accessible(step.scope, kept) || top.used > |top.args| then Crashed
          else
            var slots := NewSlots(step.decls, Read(step.scope, kept), top.args[top.used..]);
            if slots.None? then Crashed
            else
              var vars := kept + slots.value;
              if |vars| != |step.scope| + |step.decls| || !Accessible(step.scope + step.decls, vars) then Crashed
              else
                var top' := top.(vars := vars, used := top.used + ArgsUsed(step.decls));
                DoAct(p, base, top', step.scope + step.decls, step.action, st.output)
  }

  function Turns(p: Program, code: seq<Step>, st: State, n: nat): State
    decreases n
  {
    if n == 0 then st else Turns(p, code, Turn(p, code, st), n - 1)
  }

  function Boot(p: Program): State
    requires p.main < |p.fns|
  {
    Running([Frame(Start(p.fns, p.main), [], None, [], 0)], [])
  }

  /** The engine's loop, changing its call stack in place. */
  class Engine {
    const program: Program
    const steps: seq<Step>
    var callStack: seq<Frame>
    var output: seq<string>
    var ended: Option<State>

    ghost function View(): State
      reads this
    {
      if ended.Some? then ended.value else Running(callStack, output)
    }

    ghost predicate Valid()
      reads this
    {
      ended.Some? ==> !ended.value.Running?
    }

    constructor (p: Program, linked: seq<Step>)
      requires p.main < |p.fns|
      ensures Valid() && View() == Boot(p) && program == p && steps == linked
    {
      program, steps, output, ended := p, linked, [], None;
      callStack := [Frame(Start(p.fns, p.main), [], None, [], 0)];
    }

    /** Runs the loop body at most `limit` times. */
    method Run(limit: nat)
      requires Valid()
      modifies this
      ensures Valid() && View() == Turns(program, steps, old(View()), limit)
    {
      hide Turn;
      var n := limit;
      while n > 0 && ended.None?
        invariant Valid() && Turns(program, steps, View(), n) == Turns(program, steps, old(View()), limit)
      {
        RunStep();
        n := n - 1;
      }
      StaysEnded(program, steps, View(), n);
    }

    method RunStep()
      requires Valid()
      modifies this
      ensures Valid() && View() == Turn(program, steps, old(View()))
    {
      hide DoAct, Read, NewSlots, Accessible, ArgsUsed;
      if ended.Some? { return; }
      if callStack == [] {
        ended := Some(Halted(output));
        return;
      }
      var last := |callStack| - 1;
      var frame := callStack[last];
      if frame.idx >= |steps| {
        ended := Some(Threw(NoReturnStatement));
        return;
      }
      var step := steps[frame.idx];
      if |frame.vars| < |step.scope| {
        ended := Some(Crashed);
        return;
      }
      frame := frame.(vars := frame.vars[..|step.scope|]);
      if !Accessible(step.scope, frame.vars) || frame.used > |frame.args| {
        ended := Some(Crashed);
        return;
      }
      var slots, used := DeclareVars(step.decls, Read(step.scope, frame.vars), frame.args[frame.used..]);
      if slots.None? {
        ended := Some(Crashed);
        return;
      }
      frame := frame.(vars := frame.vars + slots.value, used := frame.used + used);
      var scope := step.scope + step.decls;
      if |frame.vars| != |scope| || !Accessible(scope, frame.vars) {
        ended := Some(Crashed);
        return;
      }
      var next := DoAct(program, callStack[..last], frame, scope, step.action, output);
      if next.Running? {
        callStack, output := next.stack, next.output;
      } else {
        ended := Some(next);
      }
    }

    /** Declares the variables of a step one by one, consuming arguments in order. */
    static method DeclareVars(decls: seq<Var>, env: Env, args: seq<Value>) returns (slots: Option<seq<Slot>>, used: nat)
      ensures slots == NewSlots(decls, env, args)
      ensures slots.Some? ==> used == ArgsUsed(decls) <= |args|
    {
      hide Read;
      var done: seq<Slot> := [];
      var i := 0;
      used := 0;
      assert decls[0..] == decls && args[0..] == args;
      ghost var all := NewSlots(decls, env, args);
      assert Prefixed(done, all) == all by { if all.Some? { assert done + all.value == all.value; } }
      while i < |decls|
        invariant 0 <= i <= |decls| && used <= |args|
        invariant used + ArgsUsed(decls[i..]) == ArgsUsed(decls)
        invariant all == Prefixed(done, NewSlots(decls[i..], env, args[used..]))
      {
        hide NewSlots, ArgsUsed;
        FirstSlot(decls[i..], env, args[used..], done);
        assert decls[i..][1..] == decls[i + 1..];
        match decls[i] {
          case Regular(name, init) => done := done + [Slot(name, Some(init(env)))];
          case Capture(name) => done := done + [Slot(name, None)];
          case FunctionArg(name) =>
            if used == |args| { return None, used; }
            assert args[used..][1..] == args[used + 1..];
            done := done + [Slot(name, Some(args[used]))];
            used := used + 1;
        }
        i := i + 1;
      }
      assert decls[i..] == [] && done + [] == done;
      slots := Some(done);
    }
  }

  function Prefixed(done: seq<Slot>, rest: Option<seq<Slot>>): Option<seq<Slot>> {
    if rest.None? then None else Some(done + rest.value)
  }

  /** What declaring the first variable does to the slots and the arguments. */
  lemma FirstSlot(decls: seq<Var>, env: Env, args: seq<Value>, done: seq<Slot>)
    requires decls != []
    ensures ArgsUsed(decls) == (if decls[0].FunctionArg? then 1 else 0) + ArgsUsed(decls[1..])
    ensures decls[0].FunctionArg? && args == [] ==> NewSlots(decls, env, args) == None
    ensures decls[0].FunctionArg? && args != [] ==>
              Prefixed(done, NewSlots(decls, env, args))
              == Prefixed(done + [Slot(decls[0].name, Some(args[0]))], NewSlots(decls[1..], env, args[1..]))
    ensures !decls[0].FunctionArg? ==>
              Prefixed(done, NewSlots(decls, env, args))
              == Prefixed(done + [Slot(decls[0].name, if decls[0].Regular? then Some(decls[0].init(env)) else None)],
                          NewSlots(decls[1..], env, args))
  {
    var arg := decls[0].FunctionArg?;
    if arg ==> args != [] {
      var slot := Slot(decls[0].name, if arg then Some(args[0]) else if decls[0].Regular? then Some(decls[0].init(env)) else None);
      var rest := NewSlots(decls[1..], env, if arg then args[1..] else args);
      if rest.Some? { assert done + ([slot] + rest.value) == done + [slot] + rest.value; }
    }
  }

  lemma {:induction false} StaysEnded(p: Program, code: seq<Step>, st: State, n: nat)
    requires n == 0 || !st.Running?
    ensures Turns(p, code, st, n) == st
  {
    if n > 0 { StaysEnded(p, code, st, n - 1); }
  }
}
