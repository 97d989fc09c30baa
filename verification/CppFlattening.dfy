/** Running the numbered steps means what the structured program means. */
module CppFlattening {
  import opened Wrappers
  import opened CppIr
  import opened CppGenerator
  import opened CppEngine

  // ---------- Slots and scopes ----------

  lemma {:induction false} ReadSpec(scope: seq<Var>, vars: seq<Slot>)
    requires Accessible(scope, vars) && Distinct(scope)
    ensures Read(scope, vars).Keys == Names(scope)
    ensures forall i | 0 <= i < |scope| && !scope[i].Capture? :: Read(scope, vars)[scope[i].name] == vars[i].value.value
  {
    if scope != [] {
      var k := |scope| - 1;
      ReadSpec(scope[..k], vars);
      assert scope == scope[..k] + [scope[k]];
      assert Names(scope) == Names(scope[..k]) + if scope[k].Capture? then {} else {scope[k].name};
    }
  }

  lemma {:induction false} ReadPrefix(scope: seq<Var>, vars: seq<Slot>, m: nat)
    requires |scope| <= m <= |vars| && Accessible(scope, vars)
    ensures Accessible(scope, vars[..m]) && Read(scope, vars[..m]) == Read(scope, vars)
  {
    if scope != [] { ReadPrefix(scope[..|scope| - 1], vars, m); }
  }

  lemma ReadWrite(scope: seq<Var>, vars: seq<Slot>, env: Env)
    requires Accessible(scope, vars) && Distinct(scope)
    ensures var vars' := Write(scope, vars, env);
            Accessible(scope, vars') && Read(scope, vars') == Assign(Read(scope, vars), env)
  {
    var vars' := Write(scope, vars, env);
    ReadSpec(scope, vars);
    ReadSpec(scope, vars');
    forall name | name in Names(scope)
      ensures Read(scope, vars')[name] == Assign(Read(scope, vars), env)[name]
    {
      var i :| 0 <= i < |scope| && !scope[i].Capture? && scope[i].name == name;
    }
  }

  lemma ReadBind(scope: seq<Var>, vars: seq<Slot>, i: nat, value: Value)
    requires Accessible(scope, vars) && Distinct(scope) && i < |scope| && !scope[i].Capture?
    ensures var vars' := vars[i := vars[i].(value := Some(value))];
            Accessible(scope, vars') && Read(scope, vars') == Read(scope, vars)[scope[i].name := value]
  {
    var vars' := vars[i := vars[i].(value := Some(value))];
    ReadSpec(scope, vars);
    ReadSpec(scope, vars');
    forall name | name in Names(scope)
      ensures Read(scope, vars')[name] == Read(scope, vars)[scope[i].name := value][name]
    {
      var j :| 0 <= j < |scope| && !scope[j].Capture? && scope[j].name == name;
    }
  }

  lemma ReadOuter(scope: seq<Var>, inner: seq<Var>, vars: seq<Slot>)
    requires Accessible(scope + inner, vars) && Distinct(scope + inner)
    ensures Accessible(scope, vars) && Read(scope, vars) == Restrict(Read(scope + inner, vars), Names(scope))
  {
    assert forall i | 0 <= i < |scope| :: (scope + inner)[i] == scope[i];
    ReadSpec(scope + inner, vars);
    ReadSpec(scope, vars);
    assert Names(scope) <= Names(scope + inner);
    forall name | name in Names(scope)
      ensures Read(scope, vars)[name] == Read(scope + inner, vars)[name]
    {
      var i :| 0 <= i < |scope| && !scope[i].Capture? && scope[i].name == name;
      assert (scope + inner)[i].name == name;
    }
  }

  lemma ReadOneMore(scope: seq<Var>, kept: seq<Slot>, d: Var, slot: Slot)
    requires Accessible(scope, kept) && |kept| == |scope|
    requires slot.name == d.name && (d.Capture? || slot.value.Some?)
    ensures Accessible(scope + [d], kept + [slot])
    ensures Read(scope + [d], kept + [slot])
         == if d.Capture? then Read(scope, kept) else Read(scope, kept)[d.name := slot.value.value]
  {
    ReadPrefix(scope, kept + [slot], |scope|);
    assert (kept + [slot])[..|scope|] == kept;
    assert (scope + [d])[..|scope|] == scope;
  }

  lemma MoveFirst<T>(a: seq<T>, b: seq<T>)
    requires b != []
    ensures a + [b[0]] + b[1..] == a + b
  {}

  lemma {:induction false} NewSlotsSome(decls: seq<Var>, outer: Env, args: seq<Value>)
    requires ArgsUsed(decls) <= |args|
    ensures NewSlots(decls, outer, args).Some? && |NewSlots(decls, outer, args).value| == |decls|
    decreases |decls|
  {
    if decls != [] { NewSlotsSome(decls[1..], outer, if decls[0].FunctionArg? then args[1..] else args); }
  }

  /** Declaring variables in the frame is declaring them in the environment. */
  lemma {:induction false} ReadNew(
    scope: seq<Var>, kept: seq<Slot>, decls: seq<Var>, slots: seq<Slot>, outer: Env, args: seq<Value>)
    requires Accessible(scope, kept) && |kept| == |scope|
    requires NewSlots(decls, outer, args) == Some(slots) && |slots| == |decls|
    ensures Accessible(scope + decls, kept + slots)
    ensures Read(scope + decls, kept + slots) == Declare(decls, outer, Read(scope, kept), args)
    decreases |decls|
  {
    if decls == [] {
      assert scope + decls == scope && kept + slots == kept;
    } else {
      var d, slot := decls[0], slots[0];
      ReadOneMore(scope, kept, d, slot);
      ReadNew(scope + [d], kept + [slot], decls[1..], slots[1..], outer, if d.FunctionArg? then args[1..] else args);
      MoveFirst(scope, decls);
      MoveFirst(kept, slots);
    }
  }

  lemma {:induction false} DeclareKeys(decls: seq<Var>, outer: Env, env: Env, args: seq<Value>)
    requires ArgsUsed(decls) <= |args|
    ensures Declare(decls, outer, env, args).Keys == env.Keys + Names(decls)
    decreases |decls|
  {
    if decls != [] {
      var d := decls[0];
      var env' := if d.Regular? then env[d.name := d.init(outer)] else if d.FunctionArg? then env[d.name := args[0]] else env;
      DeclareKeys(decls[1..], outer, env', if d.FunctionArg? then args[1..] else args);
      assert decls == [d] + decls[1..];
      assert Names(decls) == Names(decls[1..]) + if d.Capture? then {} else {d.name};
    }
  }

  lemma {:induction false} DeclareNoArgs(decls: seq<Var>, outer: Env, env: Env, args: seq<Value>)
    requires forall i | 0 <= i < |decls| :: !decls[i].FunctionArg?
    ensures ArgsUsed(decls) == 0
    ensures Declare(decls, outer, env, args) == Declare(decls, outer, env, [])
    decreases |decls|
  {
    if decls != [] {
      var d := decls[0];
      DeclareNoArgs(decls[1..], outer, if d.Regular? then env[d.name := d.init(outer)] else env, args);
    }
  }

  lemma {:induction false} ArgsOfFn(params: seq<string>, vars: seq<Var>)
    requires forall i | 0 <= i < |vars| :: !vars[i].FunctionArg?
    ensures ArgsUsed(Decls(Fn(params, vars, Nil))) == |params|
  {
    var decls := Decls(Fn(params, vars, Nil));
    if params == [] {
      assert decls == vars;
      DeclareNoArgs(vars, map[], map[], []);
    } else {
      assert decls[1..] == Decls(Fn(params[1..], vars, Nil));
      ArgsOfFn(params[1..], vars);
    }
  }

  // ---------- The simulation relation ----------

  /** The variables of frame `fr` are `env` once `pending` is declared. */
  ghost predicate Ready(fr: Frame, scope: seq<Var>, pending: seq<Var>, env: Env) {
    && fr.used <= |fr.args| && ArgsUsed(pending) <= |fr.args| - fr.used
    && Distinct(scope + pending)
    && Accessible(scope, fr.vars)
    && var outer := Read(scope, fr.vars); env == Declare(pending, outer, outer, fr.args[fr.used..])
  }

  /** After `n` turns the engine is in `st`: just what outcome `r` of the structured code calls for. */
  ghost predicate Agrees(
    st: State, n: nat, r: Result, fuel: nat, base: seq<Frame>, bind: Option<nat>, output: seq<string>,
    at: nat, vars: (seq<Var>, seq<Var>))
  {
    match r
    case Fall(env, more) =>
      && st.Running? && |st.stack| == |base| + 1
      && var fr := st.stack[|base|];
         && st == Running(base + [fr], output + more)
         && fr.bind == bind && fr.idx == at && Ready(fr, vars.0, vars.1, env)
    case Ret(value, more) => st == DoReturn(base, bind, value, output + more)
    case Throw(e) => st == Threw(e)
    case Diverge => st.Running? && n >= fuel
    case Stuck => true
  }

  ghost predicate At(code: seq<Step>, at: nat, steps: seq<Step>) {
    at + |steps| <= |code| && code[at..at + |steps|] == steps
  }

  lemma AtSplit(code: seq<Step>, at: nat, a: seq<Step>, b: seq<Step>)
    requires At(code, at, a + b)
    ensures At(code, at, a) && At(code, at + |a|, b)
  {
    assert code[at..at + |a|] == (a + b)[..|a|];
    assert code[at + |a|..at + |a| + |b|] == (a + b)[|a|..];
  }

  lemma ReadyKeys(fr: Frame, scope: seq<Var>, pending: seq<Var>, env: Env)
    requires Ready(fr, scope, pending, env)
    ensures env.Keys == Names(scope + pending)
  {
    assert forall i | 0 <= i < |scope| :: (scope + pending)[i] == scope[i];
    assert forall i | 0 <= i < |pending| :: (scope + pending)[|scope| + i] == pending[i];
    ReadSpec(scope, fr.vars);
    var outer := Read(scope, fr.vars);
    DeclareKeys(pending, outer, outer, fr.args[fr.used..]);
    assert Names(scope + pending) == Names(scope) + Names(pending);
  }

  /** One turn on a ready frame: the step's variables come into being and its action runs on `env`. */
  lemma TurnReady(p: Program, code: seq<Step>, base: seq<Frame>, fr: Frame, output: seq<string>, step: Step, env: Env)
    returns (top: Frame)
    requires fr.idx < |code| && code[fr.idx] == step && Ready(fr, step.scope, step.decls, env)
    ensures top.idx == fr.idx && top.bind == fr.bind
    ensures var scope := step.scope + step.decls;
            && Accessible(scope, top.vars) && Read(scope, top.vars) == env
            && Ready(top, scope, [], env)
            && Turn(p, code, Running(base + [fr], output)) == DoAct(p, base, top, scope, step.action, output)
  {
    hide DoAct, NewSlots, Read, Names;
    var scope := step.scope + step.decls;
    var kept := fr.vars[..|step.scope|];
    var args := fr.args[fr.used..];
    ReadPrefix(step.scope, fr.vars, |step.scope|);
    var outer := Read(step.scope, kept);
    NewSlotsSome(step.decls, outer, args);
    var slots := NewSlots(step.decls, outer, args).value;
    ReadNew(step.scope, kept, step.decls, slots, outer, args);
    top := fr.(vars := kept + slots, used := fr.used + ArgsUsed(step.decls));
    assert (base + [fr])[..|base|] == base;
    assert scope + [] == scope;
  }

  // ---------- The simulation ----------

  ghost predicate Good(p: Program) {
    ScopedProgram(p) && AcceptsProgram(p)
  }

  function Linked(p: Program): seq<Step> {
    Link(p.fns, |p.fns|)
  }

  /** The engine gets from `s` to `t` in `n` turns. */
  ghost predicate Reaches(p: Program, s: State, n: nat, t: State) {
    exists run: seq<State> :: IsRun(p, run) && |run| == n + 1 && run[0] == s && run[n] == t
  }

  ghost predicate IsRun(p: Program, run: seq<State>) {
    forall i | 0 <= i < |run| - 1 :: run[i + 1] == Turn(p, Linked(p), run[i])
  }

  lemma Stay(p: Program, s: State)
    ensures Reaches(p, s, 0, s)
  {
    assert IsRun(p, [s]);
  }

  lemma OneTurn(p: Program, s: State)
    ensures Reaches(p, s, 1, Turn(p, Linked(p), s))
  {
    assert IsRun(p, [s, Turn(p, Linked(p), s)]);
  }

  lemma Then(p: Program, s: State, n: nat, t: State, m: nat, u: State)
    requires Reaches(p, s, n, t) && Reaches(p, t, m, u)
    ensures Reaches(p, s, n + m, u)
  {
    var a :| IsRun(p, a) && |a| == n + 1 && a[0] == s && a[n] == t;
    var b :| IsRun(p, b) && |b| == m + 1 && b[0] == t && b[m] == u;
    var c := a + b[1..];
    assert forall i | 0 <= i <= m :: c[n + i] == b[i];
    assert IsRun(p, c);
    assert c[n + m] == u;
  }

  lemma {:induction false} ReachesTurns(p: Program, s: State, n: nat, t: State)
    requires Reaches(p, s, n, t)
    ensures t == Turns(p, Linked(p), s, n)
    decreases n
  {
    var run :| IsRun(p, run) && |run| == n + 1 && run[0] == s && run[n] == t;
    if n > 0 {
      assert IsRun(p, run[1..]);
      assert run[1..][n - 1] == t;
      ReachesTurns(p, run[1], n - 1, t);
    }
  }

  /** An action that keeps the variables and moves to step `to`. */
  lemma Jump(p: Program, base: seq<Frame>, fr: Frame, output: seq<string>, step: Step, env: Env, to: nat)
    returns (fr': Frame)
    requires fr.idx < |Linked(p)| && Linked(p)[fr.idx] == step && Ready(fr, step.scope, step.decls, env)
    requires match step.action
             case Goto(target) => to == target
             case Branch(cond, yes, no) => to == if cond(env) then yes else no
             case Switch(tag, arms) => to == Select(arms, tag(env), fr.idx + 1)
             case Do(_) => false
    ensures fr'.idx == to && fr'.bind == fr.bind && Ready(fr', step.scope + step.decls, [], env)
    ensures Reaches(p, Running(base + [fr], output), 1, Running(base + [fr'], output))
  {
    var top := TurnReady(p, Linked(p), base, fr, output, step, env);
    fr' := top.(idx := to);
    OneTurn(p, Running(base + [fr], output));
  }

  lemma AgreesLater(
    st: State, n: nat, m: nat, first: seq<string>, r: Result, fuel: nat,
    base: seq<Frame>, bind: Option<nat>, output: seq<string>, at: nat, vars: (seq<Var>, seq<Var>))
    requires Agrees(st, m, r, fuel, base, bind, output + first, at, vars)
    ensures Agrees(st, n + m, Emit(first, r), fuel, base, bind, output, at, vars)
  {
    if r.Fall? || r.Ret? { assert output + first + r.output == output + (first + r.output); }
  }

  lemma {:induction false} SimNode(
    p: Program, base: seq<Frame>, fr: Frame, output: seq<string>,
    node: Node, at: nat, scope: seq<Var>, pending: seq<Var>, env: Env, fuel: nat) returns (n: nat, st: State)
    requires Good(p) && At(Linked(p), at, Flatten(node, at, scope, pending))
    requires Accepts(node, |pending|) && Scoped(node, Names(scope + pending))
    requires fr.idx == at && Ready(fr, scope, pending, env)
    ensures Reaches(p, Running(base + [fr], output), n, st)
    ensures Agrees(st, n, Exec(p, node, env, fuel), fuel,
                   base, fr.bind, output, at + Size(node), After(Size(node), scope, pending))
    decreases fuel, node, 2
  {
    hide Reaches, Ready, Agrees, Linked, Good;
    match node
    case Stmt(run) => n, st := SimStmt(p, base, fr, output, run, scope, pending, env, fuel);
    case If(_, _, _) => n, st := SimIf(p, base, fr, output, node, at, scope, pending, env, fuel);
    case Block(vars, code) => n, st := SimBlock(p, base, fr, output, vars, code, at, scope, pending, env, fuel);
    case Match(tag, arms) => n, st := SimMatch(p, base, fr, output, tag, arms, at, scope, pending, env, fuel);
  }

  lemma FirstStep(code: seq<Step>, at: nat, step: Step, rest: seq<Step>)
    requires At(code, at, [step] + rest)
    ensures at < |code| && code[at] == step && At(code, at + 1, rest)
  {
    AtSplit(code, at, [step], rest);
    assert code[at] == code[at..at + 1][0];
  }

  lemma {:induction false} SimMatch(
    p: Program, base: seq<Frame>, fr: Frame, output: seq<string>,
    tag: Env -> string, arms: Arms, at: nat, scope: seq<Var>, pending: seq<Var>, env: Env, fuel: nat)
    returns (n: nat, st: State)
    requires Good(p) && At(Linked(p), at, Flatten(Match(tag, arms), at, scope, pending))
    requires AcceptsArms(arms) && ScopedArms(arms, Names(scope + pending))
    requires fr.idx == at && Ready(fr, scope, pending, env)
    ensures Reaches(p, Running(base + [fr], output), n, st)
    ensures Agrees(st, n, ExecMatch(p, arms, tag(env), env, fuel), fuel,
                   base, fr.bind, output, at + 1 + SizeArms(arms), (scope + pending, []))
    decreases fuel, arms, 1
  {
    var inner, done := scope + pending, at + 1 + SizeArms(arms);
    var step := Step(scope, pending, Switch(tag, Targets(arms, at + 1)));
    FirstStep(Linked(p), at, step, FlattenArms(arms, at + 1, inner, done));
    var to := Select(step.action.arms, tag(env), at + 1);
    var fr' := Jump(p, base, fr, output, step, env, to);
    n, st := SimArms(p, base, fr', output, arms, at + 1, inner, done, tag(env), at + 1, env, fuel);
    Then(p, Running(base + [fr], output), 1, Running(base + [fr'], output), n, st);
    n := 1 + n;
  }

  /** The three jump targets of an if hold what `Flatten` put there. */
  lemma IfLayout(code: seq<Step>, cond: Env -> bool, yes: Node, no: Node, at: nat, scope: seq<Var>, pending: seq<Var>)
    requires At(code, at, Flatten(If(cond, yes, no), at, scope, pending))
    ensures var inner, onNo := scope + pending, at + 2 + Size(yes);
            && at < |code| && code[at] == Step(scope, pending, Branch(cond, at + 1, onNo))
            && At(code, at + 1, Flatten(yes, at + 1, inner, []))
            && onNo <= |code| && code[onNo - 1] == Step(inner, [], Goto(onNo + Size(no)))
            && At(code, onNo, Flatten(no, onNo, inner, []))
  {
    hide At, Size, Flatten;
    var inner, onNo := scope + pending, at + 2 + Size(yes);
    var test, jump := Step(scope, pending, Branch(cond, at + 1, onNo)), Step(inner, [], Goto(onNo + Size(no)));
    var a, b := Flatten(yes, at + 1, inner, []), Flatten(no, onNo, inner, []);
    assert Flatten(If(cond, yes, no), at, scope, pending) == [test] + (a + ([jump] + b)) by {
      UnfoldIf(cond, yes, no, at, scope, pending, inner, onNo);
    }
    FirstStep(code, at, test, a + ([jump] + b));
    AtSplit(code, at + 1, a, [jump] + b);
    FirstStep(code, onNo - 1, jump, b);
  }

  lemma {:induction false} SimIf(
    p: Program, base: seq<Frame>, fr: Frame, output: seq<string>,
    node: Node, at: nat, scope: seq<Var>, pending: seq<Var>, env: Env, fuel: nat) returns (n: nat, st: State)
    requires node.If?
    requires Good(p) && At(Linked(p), at, Flatten(node, at, scope, pending))
    requires Accepts(node, |pending|) && Scoped(node, Names(scope + pending))
    requires fr.idx == at && Ready(fr, scope, pending, env)
    ensures Reaches(p, Running(base + [fr], output), n, st)
    ensures Agrees(st, n, Exec(p, node, env, fuel), fuel,
                   base, fr.bind, output, at + Size(node), (scope + pending, []))
    decreases fuel, node, 0
  {
    hide Reaches, Ready, Linked, Good, At, Flatten, Names;
    var If(cond, yes, no) := node;
    var inner, onNo := scope + pending, at + 2 + Size(yes);
    IfLayout(Linked(p), cond, yes, no, at, scope, pending);
    assert inner + [] == inner;
    var s := Running(base + [fr], output);
    var fr' := Jump(p, base, fr, output, Linked(p)[at], env, if cond(env) then at + 1 else onNo);
    if cond(env) {
      n, st := SimNode(p, base, fr', output, yes, at + 1, inner, [], env, fuel);
      Then(p, s, 1, Running(base + [fr'], output), n, st);
      var r := Exec(p, yes, env, fuel);
      if r.Fall? {
        var fr'' := Jump(p, base, st.stack[|base|], output + r.output, Linked(p)[onNo - 1], r.env, onNo + Size(no));
        Then(p, s, 1 + n, st, 1, Running(base + [fr''], output + r.output));
        n, st := 2 + n, Running(base + [fr''], output + r.output);
      } else {
        n := 1 + n;
      }
    } else {
      n, st := SimNode(p, base, fr', output, no, onNo, inner, [], env, fuel);
      Then(p, s, 1, Running(base + [fr'], output), n, st);
      n := 1 + n;
    }
  }

  lemma NamesAppend(a: seq<Var>, b: seq<Var>)
    ensures Names(a + b) == Names(a) + Names(b)
  {
    assert forall i | 0 <= i < |a| :: (a + b)[i] == a[i];
    assert forall i | 0 <= i < |b| :: (a + b)[|a| + i] == b[i];
  }

  lemma DistinctAppend(a: seq<Var>, b: seq<Var>)
    requires Distinct(a) && Distinct(b) && Names(a) !! Names(b)
    ensures Distinct(a + b)
  {
    forall i, j | 0 <= i < j < |a + b| && !(a + b)[i].Capture? && !(a + b)[j].Capture?
      ensures (a + b)[i].name != (a + b)[j].name
    {
      if i < |a| <= j { assert a[i].name in Names(a) && b[j - |a|].name in Names(b); }
    }
  }

  /** Entering a block: its variables wait to be declared, nothing else does. */
  lemma EnterBlock(fr: Frame, scope: seq<Var>, vars: seq<Var>, env: Env)
    requires Ready(fr, scope, [], env) && Fresh(vars, Names(scope))
    ensures Ready(fr, scope, vars, Declare(vars, env, env, []))
    ensures Names(scope + vars) == Names(scope) + Names(vars)
  {
    assert scope + [] == scope;
    DeclareNoArgs(vars, env, env, fr.args[fr.used..]);
    DistinctAppend(scope, vars);
    NamesAppend(scope, vars);
  }

  /** Leaving a block: the frame still holds its variables, the enclosing scope does not see them. */
  lemma LeaveBlock(fr: Frame, scope: seq<Var>, vars: seq<Var>, env: Env)
    requires Ready(fr, scope + vars, [], env)
    ensures Ready(fr, scope, [], Restrict(env, Names(scope)))
  {
    assert scope + vars + [] == scope + vars && scope + [] == scope;
    assert Distinct(scope) by { assert forall i | 0 <= i < |scope| :: (scope + vars)[i] == scope[i]; }
    ReadOuter(scope, vars, fr.vars);
  }

  lemma {:induction false} SimBlock(
    p: Program, base: seq<Frame>, fr: Frame, output: seq<string>,
    vars: seq<Var>, code: Code, at: nat, scope: seq<Var>, pending: seq<Var>, env: Env, fuel: nat)
    returns (n: nat, st: State)
    requires Good(p) && At(Linked(p), at, FlattenCode(code, at, scope, pending + vars))
    requires AcceptsBlock(vars, code, |pending|)
    requires Fresh(vars, Names(scope + pending)) && ScopedCode(code, Names(scope + pending) + Names(vars))
    requires fr.idx == at && Ready(fr, scope, pending, env)
    ensures Reaches(p, Running(base + [fr], output), n, st)
    ensures Agrees(st, n, Leave(ExecCode(p, code, Declare(vars, env, env, []), fuel), env.Keys), fuel,
                   base, fr.bind, output, at + SizeCode(code), After(SizeCode(code), scope, pending))
    decreases fuel, code, 1
  {
    hide Reaches, Ready, Linked, Good, At, FlattenCode, ExecCode, Fresh, ScopedCode, AcceptsCode;
    ReadyKeys(fr, scope, pending, env);
    if SizeCode(code) == 0 {
      assert vars == [] && pending + vars == pending && Names(vars) == {};
      assert Names(scope + pending) + Names(vars) == Names(scope + pending);
      n, st := SimCode(p, base, fr, output, code, at, scope, pending, env, fuel);
      var r := ExecCode(p, code, env, fuel);
      if r.Fall? {
        ReadyKeys(st.stack[|base|], scope, pending, r.env);
        assert Restrict(r.env, env.Keys) == r.env;
      }
    } else {
      assert pending == [] && pending + vars == vars && scope + pending == scope;
      var inner := Declare(vars, env, env, []);
      EnterBlock(fr, scope, vars, env);
      n, st := SimCode(p, base, fr, output, code, at, scope, vars, inner, fuel);
      var r := ExecCode(p, code, inner, fuel);
      if r.Fall? { LeaveBlock(st.stack[|base|], scope, vars, r.env); }
    }
  }

  lemma CodeLayout(code: seq<Step>, head: Node, tail: Code, at: nat, scope: seq<Var>, pending: seq<Var>)
    requires At(code, at, FlattenCode(Cons(head, tail), at, scope, pending))
    ensures At(code, at, Flatten(head, at, scope, pending))
    ensures var (scope', pending') := After(Size(head), scope, pending);
            At(code, at + Size(head), FlattenCode(tail, at + Size(head), scope', pending'))
  {
    hide At, Flatten, Size, SizeCode;
    var steps := Flatten(head, at, scope, pending);
    var (scope', pending') := After(|steps|, scope, pending);
    AtSplit(code, at, steps, FlattenCode(tail, at + |steps|, scope', pending'));
  }

  lemma {:induction false} SimCode(
    p: Program, base: seq<Frame>, fr: Frame, output: seq<string>,
    code: Code, at: nat, scope: seq<Var>, pending: seq<Var>, env: Env, fuel: nat) returns (n: nat, st: State)
    requires Good(p) && At(Linked(p), at, FlattenCode(code, at, scope, pending))
    requires AcceptsCode(code, |pending|) && ScopedCode(code, Names(scope + pending))
    requires fr.idx == at && Ready(fr, scope, pending, env)
    ensures Reaches(p, Running(base + [fr], output), n, st)
    ensures Agrees(st, n, ExecCode(p, code, env, fuel), fuel,
                   base, fr.bind, output, at + SizeCode(code), After(SizeCode(code), scope, pending))
    decreases fuel, code, 0
  {
    hide Reaches, Ready, Linked, Good, At, FlattenCode, Flatten, Names, Exec;
    var s := Running(base + [fr], output);
    match code
    case Nil =>
      n, st := 0, s;
      Stay(p, s);
      assert output + [] == output;
    case Cons(head, tail) =>
      CodeLayout(Linked(p), head, tail, at, scope, pending);
      n, st := SimNode(p, base, fr, output, head, at, scope, pending, env, fuel);
      var r := Exec(p, head, env, fuel);
      if r.Fall? {
        var (scope', pending') := After(Size(head), scope, pending);
        assert scope + pending + [] == scope + pending;
        var at', output' := at + Size(head), output + r.output;
        var m, t := SimCode(p, base, st.stack[|base|], output', tail, at', scope', pending', r.env, fuel);
        Then(p, s, n, st, m, t);
        AgreesLater(t, n, m, r.output, ExecCode(p, tail, r.env, fuel), fuel, base, fr.bind, output,
                    at + SizeCode(code), After(SizeCode(code), scope, pending));
        n, st := n + m, t;
      }
  }

  lemma ArmsLayout(code: seq<Step>, arms: Arms, at: nat, scope: seq<Var>, done: nat)
    requires arms.Arm? && At(code, at, FlattenArms(arms, at, scope, done))
    ensures At(code, at, FlattenCode(arms.body, at, scope, arms.vars))
    ensures arms.rest.Arm? ==>
              var end := at + SizeCode(arms.body);
              && end < |code| && code[end] == Step(scope, [], Goto(done))
              && At(code, end + 1, FlattenArms(arms.rest, end + 1, scope, done))
  {
    hide FlattenCode, SizeCode, SizeArms;
    var steps, jump := FlattenCode(arms.body, at, scope, arms.vars), Step(scope, [], Goto(done));
    var arm := FlattenArm(arms, at, scope, done);
    AtSplit(code, at, arm, FlattenArms(arms.rest, at + |arm|, scope, done));
    if arms.rest.Arm? {
      AtSplit(code, at, steps, [jump]);
      assert code[at + |steps|] == code[at + |steps|..at + |steps| + 1][0];
    } else {
      assert arm == steps;
    }
  }

  lemma {:induction false} SimArms(
    p: Program, base: seq<Frame>, fr: Frame, output: seq<string>,
    arms: Arms, at: nat, scope: seq<Var>, done: nat, tag: string, next: nat, env: Env, fuel: nat)
    returns (n: nat, st: State)
    requires Good(p) && At(Linked(p), at, FlattenArms(arms, at, scope, done)) && done == at + SizeArms(arms)
    requires AcceptsArms(arms) && ScopedArms(arms, Names(scope))
    requires fr.idx == Select(Targets(arms, at), tag, next) && Ready(fr, scope, [], env)
    ensures Reaches(p, Running(base + [fr], output), n, st)
    ensures Agrees(st, n, ExecMatch(p, arms, tag, env, fuel), fuel, base, fr.bind, output, done, (scope, []))
    decreases fuel, arms, 0
  {
    hide Reaches, Ready, Linked, Good, At, FlattenArms, FlattenCode, ExecCode, Names, Fresh, AcceptsBlock, ScopedCode;
    var s := Running(base + [fr], output);
    if arms.NoArm? {
      n, st := 0, s;
      Stay(p, s);
    } else {
      var end := at + SizeCode(arms.body);
      assert scope + [] == scope && [] + arms.vars == arms.vars;
      ArmsLayout(Linked(p), arms, at, scope, done);
      if arms.key.None? || arms.key.value == tag {
        n, st := SimBlock(p, base, fr, output, arms.vars, arms.body, at, scope, [], env, fuel);
        var r := ExecMatch(p, arms, tag, env, fuel);
        if r.Fall? && arms.rest.Arm? {
          var fr' := Jump(p, base, st.stack[|base|], output + r.output, Linked(p)[end], r.env, done);
          Then(p, s, n, st, 1, Running(base + [fr'], output + r.output));
          n, st := n + 1, Running(base + [fr'], output + r.output);
        }
      } else if arms.rest.NoArm? {
        n, st := 0, s;
        Stay(p, s);
      } else {
        n, st := SimArms(p, base, fr, output, arms.rest, end + 1, scope, done, tag, next, env, fuel);
      }
    }
  }

  lemma {:induction false} SimStmt(
    p: Program, base: seq<Frame>, fr: Frame, output: seq<string>,
    run: Env -> Effect, scope: seq<Var>, pending: seq<Var>, env: Env, fuel: nat) returns (n: nat, st: State)
    requires Good(p) && At(Linked(p), fr.idx, [Step(scope, pending, Do(run))])
    requires Ready(fr, scope, pending, env)
    ensures Reaches(p, Running(base + [fr], output), n, st)
    ensures Agrees(st, n, Exec(p, Stmt(run), env, fuel), fuel,
                   base, fr.bind, output, fr.idx + 1, (scope + pending, []))
    decreases fuel, Stmt(run), 1
  {
    hide Reaches, Linked, Good, Names, Read, Write;
    var inner, effect := scope + pending, run(env);
    ReadyKeys(fr, scope, pending, env);
    assert [Step(scope, pending, Do(run))] + [] == [Step(scope, pending, Do(run))];
    FirstStep(Linked(p), fr.idx, Step(scope, pending, Do(run)), []);
    var s := Running(base + [fr], output);
    var top := TurnReady(p, Linked(p), base, fr, output, Step(scope, pending, Do(run)), env);
    n, st := 1, Turn(p, Linked(p), s);
    OneTurn(p, s);
    ReadWrite(inner, top.vars, effect.env);
    var fr' := top.(vars := Write(inner, top.vars, effect.env), idx := fr.idx + 1);
    assert Ready(fr', inner, [], Assign(env, effect.env));
    if effect.control.Call? {
      n, st := SimCall(p, base, fr', output, run, inner, s, env, fuel);
    }
  }

  lemma CalleeReady(p: Program, f: nat, args: seq<Value>, bind: Option<nat>)
    requires Good(p) && f < |p.fns| && |args| == |p.fns[f].params|
    ensures var fn, at := p.fns[f], Start(p.fns, f);
            && Ready(Frame(at, [], bind, args, 0), [], Decls(fn), Declare(Decls(fn), map[], map[], args))
            && At(Linked(p), at, FlattenFn(fn, at))
            && AcceptsCode(fn.code, |Decls(fn)|) && ScopedCode(fn.code, Names([] + Decls(fn)))
  {
    var fn := p.fns[f];
    LinkAt(p.fns, f, |p.fns|);
    ArgsOfFn(fn.params, fn.vars);
    assert Decls(fn) == Decls(Fn(fn.params, fn.vars, Nil));
    assert AcceptsFn(fn) && ScopedFn(fn);
    assert [] + Decls(fn) == Decls(fn) && args[0..] == args;
  }

  /** Binding a callee's value in the caller's frame is binding it in the caller's environment. */
  lemma BindReady(fr: Frame, scope: seq<Var>, env: Env, name: string, i: nat, value: Value)
    requires Ready(fr, scope, [], env) && Position(scope, name) == Some(i)
    ensures i < |fr.vars|
    ensures Ready(fr.(vars := fr.vars[i := fr.vars[i].(value := Some(value))]), scope, [], env[name := value])
  {
    assert scope + [] == scope;
    ReadBind(scope, fr.vars, i, value);
  }

  /** The turn that pushes the callee's frame, the callee's whole run, and its return. */
  lemma {:induction false} SimCall(
    p: Program, base: seq<Frame>, fr: Frame, output: seq<string>, run: Env -> Effect, scope: seq<Var>,
    s: State, env: Env, fuel: nat) returns (n: nat, st: State)
    requires Good(p) && run(env).control.Call?
    requires Ready(fr, scope, [], Assign(env, run(env).env)) && env.Keys == Names(scope)
    requires var Effect(_, more, Call(callee, args, bind)) := run(env);
             Reaches(p, s, 1, DoCall(p, base, fr, scope, callee, args, bind, output + more))
    ensures Reaches(p, s, n, st)
    ensures Agrees(st, n, Exec(p, Stmt(run), env, fuel), fuel, base, fr.bind, output, fr.idx, (scope, []))
    decreases fuel, Stmt(run), 0
  {
    hide Reaches, Ready, Linked, Good, At, FlattenCode, ExecCode, Names, Declare, Decls;
    var Effect(_, more, Call(callee, args, bind)) := run(env);
    var env' := Assign(env, run(env).env);
    var s1 := DoCall(p, base, fr, scope, callee, args, bind, output + more);
    n, st := 1, s1;
    if callee < |p.fns| && (bind.None? || bind.value in env) && |args| == |p.fns[callee].params| && fuel > 0 {
      var slot := if bind.None? then None else Position(scope, bind.value);
      var fn, frame := p.fns[callee], Frame(Start(p.fns, callee), [], slot, args, 0);
      CalleeReady(p, callee, args, slot);
      assert base + [fr, frame] == base + [fr] + [frame];
      var m, t := SimCode(p, base + [fr], frame, output + more, fn.code, frame.idx, [], Decls(fn),
                          Declare(Decls(fn), map[], map[], args), fuel - 1);
      Then(p, s, 1, s1, m, t);
      n, st := 1 + m, t;
      var r := ExecFn(p, fn, args, fuel - 1);
      if r.Ret? {
        assert output + more + r.output == output + (more + r.output);
        if bind.Some? && r.value.Some? {
          BindReady(fr, scope, env', bind.value, slot.value, r.value.value);
          var fr' := fr.(vars := fr.vars[slot.value := fr.vars[slot.value].(value := r.value)]);
          assert (base + [fr])[|base| := fr'] == base + [fr'];
        }
      }
    }
  }

  // ---------- The theorems ----------

  /** The engine, `n` turns after it was booted on the linked steps of `p`. */
  function EngineAt(p: Program, n: nat): State
    requires p.main < |p.fns|
  {
    Turns(p, Linked(p), Boot(p), n)
  }

  /** The run of `main`'s body, before the engine notices that the stack is empty. */
  lemma SimMain(p: Program, fuel: nat) returns (n: nat, st: State)
    requires ScopedProgram(p) && AcceptsProgram(p)
    ensures Reaches(p, Boot(p), n, st)
    ensures Agrees(st, n, ExecFn(p, p.fns[p.main], [], fuel), fuel, [], None, [],
                   Start(p.fns, p.main + 1), After(SizeCode(p.fns[p.main].code), [], Decls(p.fns[p.main])))
  {
    hide Reaches, Agrees, Linked, Ready, At, FlattenCode, ExecCode, Names, Declare, Decls;
    var fn, frame := p.fns[p.main], Frame(Start(p.fns, p.main), [], None, [], 0);
    CalleeReady(p, p.main, [], None);
    n, st := SimCode(p, [], frame, [], fn.code, frame.idx, [], Decls(fn), Declare(Decls(fn), map[], map[], []), fuel);
    assert [] + [frame] == [frame];
  }

  /** Every outcome of the structured program is the engine's outcome; a run that needs deep calls keeps running. */
  lemma FlatteningPreservesMeaning(p: Program, fuel: nat) returns (n: nat)
    requires ScopedProgram(p) && AcceptsProgram(p)
    ensures match ExecMain(p, fuel)
            case Ret(_, output) => EngineAt(p, n) == Halted(output)
            case Throw(e) => EngineAt(p, n) == Threw(e)
            case Diverge => EngineAt(p, n).Running? && n >= fuel
            case _ => true
  {
    hide Reaches, Ready, Turns, Linked, ExecFn;
    var st;
    n, st := SimMain(p, fuel);
    var r := ExecMain(p, fuel);
    if r.Ret? {
      assert [] + r.output == r.output;
      OneTurn(p, st);
      Then(p, Boot(p), n, st, 1, Halted(r.output));
      n, st := n + 1, Halted(r.output);
    }
    ReachesTurns(p, Boot(p), n, st);
  }

  lemma {:induction false} FinalStays(p: Program, st: State, a: nat, b: nat)
    requires !Turns(p, Linked(p), st, a).Running?
    ensures Turns(p, Linked(p), st, a + b) == Turns(p, Linked(p), st, a)
    decreases a + b
  {
    if a > 0 { FinalStays(p, Turn(p, Linked(p), st), a - 1, b); } else { StaysEnded(p, Linked(p), st, b); }
  }

  /** `st` is the final state that outcome `r` of the whole program calls for. */
  ghost predicate MeansEnd(r: Result, st: State) {
    (r.Ret? && r.value.None? && st == Halted(r.output)) || (r.Throw? && st == Threw(r.error))
  }

  lemma EngineEnds(p: Program, n: nat)
    requires ScopedProgram(p) && AcceptsProgram(p) && ExecMain(p, n + 1) != Stuck
    ensures EngineAt(p, n).Running? || MeansEnd(ExecMain(p, n + 1), EngineAt(p, n))
  {
    hide ExecMain, Turns;
    var m := FlatteningPreservesMeaning(p, n + 1);
    if !EngineAt(p, n).Running? {
      if n <= m { FinalStays(p, Boot(p), n, m - n); } else { FinalStays(p, Boot(p), m, n - m); }
    }
  }

  lemma SameEnd(p: Program, r: Result, st: State)
    requires ScopedProgram(p) && AcceptsProgram(p) && MeansEnd(r, st)
    requires forall fuel: nat :: ExecMain(p, fuel) != Stuck
    ensures (exists n: nat :: EngineAt(p, n) == st) <==> (exists fuel: nat :: ExecMain(p, fuel) == r)
  {
    hide ExecMain, EngineAt;
    if n: nat :| EngineAt(p, n) == st {
      EngineEnds(p, n);
      assert ExecMain(p, n + 1) == r;
    }
    if fuel: nat :| ExecMain(p, fuel) == r {
      var n := FlatteningPreservesMeaning(p, fuel);
      assert EngineAt(p, n) == st;
    }
  }

  /**
   * The engine and the structured program have the same terminating runs, the same exceptions and the same endless
   * runs, and the engine never takes an "internal invariant" exit.
   */
  lemma FlatteningEquivalence(p: Program, output: seq<string>, e: Error)
    requires ScopedProgram(p) && AcceptsProgram(p)
    requires forall fuel: nat :: ExecMain(p, fuel) != Stuck
    ensures (exists n: nat :: EngineAt(p, n) == Halted(output))
            <==> (exists fuel: nat :: ExecMain(p, fuel) == Ret(None, output))
    ensures (exists n: nat :: EngineAt(p, n) == Threw(e)) <==> (exists fuel: nat :: ExecMain(p, fuel) == Throw(e))
    ensures (forall n: nat :: EngineAt(p, n).Running?) <==> (forall fuel: nat :: ExecMain(p, fuel) == Diverge)
    ensures forall n: nat :: !EngineAt(p, n).Crashed?
  {
    hide ExecMain, EngineAt;
    SameEnd(p, Ret(None, output), Halted(output));
    SameEnd(p, Throw(e), Threw(e));
    forall n: nat
      ensures EngineAt(p, n).Running? || MeansEnd(ExecMain(p, n + 1), EngineAt(p, n))
    {
      EngineEnds(p, n);
    }
    forall fuel: nat | (forall n: nat :: EngineAt(p, n).Running?)
      ensures ExecMain(p, fuel).Diverge?
    {
      var n := FlatteningPreservesMeaning(p, fuel);
      assert EngineAt(p, n).Running?;
    }
  }

  /**
   * A function that ends without returning is not stopped, at whatever depth it was called: its frame goes on with the
   * first step of the next function, and the frames below it stay as they are. Only behind the last function the engine
   * complains.
   */
  lemma MissingReturnRunsOn(p: Program, base: seq<Frame>, f: nat, args: seq<Value>, bind: Option<nat>, output: seq<string>, fuel: nat)
    returns (n: nat, st: State)
    requires ScopedProgram(p) && AcceptsProgram(p) && f < |p.fns| && |args| == |p.fns[f].params|
    requires ExecFn(p, p.fns[f], args, fuel).Fall?
    ensures Reaches(p, Running(base + [Frame(Start(p.fns, f), [], bind, args, 0)], output), n, st)
    ensures st.Running? && |st.stack| == |base| + 1 && st.stack[..|base|] == base
    ensures st.stack[|base|].idx == Start(p.fns, f + 1) && st.stack[|base|].bind == bind
    ensures st.output == output + ExecFn(p, p.fns[f], args, fuel).output
    ensures f + 1 == |p.fns| ==> Turn(p, Linked(p), st) == Threw(NoReturnStatement)
  {
    hide Reaches, Ready, At, FlattenCode, ExecCode, Names, Declare, Decls, Linked;
    var fn, frame := p.fns[f], Frame(Start(p.fns, f), [], bind, args, 0);
    CalleeReady(p, f, args, bind);
    n, st := SimCode(p, base, frame, output, fn.code, frame.idx, [], Decls(fn), Declare(Decls(fn), map[], map[], args), fuel);
    LinkNext(p.fns, f);
    assert |Linked(p)| == Start(p.fns, |p.fns|) by { LinkedSize(p); }
  }

  lemma LinkedSize(p: Program)
    ensures |Linked(p)| == Start(p.fns, |p.fns|)
  {}

  /** The dispatch of a tag that no arm covers goes to the step behind it. */
  lemma {:induction false} SelectMiss(arms: Arms, at: nat, tag: string, next: nat)
    requires !Covers(arms, tag)
    ensures Select(Targets(arms, at), tag, next) == next
    decreases arms
  {
    if arms.Arm? {
      var rest := Targets(arms.rest, at + SizeCode(arms.body) + 1);
      SelectMiss(arms.rest, at + SizeCode(arms.body) + 1, tag, next);
      assert ([(arms.key, at)] + rest)[1..] == rest;
    }
  }

  /** A match that does not cover its tag has no meaning, but the engine drops into the first arm and runs it. */
  lemma UncoveredMatchRunsFirstArm(
    p: Program, base: seq<Frame>, fr: Frame, output: seq<string>,
    tag: Env -> string, arms: Arms, at: nat, scope: seq<Var>, pending: seq<Var>, env: Env, fuel: nat)
    returns (n: nat, st: State)
    requires ScopedProgram(p) && AcceptsProgram(p) && At(Linked(p), at, Flatten(Match(tag, arms), at, scope, pending))
    requires AcceptsArms(arms) && ScopedArms(arms, Names(scope + pending))
    requires fr.idx == at && Ready(fr, scope, pending, env)
    requires arms.Arm? && !Covers(arms, tag(env))
    ensures arms.key.Some? && ExecMatch(p, arms, tag(env), env, fuel) == Stuck
    ensures Reaches(p, Running(base + [fr], output), n, st)
    ensures Agrees(st, n, ExecMatch(p, arms, arms.key.value, env, fuel), fuel,
                   base, fr.bind, output, at + 1 + SizeArms(arms), (scope + pending, []))
  {
    var inner, done := scope + pending, at + 1 + SizeArms(arms);
    var step := Step(scope, pending, Switch(tag, Targets(arms, at + 1)));
    FirstStep(Linked(p), at, step, FlattenArms(arms, at + 1, inner, done));
    SelectMiss(arms, at + 1, tag(env), at + 1);
    Unmatched(p, arms, tag(env), env, fuel);
    var fr' := Jump(p, base, fr, output, step, env, at + 1);
    n, st := SimArms(p, base, fr', output, arms, at + 1, inner, done, arms.key.value, at + 1, env, fuel);
    Then(p, Running(base + [fr], output), 1, Running(base + [fr'], output), n, st);
    n := 1 + n;
  }

  lemma {:induction false} Unmatched(p: Program, arms: Arms, tag: string, env: Env, fuel: nat)
    requires !Covers(arms, tag)
    ensures ExecMatch(p, arms, tag, env, fuel) == Stuck
    decreases arms
  {
    if arms.Arm? { Unmatched(p, arms.rest, tag, env, fuel); }
  }

  // ---------- Programs that are never stuck ----------

  /** Every name a statement mentions resolves, every match is covered, and `main` returns no value. */
  ghost predicate Resolved(p: Program, node: Node, scope: set<string>, main: bool) {
    match node
    case Stmt(run) =>
      forall env: Env | env.Keys == scope ::
        (match run(env).control
         case Next => true
         case Call(f, _, bind) => f < |p.fns| && (bind.Some? ==> bind.value in scope)
         case Return(value) => main ==> value.None?)
    case If(_, yes, no) => Resolved(p, yes, scope, main) && Resolved(p, no, scope, main)
    case Block(vars, code) => ResolvedCode(p, code, scope + Names(vars), main)
    case Match(tag, arms) =>
      && (forall env: Env | env.Keys == scope :: Covers(arms, tag(env)))
      && ResolvedArms(p, arms, scope, main)
  }

  ghost predicate ResolvedCode(p: Program, code: Code, scope: set<string>, main: bool) {
    code.Cons? ==> Resolved(p, code.head, scope, main) && ResolvedCode(p, code.tail, scope, main)
  }

  ghost predicate ResolvedArms(p: Program, arms: Arms, scope: set<string>, main: bool) {
    arms.Arm? ==>
      ResolvedCode(p, arms.body, scope + Names(arms.vars), main) && ResolvedArms(p, arms.rest, scope, main)
  }

  predicate Covers(arms: Arms, tag: string) {
    arms.Arm? && (arms.key.None? || arms.key.value == tag || Covers(arms.rest, tag))
  }

  /** Every path through the node ends in a return. */
  ghost predicate Returns(node: Node, scope: set<string>) {
    match node
    case Stmt(run) => forall env: Env | env.Keys == scope :: run(env).control.Return?
    case If(_, yes, no) => Returns(yes, scope) && Returns(no, scope)
    case Block(vars, code) => ReturnsCode(code, scope + Names(vars))
    case Match(_, arms) => ReturnsArms(arms, scope)
  }

  ghost predicate ReturnsCode(code: Code, scope: set<string>) {
    code.Cons? && (Returns(code.head, scope) || ReturnsCode(code.tail, scope))
  }

  ghost predicate ReturnsArms(arms: Arms, scope: set<string>) {
    arms.Arm? ==> ReturnsCode(arms.body, scope + Names(arms.vars)) && ReturnsArms(arms.rest, scope)
  }

  ghost predicate Complete(p: Program) {
    forall f | 0 <= f < |p.fns| ::
      && ResolvedCode(p, p.fns[f].code, Names(Decls(p.fns[f])), f == p.main)
      && ReturnsCode(p.fns[f].code, Names(Decls(p.fns[f])))
  }

  ghost predicate Meaningful(r: Result, scope: set<string>, returns_: bool, main: bool) {
    && !r.Stuck?
    && (r.Fall? ==> r.env.Keys == scope && !returns_)
    && (r.Ret? && main ==> r.value.None?)
  }

  lemma {:induction false} NodeMeaningful(p: Program, node: Node, env: Env, main: bool, fuel: nat)
    requires ScopedProgram(p) && Complete(p) && Scoped(node, env.Keys) && Resolved(p, node, env.Keys, main)
    ensures Meaningful(Exec(p, node, env, fuel), env.Keys, Returns(node, env.Keys), main)
    decreases fuel, node, 1
  {
    match node
    case Stmt(run) =>
      assert Assign(env, run(env).env).Keys == env.Keys;
      if run(env).control.Call? && fuel > 0 {
        var Call(f, args, bind) := run(env).control;
        if |args| == |p.fns[f].params| { FnMeaningful(p, f, args, fuel - 1); }
      }
    case If(cond, yes, no) =>
      if cond(env) { NodeMeaningful(p, yes, env, main, fuel); } else { NodeMeaningful(p, no, env, main, fuel); }
    case Block(vars, code) => BlockMeaningful(p, vars, code, env, main, fuel);
    case Match(tag, arms) =>
      assert Covers(arms, tag(env));
      ArmsMeaningful(p, arms, tag(env), env, main, fuel);
  }

  lemma {:induction false} BlockMeaningful(p: Program, vars: seq<Var>, code: Code, env: Env, main: bool, fuel: nat)
    requires ScopedProgram(p) && Complete(p)
    requires Fresh(vars, env.Keys) && ScopedCode(code, env.Keys + Names(vars))
    requires ResolvedCode(p, code, env.Keys + Names(vars), main)
    ensures Meaningful(Leave(ExecCode(p, code, Declare(vars, env, env, []), fuel), env.Keys),
                       env.Keys, ReturnsCode(code, env.Keys + Names(vars)), main)
    decreases fuel, code, 1
  {
    DeclareNoArgs(vars, env, env, []);
    DeclareKeys(vars, env, env, []);
    CodeMeaningful(p, code, Declare(vars, env, env, []), main, fuel);
  }

  lemma {:induction false} CodeMeaningful(p: Program, code: Code, env: Env, main: bool, fuel: nat)
    requires ScopedProgram(p) && Complete(p) && ScopedCode(code, env.Keys) && ResolvedCode(p, code, env.Keys, main)
    ensures Meaningful(ExecCode(p, code, env, fuel), env.Keys, ReturnsCode(code, env.Keys), main)
    decreases fuel, code, 0
  {
    if code.Cons? {
      NodeMeaningful(p, code.head, env, main, fuel);
      var r := Exec(p, code.head, env, fuel);
      if r.Fall? { CodeMeaningful(p, code.tail, r.env, main, fuel); }
    }
  }

  lemma {:induction false} ArmsMeaningful(p: Program, arms: Arms, tag: string, env: Env, main: bool, fuel: nat)
    requires ScopedProgram(p) && Complete(p) && Covers(arms, tag)
    requires ScopedArms(arms, env.Keys) && ResolvedArms(p, arms, env.Keys, main)
    ensures Meaningful(ExecMatch(p, arms, tag, env, fuel), env.Keys, ReturnsArms(arms, env.Keys), main)
    decreases fuel, arms
  {
    if arms.key.None? || arms.key.value == tag {
      BlockMeaningful(p, arms.vars, arms.body, env, main, fuel);
    } else {
      ArmsMeaningful(p, arms.rest, tag, env, main, fuel);
    }
  }

  lemma {:induction false} FnMeaningful(p: Program, f: nat, args: seq<Value>, fuel: nat)
    requires ScopedProgram(p) && Complete(p) && f < |p.fns| && |args| == |p.fns[f].params|
    ensures var r := ExecFn(p, p.fns[f], args, fuel);
            !r.Stuck? && !r.Fall? && (r.Ret? && f == p.main ==> r.value.None?)
    decreases fuel, p.fns[f].code, 2
  {
    var fn := p.fns[f];
    assert ScopedFn(fn);
    ArgsOfFn(fn.params, fn.vars);
    assert Decls(fn) == Decls(Fn(fn.params, fn.vars, Nil));
    DeclareKeys(Decls(fn), map[], map[], args);
    var env := Declare(Decls(fn), map[], map[], args);
    assert env.Keys == Names(Decls(fn));
    CodeMeaningful(p, fn.code, env, f == p.main, fuel);
  }

  /** A program whose paths all return and whose matches are all covered is never stuck. */
  lemma CompleteNeverStuck(p: Program, fuel: nat)
    requires ScopedProgram(p) && Complete(p)
    ensures ExecMain(p, fuel) != Stuck
  {
    FnMeaningful(p, p.main, [], fuel);
  }
}
