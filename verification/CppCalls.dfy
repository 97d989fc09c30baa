/** Which argument of a call reaches which parameter: in the structured meaning and in the engine's frames. */
module CppCalls {
  import opened Wrappers
  import opened CppIr
  import opened CppGenerator
  import opened CppEngine
  import opened CppFlattening

  lemma {:induction false} DeclareKeeps(decls: seq<Var>, outer: Env, env: Env, args: seq<Value>, name: string)
    requires name in env && forall i | 0 <= i < |decls| && !decls[i].Capture? :: decls[i].name != name
    ensures name in Declare(decls, outer, env, args) && Declare(decls, outer, env, args)[name] == env[name]
    decreases |decls|
  {
    if decls != [] {
      var d := decls[0];
      if d.Regular? {
        DeclareKeeps(decls[1..], outer, env[d.name := d.init(outer)], args, name);
      } else if d.FunctionArg? && args != [] {
        DeclareKeeps(decls[1..], outer, env[d.name := args[0]], args[1..], name);
      } else {
        DeclareKeeps(decls[1..], outer, env, args, name);
      }
    }
  }

  lemma {:induction false} ParamBound(params: seq<string>, vars: seq<Var>, outer: Env, env: Env, args: seq<Value>, i: nat)
    requires |args| == |params| && i < |params| && Distinct(Decls(Fn(params, vars, Nil)))
    ensures var after := Declare(Decls(Fn(params, vars, Nil)), outer, env, args);
            params[i] in after && after[params[i]] == args[i]
    decreases |params|
  {
    var decls := Decls(Fn(params, vars, Nil));
    var rest := decls[1..];
    assert rest == Decls(Fn(params[1..], vars, Nil));
    assert forall j | 0 <= j < |rest| :: rest[j] == decls[j + 1];
    var env' := env[params[0] := args[0]];
    if i == 0 {
      assert decls[0] == FunctionArg(params[0]);
      forall j | 0 <= j < |rest| && !rest[j].Capture? ensures rest[j].name != params[0] {
        assert rest[j] == decls[j + 1] && decls[0].name != decls[j + 1].name;
      }
      DeclareKeeps(rest, outer, env', args[1..], params[0]);
    } else {
      ParamBound(params[1..], vars, outer, env', args[1..], i - 1);
    }
  }

  /** A function starts with its parameters bound to the arguments, position by position. */
  lemma ParamsGetArgs(fn: Fn, args: seq<Value>)
    requires ScopedFn(fn) && |args| == |fn.params|
    ensures var env := Declare(Decls(fn), map[], map[], args);
            forall i | 0 <= i < |fn.params| :: fn.params[i] in env && env[fn.params[i]] == args[i]
  {
    hide Declare;
    assert Decls(fn) == Decls(Fn(fn.params, fn.vars, Nil));
    forall i | 0 <= i < |fn.params|
      ensures var env := Declare(Decls(fn), map[], map[], args); fn.params[i] in env && env[fn.params[i]] == args[i]
    {
      ParamBound(fn.params, fn.vars, map[], map[], args, i);
    }
  }

  lemma {:induction false} ParamSlot(params: seq<string>, vars: seq<Var>, outer: Env, args: seq<Value>, i: nat)
    requires |args| == |params| && i < |params|
    ensures var slots := NewSlots(Decls(Fn(params, vars, Nil)), outer, args);
            slots.Some? ==> i < |slots.value| && slots.value[i] == Slot(params[i], Some(args[i]))
    decreases |params|
  {
    var decls := Decls(Fn(params, vars, Nil));
    assert decls[1..] == Decls(Fn(params[1..], vars, Nil));
    if i > 0 { ParamSlot(params[1..], vars, outer, args[1..], i - 1); }
  }

  /** The first step of accepted code declares all variables that wait for it. */
  lemma {:induction false} LeadStep(code: Code, at: nat, scope: seq<Var>, pending: seq<Var>)
    requires AcceptsCode(code, |pending|) && pending != [] && SizeCode(code) > 0
    ensures var steps := FlattenCode(code, at, scope, pending); steps[0].scope == scope && steps[0].decls == pending
    decreases code
  {
    if Size(code.head) == 0 {
      LeadStep(code.tail, at, scope, pending);
      assert [] + FlattenCode(code.tail, at, scope, pending) == FlattenCode(code.tail, at, scope, pending);
      assert Flatten(code.head, at, scope, pending) == [];
    } else {
      AcceptsTidy(code.head, |pending|);
    }
  }

  /**
   * The first turn in the frame of a call: before the step acts, slot `i` of the frame is parameter `i` with argument
   * `i`, whatever lies below the frame.
   */
  lemma CalleeSlots(p: Program, f: nat, args: seq<Value>, bind: Option<nat>, base: seq<Frame>, output: seq<string>)
    returns (top: Frame)
    requires Good(p) && f < |p.fns| && |args| == |p.fns[f].params| > 0
    ensures var fn, at := p.fns[f], Start(p.fns, f);
            && at < |Linked(p)| && top.idx == at && top.bind == bind && top.args == args
            && |top.vars| == |Decls(fn)| && Accessible(Decls(fn), top.vars)
            && (forall i | 0 <= i < |fn.params| :: top.vars[i] == Slot(fn.params[i], Some(args[i])))
            && Turn(p, Linked(p), Running(base + [Frame(at, [], bind, args, 0)], output))
               == DoAct(p, base, top, Decls(fn), Linked(p)[at].action, output)
  {
    hide Turn, DoAct, NewSlots, Accessible, Declare, Good, Linked;
    var fn, at := p.fns[f], Start(p.fns, f);
    CalleeStep(p, f);
    assert ArgsUsed(Decls(fn)) <= |args| by { ParamsUsed(p, f); }
    top := FirstTurn(p, Linked(p), base, Frame(at, [], bind, args, 0), output);
    assert Decls(fn) == Decls(Fn(fn.params, fn.vars, Nil));
    forall i | 0 <= i < |fn.params| ensures top.vars[i] == Slot(fn.params[i], Some(args[i])) {
      ParamSlot(fn.params, fn.vars, map[], args, i);
    }
  }

  lemma ParamsUsed(p: Program, f: nat)
    requires Good(p) && f < |p.fns|
    ensures ArgsUsed(Decls(p.fns[f])) == |p.fns[f].params|
  {
    var fn := p.fns[f];
    assert ScopedFn(fn);
    ArgsOfFn(fn.params, fn.vars);
    assert Decls(fn) == Decls(Fn(fn.params, fn.vars, Nil));
  }

  /** A function with parameters begins with a step that declares them. */
  lemma CalleeStep(p: Program, f: nat)
    requires Good(p) && f < |p.fns| && p.fns[f].params != []
    ensures var fn, at := p.fns[f], Start(p.fns, f);
            at < |Linked(p)| && Linked(p)[at].scope == [] && Linked(p)[at].decls == Decls(fn)
  {
    hide FlattenCode, Link, Start, ScopedProgram, SizeCode;
    var fn, at := p.fns[f], Start(p.fns, f);
    assert AcceptsFn(fn);
    LinkAt(p.fns, f, |p.fns|);
    LeadStep(fn.code, at, [], Decls(fn));
    var steps := FlattenFn(fn, at);
    assert Linked(p)[at] == Linked(p)[at..at + |steps|][0];
  }

  lemma FirstTurn(p: Program, code: seq<Step>, base: seq<Frame>, fr: Frame, output: seq<string>) returns (top: Frame)
    requires fr.idx < |code| && code[fr.idx].scope == [] && fr.vars == [] && fr.used == 0
    requires ArgsUsed(code[fr.idx].decls) <= |fr.args|
    ensures var decls := code[fr.idx].decls;
            && top == fr.(vars := top.vars, used := top.used) && |top.vars| == |decls|
            && NewSlots(decls, map[], fr.args) == Some(top.vars) && Accessible(decls, top.vars)
            && Turn(p, code, Running(base + [fr], output)) == DoAct(p, base, top, decls, code[fr.idx].action, output)
  {
    hide DoAct, NewSlots;
    var decls := code[fr.idx].decls;
    NewSlotsSome(decls, map[], fr.args);
    var slots := NewSlots(decls, map[], fr.args).value;
    ReadNew([], [], decls, slots, map[], fr.args);
    assert [] + decls == decls && [] + slots == slots && fr.args[0..] == fr.args && fr.vars[..0] == [];
    top := fr.(vars := slots, used := ArgsUsed(decls));
    assert (base + [fr])[..|base|] == base;
  }
}
