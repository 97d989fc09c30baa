/** What a step hands on, position by position: arguments to parameters, sources to arms, values to futures. */
module RustCalls {
  import opened Wrappers
  import opened RustIr
  import opened RustLowering
  import opened RustSimulation
  import opened RustRefinement

  /** Parameter `i` has the value of argument `i`, and the locals have their defaults. */
  ghost predicate Bound(f: Func, args: seq<Env -> Value>, seen: Env, env: Env) {
    && |args| == |f.params| && env.Keys == NameSet(f)
    && (forall i | 0 <= i < |f.params| :: f.params[i] in env && env[f.params[i]] == args[i](seen))
    && forall j | 0 <= j < |f.locals| :: f.locals[j].name in env && env[f.locals[j].name] == f.locals[j].default
  }

  /** From `at` on, slot `i` is parameter `i` with the value of argument `i`. */
  ghost predicate Placed(f: Func, args: seq<Env -> Value>, seen: Env, stack: seq<Entry>, at: nat) {
    && |args| == |f.params| && at + |f.params| <= |stack|
    && forall i | 0 <= i < |f.params| :: stack[at + i] == Val(f.params[i], args[i](seen))
  }

  lemma CallEnvIs(f: Func, args: seq<Env -> Value>, seen: Env)
    requires |args| == |f.params| && Distinct(Names(f))
    ensures Bound(f, args, seen, CallEnv(f, Evaluated(args, seen)))
  {
    var values := Evaluated(args, seen);
    var names, all := Names(f), values + seq(|f.locals|, i requires 0 <= i < |f.locals| => f.locals[i].default);
    ZipSpec(names, all);
    assert forall i | 0 <= i < |f.params| :: names[i] == f.params[i] && all[i] == args[i](seen);
    assert forall j | 0 <= j < |f.locals| ::
        names[|f.params| + j] == f.locals[j].name && all[|f.params| + j] == f.locals[j].default;
  }

  /**
   * A call in the interpreter: the frame it adds holds parameter `i` with the value of argument `i`, and of the frames
   * below only the caller changes, in where it goes on.
   */
  lemma CallPasses(ir: Ir, heap: Heap, c: Config, target: FuncRef, args: seq<Env -> Value>, bind: Option<string>, retTo: string)
    returns (callee: Frame)
    requires Valid(ir, heap) && ValidConfig(ir, c) && c.frames != [] && !c.parked
    requires CurrentStep(ir, c) == Call(target, args, bind, retTo)
    ensures Interpret(ir, heap, c)
         == (c.(frames := c.frames[..|c.frames| - 1] + [Top(c).(pc := retTo), callee]), Silent)
    ensures callee.func == target && callee.pc == ENTRY && callee.bind == bind
    ensures target in ir && Bound(ir[target], args, Seen(heap, Top(c)), callee.env)
  {
    hide Valid, ValidConfig, CallEnv, Names, NameSet, Interpret, Bound, Evaluated;
    CallStep(ir, heap, c, target, args, bind, retTo);
    NamesDistinct(ir, heap, target);
    CallEnvIs(ir[target], args, Seen(heap, Top(c)));
    callee := Frame(target, CallEnv(ir[target], Evaluated(args, Seen(heap, Top(c)))), ENTRY, bind);
  }

  lemma CallStep(ir: Ir, heap: Heap, c: Config, target: FuncRef, args: seq<Env -> Value>, bind: Option<string>, retTo: string)
    requires Valid(ir, heap) && ValidConfig(ir, c) && c.frames != [] && !c.parked
    requires CurrentStep(ir, c) == Call(target, args, bind, retTo)
    ensures target in ir && |args| == |ir[target].params|
    ensures Interpret(ir, heap, c)
         == (Called(c, retTo, Frame(target, CallEnv(ir[target], Evaluated(args, Seen(heap, Top(c)))), ENTRY, bind)), Silent)
  {
    CurrentStepValid(ir, heap, Top(c));
    hide Valid, CallEnv, Names, NameSet, Seen, Evaluated;
  }

  lemma NamesDistinct(ir: Ir, heap: Heap, ref: FuncRef)
    requires Valid(ir, heap) && ref in ir
    ensures Distinct(Names(ir[ref]))
  {}

  /**
   * The same call on the machine's stack: over the caller's values go its continuation and its return marker, and slot
   * `i` over them is parameter `i` with the value of argument `i`.
   */
  lemma CallPushes(ir: Ir, heap: Heap, c: Config, target: FuncRef, args: seq<Env -> Value>, bind: Option<string>, retTo: string)
    returns (frame: seq<Entry>)
    requires Valid(ir, heap) && ValidConfig(ir, c) && Aligned(ir, c) && c.frames != [] && !c.parked
    requires CurrentStep(ir, c) == Call(target, args, bind, retTo)
    ensures target in ir && |frame| == |Names(ir[target])| && Placed(ir[target], args, Seen(heap, Top(c)), frame, 0)
    ensures var caller := Below(ir, c, |c.frames| - 1) + FrameVals(ir, Top(c));
            && StackOf(ir, c) == caller + [State(Top(c).func, Top(c).pc)]
            && Turn(ir, heap, StackOf(ir, c))
               == Ran(caller + [State(Top(c).func, retTo), Retrn(ReturnOffset(ir[Top(c).func], bind))]
                      + frame + [State(target, ENTRY)], Silent)
  {
    hide Valid, ValidConfig, Names, NameSet, Interpret, Turn, Below, Bound, Placed, ReturnOffset, FrameVals, Aligned;
    var callee := CallPasses(ir, heap, c, target, args, bind, retTo);
    TurnRefinesStep(ir, heap, c);
    PairedPlain(ir, heap, c);
    CallTarget(ir, heap, c, target, args, bind, retTo, callee);
    StackCalled(ir, c, retTo, callee);
    frame := FrameVals(ir, callee);
    BoundPlaced(ir, callee, args, Seen(heap, Top(c)));
  }

  lemma PairedPlain(ir: Ir, heap: Heap, c: Config)
    requires Valid(ir, heap) && ValidConfig(ir, c) && c.frames != [] && !c.parked && !CurrentStep(ir, c).RustBlock?
    ensures Paired(ir, heap, c) == Interpret(ir, heap, c)
  {
    hide Valid, ValidConfig, Interpret;
  }

  lemma CallTarget(ir: Ir, heap: Heap, c: Config, target: FuncRef, args: seq<Env -> Value>, bind: Option<string>, retTo: string,
                   callee: Frame)
    requires Valid(ir, heap) && ValidConfig(ir, c) && c.frames != [] && !c.parked
    requires CurrentStep(ir, c) == Call(target, args, bind, retTo)
    requires target in ir && callee.func == target && callee.pc == ENTRY && callee.bind == bind
    requires Bound(ir[target], args, Seen(heap, Top(c)), callee.env)
    ensures Find(ir[Top(c).func].steps, retTo).Some? && ValidFrame(ir, callee)
    ensures callee.bind.Some? ==> callee.bind.value in Top(c).env
  {
    CurrentStepValid(ir, heap, Top(c));
    assert ValidFunc(ir, heap, target, ir[target]);
  }

  lemma BoundPlaced(ir: Ir, fr: Frame, args: seq<Env -> Value>, seen: Env)
    requires fr.func in ir && Bound(ir[fr.func], args, seen, fr.env)
    ensures Placed(ir[fr.func], args, seen, FrameVals(ir, fr), 0)
  {
    var f, vals := ir[fr.func], FrameVals(ir, fr);
    forall i | 0 <= i < |f.params| ensures vals[0 + i] == Val(f.params[i], args[i](seen)) {
      assert Names(f)[i] == f.params[i];
    }
  }

  /** Arm by arm what the fiber asks its runtime to wait for. */
  ghost predicate Asks(arms: seq<Await>, seen: Env, asked: seq<Arm>) {
    && |asked| == |arms|
    && forall i | 0 <= i < |arms| ::
         arms[i].source in seen && asked[i] == Arm(seen[arms[i].source], arms[i].isQueue, arms[i].bind, arms[i].next)
  }

  /** A select asks for what its arms name and parks the fiber, in the interpreter and on the machine. */
  lemma SelectAsks(ir: Ir, heap: Heap, c: Config, arms: seq<Await>) returns (asked: seq<Arm>)
    requires Valid(ir, heap) && ValidConfig(ir, c) && Aligned(ir, c) && c.frames != [] && !c.parked
    requires CurrentStep(ir, c) == Select(arms)
    ensures Asks(arms, Seen(heap, Top(c)), asked)
    ensures Interpret(ir, heap, c) == (c.(parked := true), Selects(Top(c).func, asked))
    ensures Turn(ir, heap, StackOf(ir, c))
         == Ran(Below(ir, c, |c.frames| - 1) + FrameVals(ir, Top(c)), Selects(Top(c).func, asked))
  {
    hide Valid, ValidConfig, Interpret, Turn, Below, FrameVals, Aligned;
    asked := SelectStep(ir, heap, c, arms);
    TurnRefinesStep(ir, heap, c);
    PairedPlain(ir, heap, c);
    StackParked(ir, c);
  }

  lemma SelectStep(ir: Ir, heap: Heap, c: Config, arms: seq<Await>) returns (asked: seq<Arm>)
    requires Valid(ir, heap) && ValidConfig(ir, c) && c.frames != [] && !c.parked && CurrentStep(ir, c) == Select(arms)
    ensures Asks(arms, Seen(heap, Top(c)), asked)
    ensures Interpret(ir, heap, c) == (c.(parked := true), Selects(Top(c).func, asked))
  {
    CurrentStepValid(ir, heap, Top(c));
    hide Valid, CallEnv, Names;
    asked := Armed(arms, Seen(heap, Top(c)));
  }

  /** Every update pairs the future it names with the value it names. */
  ghost predicate Tells(updates: seq<(string, string)>, seen: Env, env: Env, told: seq<(Value, Value)>) {
    && |told| == |updates|
    && forall i | 0 <= i < |updates| ::
         updates[i].0 in seen && updates[i].1 in env && told[i] == (seen[updates[i].0], env[updates[i].1])
  }

  lemma SetsTell(ir: Ir, heap: Heap, c: Config, updates: seq<(string, string)>, next: string) returns (told: seq<(Value, Value)>)
    requires Valid(ir, heap) && ValidConfig(ir, c) && Aligned(ir, c) && c.frames != [] && !c.parked
    requires CurrentStep(ir, c) == SetValues(updates, next)
    ensures Tells(updates, Seen(heap, Top(c)), Top(c).env, told)
    ensures var c' := WithTop(c, Top(c).(pc := next));
            && ValidConfig(ir, c') && Interpret(ir, heap, c) == (c', Sets(told))
            && Turn(ir, heap, StackOf(ir, c)) == Ran(StackOf(ir, c'), Sets(told))
  {
    hide Valid, ValidConfig, Interpret, Turn, StackOf, Aligned;
    told := SetsStep(ir, heap, c, updates, next);
    TurnRefinesStep(ir, heap, c);
    PairedPlain(ir, heap, c);
  }

  lemma SetsStep(ir: Ir, heap: Heap, c: Config, updates: seq<(string, string)>, next: string) returns (told: seq<(Value, Value)>)
    requires Valid(ir, heap) && ValidConfig(ir, c) && c.frames != [] && !c.parked
    requires CurrentStep(ir, c) == SetValues(updates, next)
    ensures Tells(updates, Seen(heap, Top(c)), Top(c).env, told)
    ensures Interpret(ir, heap, c) == (WithTop(c, Top(c).(pc := next)), Sets(told))
  {
    CurrentStepValid(ir, heap, Top(c));
    hide Valid, CallEnv, Names;
    told := Updates(updates, Seen(heap, Top(c)), Top(c).env);
  }

  /** How many primitives take a value: all but futures. */
  function Taking(ps: seq<Primitive>): nat {
    if ps == [] then 0 else (if ps[0].Future? then 0 else 1) + Taking(ps[1..])
  }

  function OperandOf(p: Primitive): string
    requires !p.Future?
  {
    if p.Queue? then p.nameVar else p.msVar
  }

  /** The values for a create, one for every primitive that takes one, in order. */
  ghost predicate Supplies(ps: seq<Primitive>, env: Env, operands: seq<Value>) {
    && |operands| == Taking(ps)
    && forall i | 0 <= i < |ps| && !ps[i].Future? ::
         Taking(ps[..i]) < |operands| && OperandOf(ps[i]) in env && operands[Taking(ps[..i])] == env[OperandOf(ps[i])]
  }

  lemma {:induction false} OperandsAre(ps: seq<Primitive>, i: nat)
    requires i < |ps|
    ensures |Operands(ps)| == Taking(ps)
    ensures !ps[i].Future? ==> Taking(ps[..i]) < |Operands(ps)| && Operands(ps)[Taking(ps[..i])] == OperandOf(ps[i])
  {
    if i > 0 {
      OperandsAre(ps[1..], i - 1);
      assert ps[..i][1..] == ps[1..][..i - 1];
    } else if |ps| > 1 {
      OperandsAre(ps[1..], 0);
    }
  }

  lemma SuppliesAll(ps: seq<Primitive>, env: Env)
    requires Among(Operands(ps), env.Keys)
    ensures Supplies(ps, env, Values(Operands(ps), env))
  {
    hide Operands, Taking;
    if ps == [] {
      assert Operands(ps) == [] && Taking(ps) == 0 by { NoOperands(); }
    } else {
      OperandsAre(ps, 0);
    }
    forall i | 0 <= i < |ps| && !ps[i].Future?
      ensures var k := Taking(ps[..i]);
              && k < |Operands(ps)| && OperandOf(ps[i]) in env && Values(Operands(ps), env)[k] == env[OperandOf(ps[i])]
    {
      OperandsAre(ps, i);
    }
  }

  lemma NoOperands()
    ensures Operands([]) == [] && Taking([]) == 0
  {}

  /** A create hands its runtime the values of the variables it names and parks the fiber. */
  lemma CreateSupplies(ir: Ir, heap: Heap, c: Config) returns (operands: seq<Value>)
    requires Valid(ir, heap) && ValidConfig(ir, c) && Aligned(ir, c) && c.frames != [] && !c.parked
    requires CurrentStep(ir, c).Create?
    ensures Supplies(CurrentStep(ir, c).primitives, Top(c).env, operands)
    ensures Interpret(ir, heap, c) == (c.(parked := true), Creates(Top(c).func, operands, CurrentStep(ir, c)))
    ensures Turn(ir, heap, StackOf(ir, c))
         == Ran(Below(ir, c, |c.frames| - 1) + FrameVals(ir, Top(c)), Creates(Top(c).func, operands, CurrentStep(ir, c)))
  {
    hide Valid, ValidConfig, Interpret, Turn, Below, FrameVals, Aligned, Supplies;
    operands := CreateStep(ir, heap, c);
    TurnRefinesStep(ir, heap, c);
    PairedPlain(ir, heap, c);
    StackParked(ir, c);
  }

  lemma CreateStep(ir: Ir, heap: Heap, c: Config) returns (operands: seq<Value>)
    requires Valid(ir, heap) && ValidConfig(ir, c) && c.frames != [] && !c.parked && CurrentStep(ir, c).Create?
    ensures Supplies(CurrentStep(ir, c).primitives, Top(c).env, operands)
    ensures Interpret(ir, heap, c) == (c.(parked := true), Creates(Top(c).func, operands, CurrentStep(ir, c)))
  {
    CurrentStepValid(ir, heap, Top(c));
    hide Valid, CallEnv, Names, Operands, Supplies;
    var ps := CurrentStep(ir, c).primitives;
    SuppliesAll(ps, Top(c).env);
    operands := Values(Operands(ps), Top(c).env);
  }
}
