/**
 * The flat form of a C++ IR program: numbered steps, each with the variables in scope when it starts and the
 * variables it declares. `Flatten` places the steps of a node at a given index; block variables wait in `pending`
 * until the next step declares them.
 */
module CppGenerator {
  import opened Wrappers
  import opened CppIr

  datatype Action =
    | Do(run: Env -> Effect)
    | Branch(cond: Env -> bool, yes: nat, no: nat)
    | Goto(target: nat)
    | Switch(tag: Env -> string, arms: seq<(Option<string>, nat)>)

  datatype Step = Step(scope: seq<Var>, decls: seq<Var>, action: Action)

  function Size(node: Node): nat {
    match node
    case Stmt(_) => 1
    case If(_, yes, no) => 2 + Size(yes) + Size(no)
    case Block(_, code) => SizeCode(code)
    case Match(_, arms) => 1 + SizeArms(arms)
  }

  function SizeCode(code: Code): nat {
    if code.Nil? then 0 else Size(code.head) + SizeCode(code.tail)
  }

  function SizeArms(arms: Arms): nat {
    if arms.NoArm? then 0
    else SizeCode(arms.body) + (if arms.rest.NoArm? then 0 else 1 + SizeArms(arms.rest))
  }

  /** The scope and the pending variables after `size` steps were emitted. */
  function After(size: nat, scope: seq<Var>, pending: seq<Var>): (seq<Var>, seq<Var>) {
    if size == 0 then (scope, pending) else (scope + pending, [])
  }

  function Flatten(node: Node, at: nat, scope: seq<Var>, pending: seq<Var>): (steps: seq<Step>)
    ensures |steps| == Size(node)
    decreases node, 0
  {
    match node
    case Stmt(run) => [Step(scope, pending, Do(run))]
    case If(cond, yes, no) =>
      var inner := scope + pending;
      var onNo := at + 2 + Size(yes);
      [Step(scope, pending, Branch(cond, at + 1, onNo))]
      + (Flatten(yes, at + 1, inner, [])
         + ([Step(inner, [], Goto(onNo + Size(no)))] + Flatten(no, onNo, inner, [])))
    case Block(vars, code) => FlattenCode(code, at, scope, pending + vars)
    case Match(tag, arms) =>
      [Step(scope, pending, Switch(tag, Targets(arms, at + 1)))]
      + FlattenArms(arms, at + 1, scope + pending, at + 1 + SizeArms(arms))
  }

  lemma UnfoldIf(
    cond: Env -> bool, yes: Node, no: Node, at: nat, scope: seq<Var>, pending: seq<Var>, inner: seq<Var>, onNo: nat)
    requires inner == scope + pending && onNo == at + 2 + Size(yes)
    ensures Flatten(If(cond, yes, no), at, scope, pending)
         == [Step(scope, pending, Branch(cond, at + 1, onNo))]
            + (Flatten(yes, at + 1, inner, [])
               + ([Step(inner, [], Goto(onNo + Size(no)))] + Flatten(no, onNo, inner, [])))
  {}

  function FlattenCode(code: Code, at: nat, scope: seq<Var>, pending: seq<Var>): (steps: seq<Step>)
    ensures |steps| == SizeCode(code)
    decreases code, 0
  {
    match code
    case Nil => []
    case Cons(head, tail) =>
      var steps := Flatten(head, at, scope, pending);
      steps + (if steps == [] then FlattenCode(tail, at, scope, pending)
               else FlattenCode(tail, at + |steps|, scope + pending, []))
  }

  function FlattenArms(arms: Arms, at: nat, scope: seq<Var>, done: nat): (steps: seq<Step>)
    ensures |steps| == SizeArms(arms)
    decreases arms, 1
  {
    if arms.NoArm? then [] else
      var steps := FlattenArm(arms, at, scope, done);
      steps + FlattenArms(arms.rest, at + |steps|, scope, done)
  }

  /** Every arm but the last ends with a jump past the match. */
  function FlattenArm(arms: Arms, at: nat, scope: seq<Var>, done: nat): (steps: seq<Step>)
    requires arms.Arm?
    ensures |steps| == SizeCode(arms.body) + if arms.rest.NoArm? then 0 else 1
    decreases arms, 0
  {
    FlattenCode(arms.body, at, scope, arms.vars) + if arms.rest.NoArm? then [] else [Step(scope, [], Goto(done))]
  }

  function Targets(arms: Arms, at: nat): seq<(Option<string>, nat)> {
    if arms.NoArm? then [] else [(arms.key, at)] + Targets(arms.rest, at + SizeCode(arms.body) + 1)
  }

  /** Whether the generator gets past a node while `pending` variables wait: it aborts on a miscounted scope. */
  predicate Accepts(node: Node, pending: nat)
    decreases node
  {
    match node
    case Stmt(_) => true
    case If(_, yes, no) => Accepts(yes, 0) && Accepts(no, 0)
    case Block(vars, code) => AcceptsBlock(vars, code, pending)
    case Match(_, arms) => AcceptsArms(arms)
  }

  predicate AcceptsBlock(vars: seq<Var>, code: Code, pending: nat)
    decreases code, 1
  {
    AcceptsCode(code, pending + |vars|) && (if SizeCode(code) == 0 then vars == [] else pending == 0)
  }

  predicate AcceptsCode(code: Code, pending: nat)
    decreases code, 0
  {
    code.Cons? ==>
      Accepts(code.head, pending) && AcceptsCode(code.tail, if Size(code.head) == 0 then pending else 0)
  }

  predicate AcceptsArms(arms: Arms) {
    arms.Arm? ==> AcceptsBlock(arms.vars, arms.body, 0) && AcceptsArms(arms.rest)
  }

  /** The first node of a piece of code that takes a step, if any. */
  function Lead(code: Code): Option<Node> {
    if code.Nil? then None else if Size(code.head) > 0 then Some(code.head) else Lead(code.tail)
  }

  /** Variables need a step to declare them, and it must be that of their own block, not of a block inside it. */
  predicate Introduces(vars: seq<Var>, code: Code) {
    vars != [] ==> Lead(code).Some? && !Lead(code).value.Block?
  }

  /** Every block of a node introduces its variables. */
  predicate Tidy(node: Node) {
    match node
    case Stmt(_) => true
    case If(_, yes, no) => Tidy(yes) && Tidy(no)
    case Block(vars, code) => Introduces(vars, code) && TidyCode(code)
    case Match(_, arms) => TidyArms(arms)
  }

  predicate TidyCode(code: Code) {
    code.Cons? ==> Tidy(code.head) && TidyCode(code.tail)
  }

  predicate TidyArms(arms: Arms) {
    arms.Arm? ==> Introduces(arms.vars, arms.body) && TidyCode(arms.body) && TidyArms(arms.rest)
  }

  /** The generator gets past exactly those nodes whose blocks all introduce their variables. */
  lemma {:induction false} AcceptsTidy(node: Node, pending: nat)
    ensures Accepts(node, pending) <==> Tidy(node) && (pending > 0 && Size(node) > 0 ==> !node.Block?)
    decreases node, 1
  {
    match node
    case Stmt(_) =>
    case If(_, yes, no) =>
      AcceptsTidy(yes, 0);
      AcceptsTidy(no, 0);
    case Block(vars, code) => AcceptsTidyBlock(vars, code, pending);
    case Match(_, arms) => AcceptsTidyArms(arms);
  }

  lemma {:induction false} AcceptsTidyBlock(vars: seq<Var>, code: Code, pending: nat)
    ensures AcceptsBlock(vars, code, pending)
            <==> Introduces(vars, code) && TidyCode(code) && (pending > 0 ==> SizeCode(code) == 0)
    decreases code, 1
  {
    AcceptsTidyCode(code, pending + |vars|);
    LeadSize(code);
  }

  lemma {:induction false} AcceptsTidyCode(code: Code, pending: nat)
    ensures AcceptsCode(code, pending)
            <==> TidyCode(code) && (pending > 0 && SizeCode(code) > 0 ==> Lead(code).Some? && !Lead(code).value.Block?)
    decreases code, 0
  {
    LeadSize(code);
    if code.Cons? {
      AcceptsTidy(code.head, pending);
      AcceptsTidyCode(code.tail, if Size(code.head) == 0 then pending else 0);
    }
  }

  lemma {:induction false} AcceptsTidyArms(arms: Arms)
    ensures AcceptsArms(arms) <==> TidyArms(arms)
    decreases arms, 0
  {
    if arms.Arm? {
      AcceptsTidyBlock(arms.vars, arms.body, 0);
      AcceptsTidyArms(arms.rest);
    }
  }

  lemma {:induction false} LeadSize(code: Code)
    ensures Lead(code).Some? <==> SizeCode(code) > 0
  {
    if code.Cons? { LeadSize(code.tail); }
  }

  function FlattenFn(fn: Fn, at: nat): (steps: seq<Step>)
    ensures |steps| == SizeCode(fn.code)
  {
    FlattenCode(fn.code, at, [], Decls(fn))
  }

  /** The index of the first step of function `f`. */
  function Start(fns: seq<Fn>, f: nat): nat
    requires f <= |fns|
  {
    if f == 0 then 0 else Start(fns, f - 1) + SizeCode(fns[f - 1].code)
  }

  function Link(fns: seq<Fn>, f: nat): (steps: seq<Step>)
    requires f <= |fns|
    ensures |steps| == Start(fns, f)
  {
    if f == 0 then [] else Link(fns, f - 1) + FlattenFn(fns[f - 1], Start(fns, f - 1))
  }

  predicate AcceptsFn(fn: Fn) {
    AcceptsBlock(Decls(fn), fn.code, 0)
  }

  predicate AcceptsProgram(p: Program) {
    forall f | 0 <= f < |p.fns| :: AcceptsFn(p.fns[f])
  }

  /** A program is accepted just when every block in it, and every function, introduces its variables. */
  lemma AcceptsProgramTidy(p: Program)
    ensures AcceptsProgram(p) <==>
            forall f | 0 <= f < |p.fns| :: Introduces(Decls(p.fns[f]), p.fns[f].code) && TidyCode(p.fns[f].code)
  {
    hide AcceptsBlock, Introduces, TidyCode;
    forall f | 0 <= f < |p.fns|
      ensures AcceptsFn(p.fns[f]) <==> Introduces(Decls(p.fns[f]), p.fns[f].code) && TidyCode(p.fns[f].code)
    {
      AcceptsTidyBlock(Decls(p.fns[f]), p.fns[f].code, 0);
    }
  }

  lemma LinkNext(fns: seq<Fn>, f: nat)
    requires f < |fns|
    ensures Start(fns, f + 1) == Start(fns, f) + SizeCode(fns[f].code)
    ensures Link(fns, f + 1) == Link(fns, f) + FlattenFn(fns[f], Start(fns, f))
  {}

  /** Linking puts the steps of function `f` at `Start(fns, f)`. */
  lemma {:induction false} LinkAt(fns: seq<Fn>, f: nat, n: nat)
    requires f < n <= |fns|
    ensures Start(fns, f) + SizeCode(fns[f].code) <= Start(fns, n)
    ensures Link(fns, n)[Start(fns, f)..Start(fns, f) + SizeCode(fns[f].code)] == FlattenFn(fns[f], Start(fns, f))
    decreases n
  {
    hide FlattenCode, SizeCode, FlattenFn;
    var before, last := Link(fns, n - 1), FlattenFn(fns[n - 1], Start(fns, n - 1));
    var from, to := Start(fns, f), Start(fns, f) + SizeCode(fns[f].code);
    if f < n - 1 {
      LinkAt(fns, f, n - 1);
      assert (before + last)[from..to] == before[from..to];
    } else {
      assert (before + last)[from..to] == last;
    }
  }
}
