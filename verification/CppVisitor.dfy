/**
 * The generator as it runs: one pass that appends steps, defines the jump labels only after the code they skip was
 * emitted, and keeps the variables in scope and those still to be declared in two growing and shrinking lists.
 */
module CppVisitor {
  import opened Wrappers
  import opened CppIr
  import opened CppGenerator

  /** Labels are named after the step that branches to them. */
  datatype Label =
    | IfYes(step: nat) | IfNo(step: nat) | IfDone(step: nat)
    | MatchArm(step: nat, arm: nat) | MatchDone(step: nat)

  datatype Instr =
    | Run(run: Env -> Effect)
    | BranchTo(cond: Env -> bool, yes: Label, no: Label)
    | JumpTo(to: Label)
    | SwitchTo(tag: Env -> string, arms: seq<(Option<string>, Label)>)

  datatype Emitted = Emitted(scope: seq<Var>, decls: seq<Var>, code: Instr)

  type Labels = map<Label, nat>

  predicate Defined(e: Emitted, labels: Labels) {
    match e.code
    case Run(_) => true
    case BranchTo(_, yes, no) => yes in labels && no in labels
    case JumpTo(to) => to in labels
    case SwitchTo(_, arms) => forall i | 0 <= i < |arms| :: arms[i].1 in labels
  }

  /** What the C++ compiler makes of a step once every label has a value. */
  function Resolve(e: Emitted, labels: Labels): Step
    requires Defined(e, labels)
  {
    Step(e.scope, e.decls,
         match e.code
         case Run(run) => Do(run)
         case BranchTo(cond, yes, no) => Branch(cond, labels[yes], labels[no])
         case JumpTo(to) => Goto(labels[to])
         case SwitchTo(tag, arms) =>
           Switch(tag, seq(|arms|, i requires 0 <= i < |arms| => (arms[i].0, labels[arms[i].1]))))
  }

  ghost predicate ResolvesTo(e: Emitted, labels: Labels, step: Step) {
    Defined(e, labels) && Resolve(e, labels) == step
  }

  /** The steps from `from` on start with what resolves to `flat`. */
  ghost predicate Yields(steps: seq<Emitted>, from: nat, labels: Labels, flat: seq<Step>) {
    && from + |flat| <= |steps|
    && forall i | from <= i < from + |flat| :: ResolvesTo(steps[i], labels, flat[i - from])
  }

  /** New labels belong to steps from `from` on; no label changes its value. */
  ghost predicate Extends(before: Labels, after: Labels, from: nat) {
    && (forall l | l in before :: l in after && after[l] == before[l])
    && (forall l | l in after && l !in before :: l.step >= from)
  }

  lemma Define(labels: Labels, l: Label, v: nat, from: nat)
    requires l !in labels && l.step >= from
    ensures Extends(labels, labels[l := v], from)
  {}

  lemma ExtendsTwice(a: Labels, b: Labels, c: Labels, from: nat, from': nat)
    requires Extends(a, b, from) && Extends(b, c, from')
    ensures Extends(a, c, if from < from' then from else from')
  {}

  /** A visit that starts at step `from` leaves the labels of earlier steps as they are. */
  lemma Untouched(a: Labels, b: Labels, from: nat, l: Label)
    requires Extends(a, b, from) && l.step < from
    ensures l in a <==> l in b
    ensures l in a ==> b[l] == a[l]
  {}

  lemma DefineBoth(a: Labels, b: Labels, l: Label, v: nat, from: nat)
    requires Extends(a, b, from) && l !in a && l !in b
    ensures Extends(a[l := v], b[l := v], from)
  {}

  lemma BranchResolves(scope: seq<Var>, decls: seq<Var>, cond: Env -> bool, yes: Label, no: Label, labels: Labels)
    requires yes in labels && no in labels
    ensures ResolvesTo(Emitted(scope, decls, BranchTo(cond, yes, no)), labels,
                       Step(scope, decls, Branch(cond, labels[yes], labels[no])))
  {}

  lemma JumpResolves(scope: seq<Var>, to: Label, labels: Labels)
    requires to in labels
    ensures ResolvesTo(Emitted(scope, [], JumpTo(to)), labels, Step(scope, [], Goto(labels[to])))
  {}

  lemma ResolveLater(e: Emitted, a: Labels, b: Labels, from: nat)
    requires Extends(a, b, from) && Defined(e, a)
    ensures Defined(e, b) && Resolve(e, b) == Resolve(e, a)
  {
    match e.code
    case SwitchTo(_, arms) =>
      assert forall i | 0 <= i < |arms| :: arms[i].1 in b && b[arms[i].1] == a[arms[i].1];
      assert Resolve(e, b).action.arms == Resolve(e, a).action.arms;
    case _ =>
  }

  lemma YieldsLater(
    steps: seq<Emitted>, from: nat, labels: Labels, flat: seq<Step>, steps': seq<Emitted>, labels': Labels, at: nat)
    requires Yields(steps, from, labels, flat) && steps <= steps' && Extends(labels, labels', at)
    ensures Yields(steps', from, labels', flat)
  {
    forall i | from <= i < from + |flat|
      ensures ResolvesTo(steps'[i], labels', flat[i - from])
    {
      assert ResolvesTo(steps[i], labels, flat[i - from]);
      ResolveLater(steps[i], labels, labels', at);
    }
  }

  lemma YieldsJoin(steps: seq<Emitted>, from: nat, labels: Labels, a: seq<Step>, b: seq<Step>)
    requires Yields(steps, from, labels, a) && Yields(steps, from + |a|, labels, b)
    ensures Yields(steps, from, labels, a + b)
  {
    hide ResolvesTo;
    forall i | from <= i < from + |a + b|
      ensures ResolvesTo(steps[i], labels, (a + b)[i - from])
    {
      if i < from + |a| {
        assert ResolvesTo(steps[i], labels, a[i - from]);
      } else {
        assert ResolvesTo(steps[i], labels, b[i - (from + |a|)]);
      }
    }
  }

  lemma OneYields(steps: seq<Emitted>, k: nat, labels: Labels, step: Step)
    requires k < |steps| && ResolvesTo(steps[k], labels, step)
    ensures Yields(steps, k, labels, [step])
  {}

  lemma IfYields(
    steps: seq<Emitted>, k: nat, labels: Labels, node: Node, scope: seq<Var>, pending: seq<Var>)
    requires node.If? && k + 1 + Size(node.yes) < |steps|
    requires var inner, onNo := scope + pending, k + 2 + Size(node.yes);
      && ResolvesTo(steps[k], labels, Step(scope, pending, Branch(node.cond, k + 1, onNo)))
      && Yields(steps, k + 1, labels, Flatten(node.yes, k + 1, inner, []))
      && ResolvesTo(steps[onNo - 1], labels, Step(inner, [], Goto(onNo + Size(node.no))))
      && Yields(steps, onNo, labels, Flatten(node.no, onNo, inner, []))
    ensures Yields(steps, k, labels, Flatten(node, k, scope, pending))
  {
    hide Yields, ResolvesTo, Size, Flatten;
    var inner, onNo := scope + pending, k + 2 + Size(node.yes);
    UnfoldIf(node.cond, node.yes, node.no, k, scope, pending, inner, onNo);
    var test := Step(scope, pending, Branch(node.cond, k + 1, onNo));
    var jump := Step(inner, [], Goto(onNo + Size(node.no)));
    var yes, no := Flatten(node.yes, k + 1, inner, []), Flatten(node.no, onNo, inner, []);
    OneYields(steps, onNo - 1, labels, jump);
    YieldsJoin(steps, onNo - 1, labels, [jump], no);
    YieldsJoin(steps, k + 1, labels, yes, [jump] + no);
    OneYields(steps, k, labels, test);
    YieldsJoin(steps, k, labels, [test], yes + ([jump] + no));
  }

  function ArmLabels(arms: Arms, step: nat, idx: nat): seq<(Option<string>, Label)> {
    if arms.NoArm? then [] else [(arms.key, MatchArm(step, idx))] + ArmLabels(arms.rest, step, idx + 1)
  }

  /** The label of every arm from index `idx` on is the first step of its code. */
  ghost predicate ArmsAt(arms: Arms, step: nat, idx: nat, at: nat, labels: Labels)
    decreases arms
  {
    arms.Arm? ==>
      && MatchArm(step, idx) in labels && labels[MatchArm(step, idx)] == at
      && ArmsAt(arms.rest, step, idx + 1, at + SizeCode(arms.body) + 1, labels)
  }

  lemma {:induction false} SwitchResolves(arms: Arms, step: nat, idx: nat, at: nat, labels: Labels)
    requires ArmsAt(arms, step, idx, at, labels)
    ensures var names, targets := ArmLabels(arms, step, idx), Targets(arms, at);
            && |names| == |targets|
            && forall i | 0 <= i < |names| :: names[i].1 in labels && targets[i] == (names[i].0, labels[names[i].1])
    decreases arms
  {
    if arms.Arm? { SwitchResolves(arms.rest, step, idx + 1, at + SizeCode(arms.body) + 1, labels); }
  }

  lemma {:induction false} ArmsAtLater(arms: Arms, step: nat, idx: nat, at: nat, labels: Labels, labels': Labels, from: nat)
    requires ArmsAt(arms, step, idx, at, labels) && Extends(labels, labels', from)
    ensures ArmsAt(arms, step, idx, at, labels')
    decreases arms
  {
    if arms.Arm? { ArmsAtLater(arms.rest, step, idx + 1, at + SizeCode(arms.body) + 1, labels, labels', from); }
  }

  lemma ArmsJoin(
    steps1: seq<Emitted>, labels1: Labels, steps: seq<Emitted>, labels: Labels,
    arms: Arms, k: nat, idx: nat, at: nat, scope: seq<Var>, done: nat)
    requires arms.Arm? && steps1 <= steps && Extends(labels1, labels, k)
    requires var arm := FlattenArm(arms, at, scope, done);
      && |steps1| == at + |arm|
      && Yields(steps1, at, labels1[MatchDone(k) := done], arm)
      && Yields(steps, at + |arm|, labels[MatchDone(k) := done], FlattenArms(arms.rest, at + |arm|, scope, done))
    requires MatchDone(k) !in labels1 && MatchDone(k) !in labels
    requires MatchArm(k, idx) in labels1 && labels1[MatchArm(k, idx)] == at
    requires ArmsAt(arms.rest, k, idx + 1, |steps1|, labels)
    ensures Yields(steps, at, labels[MatchDone(k) := done], FlattenArms(arms, at, scope, done))
    ensures ArmsAt(arms, k, idx, at, labels)
  {
    hide Yields, FlattenArm, FlattenArms, SizeCode, SizeArms;
    assert FlattenArms(arms, at, scope, done)
        == FlattenArm(arms, at, scope, done) + FlattenArms(arms.rest, |steps1|, scope, done) by {
      UnfoldArms(arms, at, scope, done);
    }
    var arm, linked1, linked := FlattenArm(arms, at, scope, done), labels1[MatchDone(k) := done], labels[MatchDone(k) := done];
    DefineBoth(labels1, labels, MatchDone(k), done, k);
    YieldsLater(steps1, at, linked1, arm, steps, linked, k);
    YieldsJoin(steps, at, linked, arm, FlattenArms(arms.rest, at + |arm|, scope, done));
  }

  lemma UnfoldArms(arms: Arms, at: nat, scope: seq<Var>, done: nat)
    requires arms.Arm?
    ensures var arm := FlattenArm(arms, at, scope, done);
            FlattenArms(arms, at, scope, done) == arm + FlattenArms(arms.rest, at + |arm|, scope, done)
  {}

  lemma MatchYields(
    steps: seq<Emitted>, k: nat, labels: Labels, tag: Env -> string, arms: Arms, scope: seq<Var>, pending: seq<Var>)
    requires k < |steps| && steps[k] == Emitted(scope, pending, SwitchTo(tag, ArmLabels(arms, k, 1)))
    requires ArmsAt(arms, k, 1, k + 1, labels)
    requires Yields(steps, k + 1, labels, FlattenArms(arms, k + 1, scope + pending, k + 1 + SizeArms(arms)))
    ensures Yields(steps, k, labels, Flatten(Match(tag, arms), k, scope, pending))
  {
    hide Yields, FlattenArms;
    var test := Step(scope, pending, Switch(tag, Targets(arms, k + 1)));
    SwitchResolves(arms, k, 1, k + 1, labels);
    assert Resolve(steps[k], labels).action.arms == Targets(arms, k + 1);
    OneYields(steps, k, labels, test);
    YieldsJoin(steps, k, labels, [test], FlattenArms(arms, k + 1, scope + pending, k + 1 + SizeArms(arms)));
  }

  class Visitor {
    var steps: seq<Emitted>
    var labels: Labels
    var localVars: seq<Var>
    var nextStepInitVars: seq<Var>

    ghost predicate Valid()
      reads this
    {
      forall l | l in labels :: l.step < |steps|
    }

    constructor ()
      ensures Valid() && steps == [] && labels == map[] && localVars == [] && nextStepInitVars == []
    {
      steps, labels, localVars, nextStepInitVars := [], map[], [], [];
    }

    method PrintHeader(code: Instr)
      requires Valid()
      modifies this
      ensures Valid() && labels == old(labels)
      ensures steps == old(steps) + [Emitted(old(localVars), old(nextStepInitVars), code)]
      ensures localVars == old(localVars + nextStepInitVars) && nextStepInitVars == []
    {
      steps := steps + [Emitted(localVars, nextStepInitVars, code)];
      localVars := localVars + nextStepInitVars;
      nextStepInitVars := [];
    }

    /** Returns false where the generator aborts. */
    method Visit(node: Node) returns (ok: bool)
      requires Valid()
      modifies this
      ensures ok == Accepts(node, |old(nextStepInitVars)|)
      ensures ok ==> Valid() && old(steps) <= steps && Extends(old(labels), labels, |old(steps)|)
      ensures ok ==> |steps| == |old(steps)| + Size(node)
      ensures ok ==> (localVars, nextStepInitVars) == After(Size(node), old(localVars), old(nextStepInitVars))
      ensures ok ==>
        Yields(steps, |old(steps)|, labels, Flatten(node, |old(steps)|, old(localVars), old(nextStepInitVars)))
      decreases node, 2
    {
      match node
      case Stmt(run) =>
        PrintHeader(Run(run));
        ok := true;
      case If(_, _, _) => ok := VisitIf(node);
      case Block(vars, code) => ok := VisitBlock(vars, code);
      case Match(tag, arms) => ok := VisitMatch(tag, arms);
    }

    method VisitIf(node: Node) returns (ok: bool)
      requires Valid() && node.If?
      modifies this
      ensures ok == Accepts(node, |old(nextStepInitVars)|)
      ensures ok ==> Valid() && old(steps) <= steps && Extends(old(labels), labels, |old(steps)|)
      ensures ok ==> |steps| == |old(steps)| + Size(node)
      ensures ok ==> (localVars, nextStepInitVars) == After(Size(node), old(localVars), old(nextStepInitVars))
      ensures ok ==>
        Yields(steps, |old(steps)|, labels, Flatten(node, |old(steps)|, old(localVars), old(nextStepInitVars)))
      decreases node, 1
    {
      hide Yields, Flatten, Extends, ResolvesTo;
      var k := |steps|;
      ghost var inner, labels0 := localVars + nextStepInitVars, labels;
      PrintHeader(BranchTo(node.cond, IfYes(k), IfNo(k)));
      labels := labels[IfYes(k) := |steps|];
      Define(labels0, IfYes(k), k + 1, k);
      ghost var labels1, test := labels, steps[k];
      ok := VisitYes(node, k);
      if !ok { return; }
      ghost var steps3, labels3, onNo := steps, labels, |steps|;
      ok := Visit(node.no);
      if !ok { return; }
      assert inner + [] == inner;
      ghost var labels4 := labels;
      labels := labels[IfDone(k) := |steps|];
      Untouched(labels3, labels4, onNo, IfYes(k));
      Untouched(labels3, labels4, onNo, IfNo(k));
      Untouched(labels3, labels4, onNo, IfDone(k));
      Define(labels4, IfDone(k), |steps|, k);
      ExtendsTwice(labels3, labels4, labels, onNo, k);
      ExtendsTwice(labels1, labels3, labels, k, k);
      ExtendsTwice(labels0, labels1, labels, k, k);
      YieldsLater(steps3, k + 1, labels3, Flatten(node.yes, k + 1, inner, []), steps, labels, k);
      YieldsLater(steps, onNo, labels4, Flatten(node.no, onNo, inner, []), steps, labels, k);
      assert steps[k] == test && steps[onNo - 1] == steps3[onNo - 1];
      BranchResolves(old(localVars), old(nextStepInitVars), node.cond, IfYes(k), IfNo(k), labels);
      JumpResolves(inner, IfDone(k), labels);
      IfYields(steps, k, labels, node, old(localVars), old(nextStepInitVars));
    }

    /** The `yes` part of the if at step `k`, and the jump over its `no` part. */
    method VisitYes(node: Node, k: nat) returns (ok: bool)
      requires Valid() && node.If? && |steps| == k + 1 && nextStepInitVars == []
      requires IfNo(k) !in labels && IfDone(k) !in labels
      modifies this
      ensures ok == Accepts(node.yes, 0)
      ensures ok ==> Valid() && old(steps) <= steps && |steps| == k + 2 + Size(node.yes)
      ensures ok ==> localVars == old(localVars) && nextStepInitVars == []
      ensures ok ==> Extends(old(labels), labels, k)
      ensures ok ==> IfNo(k) in labels && labels[IfNo(k)] == |steps| && IfDone(k) !in labels
      ensures ok ==> forall l | l in old(labels) :: l in labels && labels[l] == old(labels)[l]
      ensures ok ==> Yields(steps, k + 1, labels, Flatten(node.yes, k + 1, old(localVars), []))
      ensures ok ==> steps[|steps| - 1] == Emitted(old(localVars), [], JumpTo(IfDone(k)))
      decreases node, 0
    {
      hide Yields, Flatten;
      ok := Visit(node.yes);
      if !ok { return; }
      assert localVars + [] == localVars;
      ghost var steps2, labels2 := steps, labels;
      PrintHeader(JumpTo(IfDone(k)));
      labels := labels[IfNo(k) := |steps|];
      Untouched(old(labels), labels2, k + 1, IfNo(k));
      Untouched(old(labels), labels2, k + 1, IfDone(k));
      YieldsLater(steps2, k + 1, labels2, Flatten(node.yes, k + 1, old(localVars), []), steps, labels, k);
    }

    method VisitBlock(vars: seq<Var>, code: Code) returns (ok: bool)
      requires Valid()
      modifies this
      ensures ok == AcceptsBlock(vars, code, |old(nextStepInitVars)|)
      ensures ok ==> Valid() && old(steps) <= steps && Extends(old(labels), labels, |old(steps)|)
      ensures ok ==> |steps| == |old(steps)| + SizeCode(code)
      ensures ok ==> (localVars, nextStepInitVars) == After(SizeCode(code), old(localVars), old(nextStepInitVars))
      ensures ok ==>
        Yields(steps, |old(steps)|, labels,
               FlattenCode(code, |old(steps)|, old(localVars), old(nextStepInitVars) + vars))
      decreases code, 2
    {
      var save := |localVars|;
      nextStepInitVars := nextStepInitVars + vars;
      ok := VisitCode(code);
      if !ok { return; }
      ok := save + |vars| == |localVars|;
      if ok {
        localVars := localVars[..|localVars| - |vars|];
        assert localVars == old(localVars);
        if SizeCode(code) == 0 { assert nextStepInitVars == old(nextStepInitVars); }
        else { assert localVars == old(localVars + nextStepInitVars); }
      }
    }

    method VisitCode(code: Code) returns (ok: bool)
      requires Valid()
      modifies this
      ensures ok == AcceptsCode(code, |old(nextStepInitVars)|)
      ensures ok ==> Valid() && old(steps) <= steps && Extends(old(labels), labels, |old(steps)|)
      ensures ok ==> |steps| == |old(steps)| + SizeCode(code)
      ensures ok ==> (localVars, nextStepInitVars) == After(SizeCode(code), old(localVars), old(nextStepInitVars))
      ensures ok ==>
        Yields(steps, |old(steps)|, labels, FlattenCode(code, |old(steps)|, old(localVars), old(nextStepInitVars)))
      decreases code, 1
    {
      ok := true;
      if code.Cons? {
        ghost var k, scope, pending := |steps|, localVars, nextStepInitVars;
        ok := Visit(code.head);
        if !ok { return; }
        ghost var steps1, labels1, scope1, pending1 := steps, labels, localVars, nextStepInitVars;
        ok := VisitCode(code.tail);
        if !ok { return; }
        assert scope + pending + [] == scope + pending;
        YieldsLater(steps1, k, labels1, Flatten(code.head, k, scope, pending), steps, labels, |steps1|);
        YieldsJoin(steps, k, labels, Flatten(code.head, k, scope, pending),
                   FlattenCode(code.tail, |steps1|, scope1, pending1));
      }
    }

    method VisitMatch(tag: Env -> string, arms: Arms) returns (ok: bool)
      requires Valid()
      modifies this
      ensures ok == AcceptsArms(arms)
      ensures ok ==> Valid() && old(steps) <= steps && Extends(old(labels), labels, |old(steps)|)
      ensures ok ==> |steps| == |old(steps)| + 1 + SizeArms(arms)
      ensures ok ==> localVars == old(localVars + nextStepInitVars) && nextStepInitVars == []
      ensures ok ==>
        Yields(steps, |old(steps)|, labels,
               Flatten(Match(tag, arms), |old(steps)|, old(localVars), old(nextStepInitVars)))
      decreases arms, 2
    {
      hide Yields, Extends, FlattenArms;
      var k := |steps|;
      ghost var inner, labels0 := localVars + nextStepInitVars, labels;
      PrintHeader(SwitchTo(tag, ArmLabels(arms, k, 1)));
      ghost var test, done := steps[k], k + 1 + SizeArms(arms);
      ok := VisitArms(arms, k, 1, done);
      if !ok { return; }
      ghost var labels1 := labels;
      labels := labels[MatchDone(k) := |steps|];
      Define(labels1, MatchDone(k), |steps|, k);
      ExtendsTwice(labels0, labels1, labels, k, k);
      assert steps[k] == test;
      ArmsAtLater(arms, k, 1, k + 1, labels1, labels, k);
      MatchYields(steps, k, labels, tag, arms, old(localVars), old(nextStepInitVars));
    }

    /** The arms of the match at step `k`, from the one with index `idx` on. */
    method VisitArms(arms: Arms, k: nat, idx: nat, ghost done: nat) returns (ok: bool)
      requires Valid() && k < |steps| && nextStepInitVars == []
      requires MatchDone(k) !in labels && forall i | i >= idx :: MatchArm(k, i) !in labels
      modifies this
      ensures ok == AcceptsArms(arms)
      ensures ok ==> Valid() && old(steps) <= steps && |steps| == |old(steps)| + SizeArms(arms)
      ensures ok ==> localVars == old(localVars) && nextStepInitVars == []
      ensures ok ==> Extends(old(labels), labels, k) && MatchDone(k) !in labels
      ensures ok ==> ArmsAt(arms, k, idx, |old(steps)|, labels)
      ensures ok ==>
        Yields(steps, |old(steps)|, labels[MatchDone(k) := done],
               FlattenArms(arms, |old(steps)|, old(localVars), done))
      decreases arms, 1
    {
      ok := true;
      if arms.Arm? {
        hide Yields, Extends, FlattenArm;
        ok := VisitArm(arms, k, idx, done);
        if !ok { return; }
        ghost var at, steps1, labels1, arm := |steps|, steps, labels, FlattenArm(arms, |old(steps)|, localVars, done);
        ok := VisitArms(arms.rest, k, idx + 1, done);
        if !ok { return; }
        ExtendsTwice(old(labels), labels1, labels, k, k);
        ArmsJoin(steps1, labels1, steps, labels, arms, k, idx, |old(steps)|, localVars, done);
      }
    }

    /** One arm of the match at step `k`: its label, its block, and the jump past the later arms. */
    method VisitArm(arms: Arms, k: nat, idx: nat, ghost done: nat) returns (ok: bool)
      requires arms.Arm? && Valid() && k < |steps| && nextStepInitVars == []
      requires MatchDone(k) !in labels && forall i | i >= idx :: MatchArm(k, i) !in labels
      modifies this
      ensures ok == AcceptsBlock(arms.vars, arms.body, 0)
      ensures ok ==>
        Valid() && old(steps) <= steps && |steps| == |old(steps)| + |FlattenArm(arms, |old(steps)|, localVars, done)|
      ensures ok ==> localVars == old(localVars) && nextStepInitVars == []
      ensures ok ==> Extends(old(labels), labels, k) && MatchDone(k) !in labels
      ensures ok ==> MatchArm(k, idx) in labels && labels[MatchArm(k, idx)] == |old(steps)|
      ensures ok ==> forall i | i > idx :: MatchArm(k, i) !in labels
      ensures ok ==>
        Yields(steps, |old(steps)|, labels[MatchDone(k) := done], FlattenArm(arms, |old(steps)|, localVars, done))
      decreases arms, 0
    {
      hide Yields, FlattenCode;
      var at := |steps|;
      ghost var scope := localVars;
      labels := labels[MatchArm(k, idx) := at];
      assert localVars + [] == localVars && [] + arms.vars == arms.vars;
      ok := VisitBlock(arms.vars, arms.body);
      if !ok { return; }
      ghost var steps1, labels1, flat := steps, labels, FlattenCode(arms.body, at, scope, arms.vars);
      ghost var linked := labels[MatchDone(k) := done];
      if arms.rest.Arm? {
        PrintHeader(JumpTo(MatchDone(k)));
        YieldsLater(steps1, at, labels1, flat, steps, linked, k);
        OneYields(steps, |steps1|, linked, Step(scope, [], Goto(done)));
        YieldsJoin(steps, at, linked, flat, [Step(scope, [], Goto(done))]);
      } else {
        YieldsLater(steps1, at, labels1, flat, steps, linked, k);
        assert flat + [] == flat;
      }
    }

    method VisitFn(fn: Fn) returns (ok: bool)
      requires Valid() && localVars == [] && nextStepInitVars == []
      modifies this
      ensures ok == AcceptsFn(fn)
      ensures ok ==> Valid() && old(steps) <= steps && Extends(old(labels), labels, |old(steps)|)
      ensures ok ==> |steps| == |old(steps)| + SizeCode(fn.code) && localVars == [] && nextStepInitVars == []
      ensures ok ==> Yields(steps, |old(steps)|, labels, FlattenFn(fn, |old(steps)|))
    {
      hide Yields, Extends, FlattenCode, AcceptsCode, SizeCode, Decls;
      assert [] + Decls(fn) == Decls(fn);
      ok := VisitBlock(Decls(fn), fn.code);
    }

    /** Emits every function of a fiber; `starts[f]` is the step a call of function `f` jumps to. */
    method VisitProgram(p: Program) returns (ok: bool, starts: seq<nat>)
      requires steps == [] && labels == map[] && localVars == [] && nextStepInitVars == []
      modifies this
      ensures ok == AcceptsProgram(p)
      ensures ok ==> |starts| == |p.fns| && forall f | 0 <= f < |starts| :: starts[f] == Start(p.fns, f)
      ensures ok ==> Yields(steps, 0, labels, Link(p.fns, |p.fns|))
      ensures ok ==> |steps| == Start(p.fns, |p.fns|) && localVars == [] && nextStepInitVars == []
    {
      hide Extends, FlattenFn, AcceptsFn, SizeCode, ResolvesTo, Yields, Link, Valid, Start;
      ok, starts := true, [];
      NothingYet(p.fns);
      var f := 0;
      while f < |p.fns|
        invariant 0 <= f <= |p.fns| && ok && Valid() && localVars == [] && nextStepInitVars == []
        invariant |starts| == f && forall g | 0 <= g < f :: starts[g] == Start(p.fns, g)
        invariant forall g | 0 <= g < f :: AcceptsFn(p.fns[g])
        invariant |steps| == Start(p.fns, f) && Yields(steps, 0, labels, Link(p.fns, f))
      {
        starts := starts + [|steps|];
        ok := VisitNext(p.fns, f);
        if !ok { return; }
        forall g | 0 <= g < f + 1 ensures AcceptsFn(p.fns[g]) { if g < f { assert AcceptsFn(p.fns[g]); } }
        f := f + 1;
      }
    }

    lemma NothingYet(fns: seq<Fn>)
      requires steps == [] && labels == map[] && localVars == [] && nextStepInitVars == []
      ensures Valid() && Start(fns, 0) == 0 && Yields(steps, 0, labels, Link(fns, 0))
    {}

    /** Emits one more function behind those that are there. */
    method VisitNext(fns: seq<Fn>, f: nat) returns (ok: bool)
      requires f < |fns| && Valid() && localVars == [] && nextStepInitVars == []
      requires |steps| == Start(fns, f) && Yields(steps, 0, labels, Link(fns, f))
      modifies this
      ensures ok == AcceptsFn(fns[f])
      ensures ok ==> Valid() && localVars == [] && nextStepInitVars == []
      ensures ok ==> |steps| == Start(fns, f + 1) && Yields(steps, 0, labels, Link(fns, f + 1))
    {
      hide Extends, FlattenFn, AcceptsFn, SizeCode, ResolvesTo, Yields, Link, Start;
      LinkNext(fns, f);
      ghost var steps0, labels0 := steps, labels;
      ok := VisitFn(fns[f]);
      if ok {
        YieldsLater(steps0, 0, labels0, Link(fns, f), steps, labels, |steps0|);
        YieldsJoin(steps, 0, labels, Link(fns, f), FlattenFn(fns[f], |steps0|));
      }
    }
  }
}
