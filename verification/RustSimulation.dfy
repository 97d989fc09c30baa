/**
 * The stack that stands for a configuration of the interpreter: offsets are names, slots are variables, and what is done
 * to a slot of the current frame is done to a variable.
 */
module RustSimulation {
  import opened Wrappers
  import opened RustIr
  import opened RustLowering

  // ---------- The stack of a configuration ----------

  function Vals(names: seq<string>, env: Env): (r: seq<Entry>)
    requires Among(names, env.Keys)
    ensures |r| == |names| && AllVals(r)
  {
    seq(|names|, i requires 0 <= i < |names| => Val(names[i], env[names[i]]))
  }

  function FrameVals(ir: Ir, fr: Frame): (r: seq<Entry>)
    requires fr.func in ir && fr.env.Keys == NameSet(ir[fr.func])
    ensures |r| == |Names(ir[fr.func])| && AllVals(r)
  {
    Vals(Names(ir[fr.func]), fr.env)
  }

  function ResultSlot(c: Config): seq<Entry> {
    if c.result.Some? then [Val("ret", c.result.value)] else []
  }

  /** What lies below the variables of frame `k`: whole frames only, each with its continuation and return marker. */
  function Below(ir: Ir, c: Config, k: nat): seq<Entry>
    requires ValidConfig(ir, c) && k < |c.frames|
  {
    if k == 0 then ResultSlot(c) + [Retrn(Some(1))]
    else
      var caller := c.frames[k - 1];
      Below(ir, c, k - 1) + FrameVals(ir, caller)
      + [State(caller.func, caller.pc), Retrn(ReturnOffset(ir[caller.func], c.frames[k].bind))]
  }

  function StackOf(ir: Ir, c: Config): seq<Entry>
    requires ValidConfig(ir, c)
  {
    if c.frames == [] then ResultSlot(c)
    else
      Below(ir, c, |c.frames| - 1) + FrameVals(ir, Top(c))
      + if c.parked then [] else [State(Top(c).func, Top(c).pc)]
  }

  /** Every frame is at a step for which code was generated. */
  predicate Aligned(ir: Ir, c: Config)
    requires ValidConfig(ir, c)
  {
    forall i | 0 <= i < |c.frames| :: Target(ir[c.frames[i].func], c.frames[i].pc)
  }

  // ---------- Slots are names ----------

  lemma {:induction false} IndexOfDistinct(names: seq<string>, i: nat)
    requires Distinct(names) && i < |names|
    ensures IndexOf(names, names[i]) == Some(i)
  {
    if i > 0 { IndexOfDistinct(names[1..], i - 1); }
  }

  lemma SlotOf(f: Func, name: string)
    requires Distinct(Names(f)) && name in NameSet(f)
    ensures Slot(f, name) < |Names(f)| && Names(f)[Slot(f, name)] == name
    ensures ReturnOffset(f, Some(name)) == Some(|Names(f)| + 1 - Slot(f, name))
  {
    var i :| 0 <= i < |Names(f)| && Names(f)[i] == name;
    IndexOfDistinct(Names(f), i);
  }

  lemma LoadedIsSeen(ir: Ir, heap: Heap, fr: Frame)
    requires fr.func in ir && fr.env.Keys == NameSet(ir[fr.func]) && Distinct(Names(ir[fr.func]))
    ensures Loaded(heap, fr.func, ir[fr.func], FrameVals(ir, fr)) == Seen(heap, fr)
  {
    var f := ir[fr.func];
    var vars := FrameVals(ir, fr);
    ZipSpec(Names(f), Contents(vars));
    assert Zip(Names(f), Contents(vars)) == fr.env by {
      forall name | name in NameSet(f)
        ensures Zip(Names(f), Contents(vars))[name] == fr.env[name]
      {
        var i :| 0 <= i < |Names(f)| && Names(f)[i] == name;
      }
    }
  }

  lemma SetSlotInFrame(below: seq<Entry>, names: seq<string>, env: Env, above: seq<Entry>, i: nat, value: Value, label_: string)
    requires Among(names, env.Keys) && Distinct(names) && i < |names|
    ensures SetSlot(below + Vals(names, env) + above, |below| + i, value, label_)
         == below + Vals(names, env[names[i] := value]) + above
  {
    var s, t := below + Vals(names, env) + above, below + Vals(names, env[names[i] := value]) + above;
    var r := SetSlot(s, |below| + i, value, label_);
    forall j | 0 <= j < |r| ensures r[j] == t[j] {
      if |below| <= j < |below| + |names| { assert t[j] == Vals(names, env[names[i] := value])[j - |below|]; }
    }
  }

  lemma SetTopSlot(below: seq<Entry>, names: seq<string>, env: Env, i: nat, value: Value, label_: string)
    requires Among(names, env.Keys) && Distinct(names) && i < |names|
    ensures SetSlot(below + Vals(names, env), |below| + i, value, label_) == below + Vals(names, env[names[i] := value])
  {
    hide SetSlot, Vals;
    SetSlotInFrame(below, names, env, [], i, value, label_);
    assert below + Vals(names, env) + [] == below + Vals(names, env);
    assert below + Vals(names, env[names[i] := value]) + [] == below + Vals(names, env[names[i] := value]);
  }

  lemma {:induction false} AssignSlotsInFrame(below: seq<Entry>, f: Func, env: Env, binds: seq<Bind>, seen: Env)
    requires env.Keys == NameSet(f) && Distinct(Names(f)) && forall i | 0 <= i < |binds| :: binds[i].name in env
    ensures BindAll(env, binds, seen).Keys == NameSet(f)
    ensures AssignSlots(below + Vals(Names(f), env), |below|, SlotUpdates(f, binds, seen))
         == Some(below + Vals(Names(f), BindAll(env, binds, seen)))
    decreases |binds|
  {
    hide SetSlot, Vals, Names, Slot;
    if binds != [] {
      var name, value := binds[0].name, binds[0].value(seen);
      SlotOf(f, name);
      SetTopSlot(below, Names(f), env, Slot(f, name), value, "_");
      AssignSlotsInFrame(below, f, env[name := value], binds[1..], seen);
      assert SlotUpdates(f, binds, seen)[1..] == SlotUpdates(f, binds[1..], seen);
    }
  }

  /** Finding a variable from the top of the stack finds the current frame's. */
  lemma FindLastInFrame(below: seq<Entry>, names: seq<string>, env: Env, i: nat)
    requires Among(names, env.Keys) && Distinct(names) && i < |names|
    ensures FindLast(below + Vals(names, env), names[i]) == Some(|below| + i)
  {
    hide FindLast, Vals, Among, Distinct;
    OnlyOne(names, env, i);
    LastOfFrame(below, Vals(names, env), names[i], i);
  }

  lemma OnlyOne(names: seq<string>, env: Env, i: nat)
    requires Among(names, env.Keys) && Distinct(names) && i < |names|
    ensures Vals(names, env)[i].name == names[i]
    ensures forall j | i < j < |names| :: Vals(names, env)[j].name != names[i]
  {
    forall j | i < j < |names| ensures Vals(names, env)[j].name != names[i] {
      assert Vals(names, env)[j].name == names[j];
    }
  }

  lemma LastOfFrame(below: seq<Entry>, vals: seq<Entry>, name: string, i: nat)
    requires AllVals(vals) && i < |vals| && vals[i].name == name
    requires forall j | i < j < |vals| :: vals[j].name != name
    ensures FindLast(below + vals, name) == Some(|below| + i)
  {
    hide FindLast;
    var s := below + vals;
    assert s[|below| + i] == vals[i];
    assert forall j | |below| + i < j < |s| :: s[j] == vals[j - |below|];
  }

  lemma {:induction false} AssignLocalsInFrame(below: seq<Entry>, f: Func, env: Env, binds: seq<(string, Value)>)
    requires env.Keys == NameSet(f) && Distinct(Names(f)) && forall i | 0 <= i < |binds| :: binds[i].0 in env
    ensures Assign(env, binds).Keys == NameSet(f)
    ensures AssignLocals(below + Vals(Names(f), env), binds) == Some(below + Vals(Names(f), Assign(env, binds)))
    decreases |binds|
  {
    hide FindLast, Names;
    if binds != [] {
      var (name, value) := binds[0];
      var i :| 0 <= i < |Names(f)| && Names(f)[i] == name;
      FindLastInFrame(below, Names(f), env, i);
      SetTopSlot(below, Names(f), env, i, value, name);
      assert (below + Vals(Names(f), env))[|below| + i] == Vals(Names(f), env)[i];
      AssignLocalsInFrame(below, f, env[name := value], binds[1..]);
    }
  }

  lemma {:induction false} AtSlotsAre(f: Func, env: Env, names: seq<string>)
    requires env.Keys == NameSet(f) && Distinct(Names(f)) && Among(names, env.Keys)
    ensures AtSlots(f, names, Vals(Names(f), env)) == Some(Values(names, env))
  {
    if names != [] {
      SlotOf(f, names[0]);
      AtSlotsAre(f, env, names[1..]);
      assert Values(names, env) == [env[names[0]]] + Values(names[1..], env);
    }
  }

  lemma FreshFrameIs(f: Func, args: seq<Value>)
    requires |args| == |f.params| && Distinct(Names(f))
    ensures CallEnv(f, args).Keys == NameSet(f)
    ensures FreshFrame(f, args) == Vals(Names(f), CallEnv(f, args))
  {
    ZipSpec(Names(f), args + seq(|f.locals|, i requires 0 <= i < |f.locals| => f.locals[i].default));
  }

  lemma {:induction false} LabelledIs(names: seq<string>, env: Env)
    requires Among(names, env.Keys)
    ensures Labelled(Vals(names, env)) == Listed(names, env)
  {
    if names != [] {
      LabelledIs(names[1..], env);
      assert Vals(names, env)[1..] == Vals(names[1..], env);
    }
  }

  /** `Let` writes the variable it names just when that is a local or the first parameter. */
  lemma LetSlotIsRight(f: Func, name: string)
    requires Distinct(Names(f)) && name in NameSet(f)
    ensures LetSlot(f, name) == Slot(f, name) <==> LetTarget(f, name)
  {
    hide IndexOf, Names;
    SlotOf(f, name);
    NamesAre(f);
    var k, locals := Slot(f, name), Names(f)[|f.params|..];
    if k >= |f.params| {
      assert Distinct(locals) by { DistinctDrop(Names(f), |f.params|); }
      IndexOfDistinct(locals, k - |f.params|);
      assert f.locals[k - |f.params|].name == locals[k - |f.params|] == name;
    } else {
      forall i | 0 <= i < |locals| ensures locals[i] != name {
        assert Names(f)[k] != Names(f)[|f.params| + i];
      }
    }
  }

  /** `Let` of any other parameter writes the first one. */
  lemma LetSlotIsFirst(f: Func, name: string)
    requires Distinct(Names(f)) && name in NameSet(f) && !LetTarget(f, name)
    ensures LetSlot(f, name) == 0 && |Names(f)| > 1 && Names(f)[0] != name
  {
    var k :| 0 <= k < |Names(f)| && Names(f)[k] == name;
    NamesAre(f);
    var locals := Names(f)[|f.params|..];
    forall i | 0 <= i < |locals| ensures locals[i] != name { assert f.locals[i].name != name; }
    assert k >= |f.params| ==> locals[k - |f.params|] == name;
  }

  lemma NamesAre(f: Func)
    ensures forall i | 0 <= i < |f.params| :: Names(f)[i] == f.params[i]
    ensures forall i | 0 <= i < |f.locals| :: Names(f)[|f.params|..][i] == f.locals[i].name
  {}

  lemma DistinctDrop(names: seq<string>, n: nat)
    requires Distinct(names) && n <= |names|
    ensures Distinct(names[n..])
  {}
}
