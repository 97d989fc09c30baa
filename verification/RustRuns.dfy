/**
 * Whole runs: whatever a runtime answers, the stack machine and the interpreter tell it the same and end alike.
 */
module RustRuns {
  import opened Wrappers
  import opened RustIr
  import opened RustLowering
  import opened RustSimulation
  import opened RustRefinement

  /** The fiber runs on, or its runtime wakes it: it binds variables of the waiting function and names its next step. */
  datatype Move = Go | Answer(func: FuncRef, binds: seq<(string, Value)>, next: string)

  predicate Allowed(ir: Ir, c: Config, m: Move) {
    if m.Go? then !c.parked else CanResume(ir, c, m.binds, m.next) && m.func == Top(c).func
  }

  function Visible(ev: Event): seq<Event> {
    if ev.Silent? then [] else [ev]
  }

  datatype Trace<S> = Stuck | Trace(end: S, events: seq<Event>)

  /** A run of the interpreter, one step at a time. It is stuck where a move is not allowed. */
  function Interpreted(ir: Ir, heap: Heap, c: Config, ms: seq<Move>): Trace<Config>
    requires Valid(ir, heap) && ValidConfig(ir, c)
    decreases |ms|
  {
    if ms == [] then Trace(c, [])
    else if !Allowed(ir, c, ms[0]) then Stuck
    else
      MoveValid(ir, heap, c, ms[0]);
      var (c', ev) := Moved(ir, heap, c, ms[0]);
      match Interpreted(ir, heap, c', ms[1..])
      case Stuck => Stuck
      case Trace(end, events) => Trace(end, Visible(ev) + events)
  }

  function Moved(ir: Ir, heap: Heap, c: Config, m: Move): (Config, Event)
    requires Valid(ir, heap) && ValidConfig(ir, c) && Allowed(ir, c, m)
  {
    if m.Go? then Interpret(ir, heap, c) else (Resume(c, m.binds, m.next), Silent)
  }

  /** A run of the stack machine; a panic leaves it stuck. */
  function Executed(ir: Ir, heap: Heap, stack: seq<Entry>, ms: seq<Move>): Trace<seq<Entry>>
    decreases |ms|
  {
    if ms == [] then Trace(stack, [])
    else
      match if ms[0].Go? then Turn(ir, heap, stack) else Wake(stack, ms[0].func, ms[0].binds, ms[0].next)
      case Panicked => Stuck
      case Ran(stack', ev) =>
        match Executed(ir, heap, stack', ms[1..])
        case Stuck => Stuck
        case Trace(end, events) => Trace(end, Visible(ev) + events)
  }

  // ---------- Waking up ----------

  lemma ResumeValid(ir: Ir, heap: Heap, c: Config, binds: seq<(string, Value)>, next: string)
    requires Valid(ir, heap) && ValidConfig(ir, c) && CanResume(ir, c, binds, next)
    ensures ValidConfig(ir, Resume(c, binds, next))
    ensures Aligned(ir, c) ==> Aligned(ir, Resume(c, binds, next))
    ensures Wake(StackOf(ir, c), Top(c).func, binds, next) == Ran(StackOf(ir, Resume(c, binds, next)), Silent)
  {
    hide Names, NameSet, Vals, Below, Dropped, Assign, AssignLocals;
    var k, fr, c' := |c.frames| - 1, Top(c), Resume(c, binds, next);
    assert ValidFrame(ir, fr) && ValidFunc(ir, heap, fr.func, ir[fr.func]);
    AssignLocalsInFrame(Below(ir, c, k), ir[fr.func], fr.env, binds);
    StackWithTop(ir, c.(parked := false), c'.frames[k]);
    assert WithTop(c.(parked := false), c'.frames[k]) == c';
    BelowSame(ir, c.(parked := false), c, k);
    assert StackOf(ir, c) == Below(ir, c, k) + FrameVals(ir, fr);
  }

  lemma MoveValid(ir: Ir, heap: Heap, c: Config, m: Move)
    requires Valid(ir, heap) && ValidConfig(ir, c) && Allowed(ir, c, m)
    ensures ValidConfig(ir, Moved(ir, heap, c, m).0)
  {
    hide ValidConfig, Interpret, Resume;
    if m.Go? { InterpretValid(ir, heap, c); } else { ResumeValid(ir, heap, c, m.binds, m.next); }
  }

  // ---------- Runs agree ----------

  lemma PairedValid(ir: Ir, heap: Heap, c: Config)
    requires Valid(ir, heap) && ValidConfig(ir, c) && !c.parked
    ensures ValidConfig(ir, Paired(ir, heap, c).0)
  {
    hide ValidConfig, Interpret, Valid;
    InterpretValid(ir, heap, c);
    if AtDirectReturn(ir, c) { DirectPair(ir, heap, c); InterpretValid(ir, heap, Interpret(ir, heap, c).0); }
  }

  function Advanced(ir: Ir, heap: Heap, c: Config, m: Move): (Config, Event)
    requires Valid(ir, heap) && ValidConfig(ir, c) && Allowed(ir, c, m)
  {
    if m.Go? then Paired(ir, heap, c) else (Resume(c, m.binds, m.next), Silent)
  }

  lemma AdvancedValid(ir: Ir, heap: Heap, c: Config, m: Move)
    requires Valid(ir, heap) && ValidConfig(ir, c) && Allowed(ir, c, m)
    ensures ValidConfig(ir, Advanced(ir, heap, c, m).0)
  {
    hide ValidConfig, Paired, Resume;
    if m.Go? { PairedValid(ir, heap, c); } else { ResumeValid(ir, heap, c, m.binds, m.next); }
  }

  /** One move of the machine, whichever it is. */
  lemma MachineMove(ir: Ir, heap: Heap, c: Config, m: Move)
    requires Valid(ir, heap) && ValidConfig(ir, c) && Aligned(ir, c) && Allowed(ir, c, m)
    ensures var (c', ev) := Advanced(ir, heap, c, m);
            && ValidConfig(ir, c') && Aligned(ir, c')
            && (if m.Go? then Turn(ir, heap, StackOf(ir, c)) else Wake(StackOf(ir, c), m.func, m.binds, m.next))
               == Ran(StackOf(ir, c'), ev)
  {
    hide ValidConfig, Paired, Resume, Aligned, StackOf, Turn, Wake;
    if m.Go? { TurnRefinesStep(ir, heap, c); } else { ResumeValid(ir, heap, c, m.binds, m.next); }
  }

  lemma Prepend(ir: Ir, heap: Heap, c: Config, m: Move, ms: seq<Move>)
    requires Valid(ir, heap) && ValidConfig(ir, c) && Aligned(ir, c) && Allowed(ir, c, m)
    ensures var (c', ev) := Advanced(ir, heap, c, m);
            && ValidConfig(ir, c') && Aligned(ir, c')
            && Executed(ir, heap, StackOf(ir, c), [m] + ms) ==
               match Executed(ir, heap, StackOf(ir, c'), ms)
               case Stuck => Stuck
               case Trace(end, events) => Trace(end, Visible(ev) + events)
  {
    MachineMove(ir, heap, c, m);
    hide ValidConfig, Advanced, Aligned, StackOf, Turn, Wake;
    assert ([m] + ms)[1..] == ms;
  }

  /** The interpreter is where the machine is, or between the two steps that the machine does at once. */
  ghost predicate CaughtUp(ir: Ir, heap: Heap, c: Config, c': Config)
    requires Valid(ir, heap) && ValidConfig(ir, c)
  {
    c' == c || (!c.parked && Interpret(ir, heap, c) == (c', Silent))
  }

  /**
   * Every run of the interpreter is matched by a run of the machine with the same visible events. The machine ends
   * with the stack of the interpreter's last configuration, or of the one a silent step later.
   */
  lemma {:induction false} MachineFollows(ir: Ir, heap: Heap, c: Config, ms: seq<Move>) returns (ms': seq<Move>, c': Config)
    requires Valid(ir, heap) && ValidConfig(ir, c) && Aligned(ir, c) && Interpreted(ir, heap, c, ms).Trace?
    ensures var run := Interpreted(ir, heap, c, ms);
            && ValidConfig(ir, run.end) && ValidConfig(ir, c') && CaughtUp(ir, heap, run.end, c')
            && Executed(ir, heap, StackOf(ir, c), ms') == Trace(StackOf(ir, c'), run.events)
    decreases |ms|
  {
    hide ValidConfig, Aligned, StackOf, Interpret, Paired, Valid, AtDirectReturn, Resume;
    if ms == [] {
      return [], c;
    }
    var m := ms[0];
    MoveValid(ir, heap, c, m);
    var c1 := Moved(ir, heap, c, m).0;
    if m.Go? && AtDirectReturn(ir, c) {
      DirectPair(ir, heap, c);
      var c2 := Paired(ir, heap, c).0;
      if |ms| == 1 {
        Prepend(ir, heap, c, Go, []);
        return [Go], c2;
      }
      assert ms[1..][0] == Go;
      Prepend(ir, heap, c, Go, []);
      var ms2, c'' := MachineFollows(ir, heap, c2, ms[1..][1..]);
      Prepend(ir, heap, c, Go, ms2);
      return [Go] + ms2, c'';
    }
    SinglePair(ir, heap, c, m);
    Prepend(ir, heap, c, m, []);
    var ms1, c'' := MachineFollows(ir, heap, c1, ms[1..]);
    Prepend(ir, heap, c, m, ms1);
    return [m] + ms1, c'';
  }

  lemma DirectPair(ir: Ir, heap: Heap, c: Config)
    requires Valid(ir, heap) && ValidConfig(ir, c) && !c.parked && AtDirectReturn(ir, c)
    ensures var (c1, ev) := Interpret(ir, heap, c);
            ValidConfig(ir, c1) && ev == Silent && !c1.parked && Interpret(ir, heap, c1) == Paired(ir, heap, c)
    ensures Paired(ir, heap, c).1 == Silent
  {
    InterpretValid(ir, heap, c);
    DirectReturn(ir, heap, c);
    hide ValidConfig, Valid;
  }

  lemma SinglePair(ir: Ir, heap: Heap, c: Config, m: Move)
    requires Valid(ir, heap) && ValidConfig(ir, c) && Allowed(ir, c, m) && !(m.Go? && AtDirectReturn(ir, c))
    ensures Advanced(ir, heap, c, m) == Moved(ir, heap, c, m)
  {
    hide ValidConfig, Valid, Interpret;
  }

  /** The moves that a runtime may make while the machine runs: it answers just when the fiber waits, for its function. */
  predicate Obeyed(ir: Ir, heap: Heap, c: Config, ms: seq<Move>)
    requires Valid(ir, heap) && ValidConfig(ir, c)
    decreases |ms|
  {
    ms == [] ||
    (Allowed(ir, c, ms[0]) && (AdvancedValid(ir, heap, c, ms[0]); Obeyed(ir, heap, Advanced(ir, heap, c, ms[0]).0, ms[1..])))
  }

  /**
   * The machine never panics, whatever its runtime answers, and every run of it is a run of the interpreter: it has
   * the same visible events and ends with the stack of the interpreter's last configuration.
   */
  lemma {:induction false} InterpreterFollows(ir: Ir, heap: Heap, c: Config, ms: seq<Move>) returns (ms': seq<Move>)
    requires Valid(ir, heap) && ValidConfig(ir, c) && Aligned(ir, c) && Obeyed(ir, heap, c, ms)
    ensures var run := Interpreted(ir, heap, c, ms');
            && run.Trace? && ValidConfig(ir, run.end) && Aligned(ir, run.end)
            && Executed(ir, heap, StackOf(ir, c), ms) == Trace(StackOf(ir, run.end), run.events)
    decreases |ms|
  {
    hide ValidConfig, Aligned, StackOf, Interpret, Paired, Valid, AtDirectReturn, Resume;
    if ms == [] {
      return [];
    }
    var m := ms[0];
    AdvancedValid(ir, heap, c, m);
    assert ms == [m] + ms[1..];
    Prepend(ir, heap, c, m, ms[1..]);
    var ms1 := InterpreterFollows(ir, heap, Advanced(ir, heap, c, m).0, ms[1..]);
    MoveValid(ir, heap, c, m);
    if m.Go? && AtDirectReturn(ir, c) {
      DirectPair(ir, heap, c);
      assert ([Go] + ms1)[1..] == ms1 && ([Go, Go] + ms1)[1..] == [Go] + ms1;
      return [Go, Go] + ms1;
    }
    SinglePair(ir, heap, c, m);
    assert ([m] + ms1)[1..] == ms1;
    return [m] + ms1;
  }

  lemma PrepareIsStart(ir: Ir, heap: Heap, ref: FuncRef, args: seq<Value>, placeholder: Value)
    requires Valid(ir, heap) && ref in ir && |args| == |ir[ref].params|
    ensures ValidConfig(ir, Start(ir, ref, args, placeholder)) && Aligned(ir, Start(ir, ref, args, placeholder))
    ensures StackOf(ir, Start(ir, ref, args, placeholder)) == Prepare(ir[ref], ref, args, placeholder)
  {
    hide CallEnv, FreshFrame, FrameVals, Dropped;
    CalleeValid(ir, heap, ref, args, None);
    FreshVals(ir, heap, ref, args, None);
    assert ValidFunc(ir, heap, ref, ir[ref]);
  }

  /** A call of the interpreter that comes to an end ends on the machine too, with nothing but its result left. */
  lemma CallsAgree(ir: Ir, heap: Heap, ref: FuncRef, args: seq<Value>, placeholder: Value, ms: seq<Move>)
    returns (ms': seq<Move>)
    requires Valid(ir, heap) && ref in ir && |args| == |ir[ref].params|
    requires ValidConfig(ir, Start(ir, ref, args, placeholder))
    requires var run := Interpreted(ir, heap, Start(ir, ref, args, placeholder), ms);
             run.Trace? && run.end.frames == []
    ensures var run := Interpreted(ir, heap, Start(ir, ref, args, placeholder), ms);
            Executed(ir, heap, Prepare(ir[ref], ref, args, placeholder), ms')
            == Trace(if run.end.result.Some? then [Val("ret", run.end.result.value)] else [], run.events)
  {
    hide Executed, Interpreted, Valid, Prepare, Start;
    PrepareIsStart(ir, heap, ref, args, placeholder);
    var c';
    ms', c' := MachineFollows(ir, heap, Start(ir, ref, args, placeholder), ms);
  }
}
