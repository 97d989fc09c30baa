/** The programs of the virtual-time runtime and what each does when it runs alone. */
module VirtualTasks {
  import opened Wrappers

  type Text(==, !new)

  datatype State =
    | Completed
    | DelayedBegin | DelayedExecute
    | DivisorsBegin | DivisorsIteration | DivisorsPrintAndMoveOn
    | FibonacciBegin | FibonacciCalculate | FibonacciStep | FibonacciResult
    | FactorialEntry | FactorialRecursiveCall | FactorialPostWrite | FactorialPostSleep | FactorialPostRecursiveCall
    | FactorialDone

  datatype Value =
    | DelayMs(ms: nat)
    | DelayMessage(text: Text)
    | FactorialInput(n: nat)
    | FactorialArgument(n: nat)
    | FactorialReturn(n: nat)

  datatype Entry = State(state: State) | Retrn(state: State) | Val(value: Value)

  datatype Heap = NoHeap | Divisors(n: nat, i: nat) | Fibonacci(n: nat, index: nat, a: nat, b: nat, delay: nat)

  /** What tasks write, as structured lines. */
  datatype Line =
    | Delayed(text: Text, ms: nat)
    | Divides(n: nat, i: nat)
    | NoMoreDivisors(n: nat)
    | FibSoFar(index: nat, n: nat, value: nat)
    | FibIs(n: nat, value: nat)
    | FactorialOf(n: nat)
    | FactorialIs(n: nat, value: nat)

  datatype StepResult =
    | Done
    | Next(entries: seq<Entry>)
    | Sleep(ms: nat, next: State)
    | Write(line: Line, next: State)
    | Return(value: Value)
    | Panic

  function LocalVars(s: State): nat {
    match s
    case FactorialEntry => 1
    case FactorialRecursiveCall => 1
    case FactorialPostWrite => 1
    case FactorialPostSleep => 1
    case FactorialPostRecursiveCall => 2
    case FactorialDone => 2
    case DelayedBegin => 2
    case DelayedExecute => 2
    case _ => 0
  }

  /** The largest divisor of `n` not above `i`, or 0. */
  function DivisorFrom(n: nat, i: nat): nat {
    if i == 0 || n % i == 0 then i else DivisorFrom(n, i - 1)
  }

  /** The search for the next divisor. */
  method NextDivisor(n: nat, from: nat) returns (i: nat)
    ensures i == DivisorFrom(n, from)
    ensures i <= from && (i > 0 ==> n % i == 0) && forall d | i < d <= from :: n % d != 0
  {
    i := from;
    while i > 0 && n % i != 0
      invariant i <= from && DivisorFrom(n, i) == DivisorFrom(n, from) && forall d | i < d <= from :: n % d != 0
    {
      i := i - 1;
    }
  }

  /** One step of a program on its local values, the topmost first, and its heap. */
  function GlobalStep(s: State, vars: seq<Value>, heap: Heap): (StepResult, Heap)
    requires |vars| == LocalVars(s)
  {
    match s
    case Completed => (Done, heap)
    case DelayedBegin =>
      if vars[1].DelayMs? then (Sleep(vars[1].ms, DelayedExecute), heap) else (Panic, heap)
    case DelayedExecute =>
      if vars[0].DelayMessage? && vars[1].DelayMs? then (Write(Delayed(vars[0].text, vars[1].ms), Completed), heap) else (Panic, heap)
    case DivisorsBegin =>
      if heap.Divisors? then (Next([State(DivisorsIteration)]), heap.(i := heap.n)) else (Panic, heap)
    case DivisorsIteration =>
      if !heap.Divisors? then (Panic, heap)
      else
        var i := DivisorFrom(heap.n, heap.i);
        if i == 0 then (Write(NoMoreDivisors(heap.n), Completed), heap)
        else (Sleep(i * 10, DivisorsPrintAndMoveOn), heap.(i := i))
    case DivisorsPrintAndMoveOn =>
      if heap.Divisors? && heap.i > 0 then (Write(Divides(heap.n, heap.i), DivisorsIteration), heap.(i := heap.i - 1)) else (Panic, heap)
    case FibonacciBegin =>
      if !heap.Fibonacci? then (Panic, heap)
      else if heap.n <= 1 then (Write(FibIs(heap.n, heap.n), Completed), heap)
      else (Next([State(FibonacciCalculate)]), heap.(index := 1, a := 0, b := 1))
    case FibonacciCalculate =>
      if !heap.Fibonacci? then (Panic, heap)
      else if heap.index >= heap.n then (Next([State(FibonacciResult)]), heap)
      else (Write(FibSoFar(heap.index, heap.n, heap.b), FibonacciStep), heap.(delay := 5 * heap.index))
    case FibonacciStep =>
      if !heap.Fibonacci? then (Panic, heap)
      else (Sleep(heap.delay, FibonacciCalculate), heap.(index := heap.index + 1, a := heap.b, b := heap.a + heap.b))
    case FibonacciResult =>
      if heap.Fibonacci? then (Write(FibIs(heap.n, heap.b), Completed), heap) else (Panic, heap)
    case FactorialEntry =>
      if !vars[0].FactorialInput? then (Panic, heap)
      else
        var n := vars[0].n;
        (Next([Val(FactorialInput(n)), Retrn(FactorialDone), Val(FactorialArgument(n)), State(FactorialRecursiveCall)]), heap)
    case FactorialRecursiveCall =>
      if vars[0].FactorialArgument? then (Write(FactorialOf(vars[0].n), FactorialPostWrite), heap) else (Panic, heap)
    case FactorialPostWrite =>
      if vars[0].FactorialArgument? then (Sleep(vars[0].n * 50, FactorialPostSleep), heap) else (Panic, heap)
    case FactorialPostSleep =>
      if !vars[0].FactorialArgument? then (Panic, heap)
      else if vars[0].n > 1 then
        (Next([Val(FactorialArgument(vars[0].n)), Retrn(FactorialPostRecursiveCall),
               Val(FactorialArgument(vars[0].n - 1)), State(FactorialRecursiveCall)]), heap)
      else (Return(FactorialReturn(1)), heap)
    case FactorialPostRecursiveCall =>
      if vars[0].FactorialReturn? && vars[1].FactorialArgument? then (Return(FactorialReturn(vars[0].n * vars[1].n)), heap)
      else (Panic, heap)
    case FactorialDone =>
      if vars[0].FactorialReturn? && vars[1].FactorialInput? then (Write(FactorialIs(vars[1].n, vars[0].n), Completed), heap)
      else (Panic, heap)
  }

  datatype Task = Task(stack: seq<Entry>, heap: Heap)

  datatype TaskResult = Ended | Went(task: Task, delay: nat, line: Option<Line>) | Failed

  predicate AllVals(entries: seq<Entry>) {
    forall i | 0 <= i < |entries| :: entries[i].Val?
  }

  /** The top `n` values, topmost first. */
  function TopVars(entries: seq<Entry>, n: nat): seq<Value>
    requires n <= |entries| && AllVals(entries[|entries| - n..])
  {
    seq(n, i requires 0 <= i < n => assert entries[|entries| - n..][n - 1 - i] == entries[|entries| - 1 - i]; entries[|entries| - 1 - i].value)
  }

  /** One step of a task. */
  function StepTask(task: Task): TaskResult {
    if task.stack == [] || !task.stack[|task.stack| - 1].State? then Failed
    else
      var s, rest := task.stack[|task.stack| - 1].state, task.stack[..|task.stack| - 1];
      var n := LocalVars(s);
      if n > |rest| || !AllVals(rest[|rest| - n..]) then Failed
      else
        var below := rest[..|rest| - n];
        var (result, heap) := GlobalStep(s, TopVars(rest, n), task.heap);
        match result
        case Done => Ended
        case Sleep(ms, next) => Went(Task(rest + [State(next)], heap), ms, None)
        case Write(line, next) => Went(Task(rest + [State(next)], heap), 0, Some(line))
        case Next(entries) => Went(Task(below + entries, heap), 0, None)
        case Return(value) =>
          if below == [] || !below[|below| - 1].Retrn? then Failed
          else Went(Task(below[..|below| - 1] + [Val(value), State(below[|below| - 1].state)], heap), 0, None)
        case Panic => Failed
  }

  // ---------- A task alone ----------

  type Output = seq<(nat, Line)>

  datatype Progress = Running(task: Task, time: nat, out: Output) | Finished(time: nat, out: Output) | Panicked

  function Written(time: nat, line: Option<Line>): Output {
    if line.Some? then [(time, line.value)] else []
  }

  /** A task that steps at `time` writes at `time`; only sleeping moves its time. */
  function Advance(p: Progress): Progress {
    if !p.Running? then p
    else match StepTask(p.task)
      case Ended => Finished(p.time, p.out)
      case Went(task, delay, line) => Running(task, p.time + delay, p.out + Written(p.time, line))
      case Failed => Panicked
  }

  function Solo(p: Progress, k: nat): Progress
    decreases k
  {
    if k == 0 then p else Solo(Advance(p), k - 1)
  }

  lemma {:induction false} SoloThen(p: Progress, j: nat, k: nat)
    ensures Solo(p, j + k) == Solo(Solo(p, j), k)
    decreases j
  {
    if j > 0 { SoloThen(Advance(p), j - 1, k); }
  }

  lemma {:induction false} SoloStays(p: Progress, k: nat)
    requires !p.Running?
    ensures Solo(p, k) == p
  {
    if k > 0 { SoloStays(p, k - 1); }
  }
}
