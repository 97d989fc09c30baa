/** What the programs of the virtual-time runtime print, and when. */
module VirtualPrograms {
  import opened Wrappers
  import opened VirtualTasks

  ghost predicate Reaches(p: Progress, q: Progress) {
    exists k: nat :: Solo(p, k) == q
  }

  lemma Stay(p: Progress)
    ensures Reaches(p, p)
  {
    assert Solo(p, 0) == p;
  }

  lemma Then(p: Progress, q: Progress, r: Progress)
    requires Reaches(p, q) && Reaches(q, r)
    ensures Reaches(p, r)
  {
    var j: nat :| Solo(p, j) == q;
    var k: nat :| Solo(q, k) == r;
    SoloThen(p, j, k);
  }

  lemma First(p: Progress, r: Progress)
    requires Reaches(Advance(p), r)
    ensures Reaches(p, r)
  {
    var k: nat :| Solo(Advance(p), k) == r;
    assert Solo(p, k + 1) == r;
  }

  // ---------- Steps with up to two local values ----------

  function Applied(below: seq<Entry>, vals: seq<Entry>, result: StepResult, heap: Heap): TaskResult {
    match result
    case Done => Ended
    case Sleep(ms, next) => Went(Task(below + vals + [State(next)], heap), ms, None)
    case Write(line, next) => Went(Task(below + vals + [State(next)], heap), 0, Some(line))
    case Next(entries) => Went(Task(below + entries, heap), 0, None)
    case Return(value) =>
      if below == [] || !below[|below| - 1].Retrn? then Failed
      else Went(Task(below[..|below| - 1] + [Val(value), State(below[|below| - 1].state)], heap), 0, None)
    case Panic => Failed
  }

  lemma Step0(below: seq<Entry>, s: State, heap: Heap)
    requires LocalVars(s) == 0
    ensures StepTask(Task(below + [State(s)], heap)) == Applied(below, [], GlobalStep(s, [], heap).0, GlobalStep(s, [], heap).1)
  {
    hide GlobalStep;
    var stack := below + [State(s)];
    assert stack[..|stack| - 1] == below && below[..|below|] == below && below + [] == below;
    assert TopVars(below, 0) == [];
  }

  lemma Step1(below: seq<Entry>, v: Value, s: State, heap: Heap)
    requires LocalVars(s) == 1
    ensures StepTask(Task(below + [Val(v)] + [State(s)], heap))
         == Applied(below, [Val(v)], GlobalStep(s, [v], heap).0, GlobalStep(s, [v], heap).1)
  {
    hide GlobalStep;
    var rest := below + [Val(v)];
    assert (rest + [State(s)])[..|rest|] == rest;
    assert rest[|rest| - 1..] == [Val(v)] && rest[..|rest| - 1] == below;
    assert TopVars(rest, 1) == [v];
  }

  lemma Step2(below: seq<Entry>, v: Value, w: Value, s: State, heap: Heap)
    requires LocalVars(s) == 2
    ensures StepTask(Task(below + [Val(v), Val(w)] + [State(s)], heap))
         == Applied(below, [Val(v), Val(w)], GlobalStep(s, [w, v], heap).0, GlobalStep(s, [w, v], heap).1)
  {
    hide GlobalStep;
    var rest := below + [Val(v), Val(w)];
    assert (rest + [State(s)])[..|rest|] == rest;
    assert rest[|rest| - 2..] == [Val(v), Val(w)] && rest[..|rest| - 2] == below;
    assert TopVars(rest, 2) == [w, v];
  }

  // ---------- Divisors ----------

  /** The divisors of `n` not above `i`, largest first. */
  function DivisorsDown(n: nat, i: nat): seq<nat> {
    if i == 0 then [] else if n % i == 0 then [i] + DivisorsDown(n, i - 1) else DivisorsDown(n, i - 1)
  }

  lemma {:induction false} DivisorsDownIs(n: nat, i: nat)
    ensures forall d: nat :: d in DivisorsDown(n, i) <==> 0 < d <= i && n % d == 0
    ensures forall a, b | 0 <= a < b < |DivisorsDown(n, i)| :: DivisorsDown(n, i)[a] > DivisorsDown(n, i)[b]
  {
    if i > 0 {
      DivisorsDownIs(n, i - 1);
      var rest := DivisorsDown(n, i - 1);
      forall b | 0 <= b < |rest| ensures rest[b] < i { assert rest[b] in rest; }
    }
  }

  function Sum(ds: seq<nat>): nat {
    if ds == [] then 0 else Sum(ds[..|ds| - 1]) + ds[|ds| - 1]
  }

  /** Each divisor is printed after ten times its own value has passed. */
  function DivisorLines(n: nat, ds: seq<nat>, t: nat): Output {
    if ds == [] then [(t, NoMoreDivisors(n))] else [(t + 10 * ds[0], Divides(n, ds[0]))] + DivisorLines(n, ds[1..], t + 10 * ds[0])
  }

  /** Line `j` comes at the start plus ten times the sum of the divisors up to it; the last line after all of them. */
  lemma {:induction false} DivisorLineAt(n: nat, ds: seq<nat>, t: nat, j: nat)
    requires j <= |ds|
    ensures |DivisorLines(n, ds, t)| == |ds| + 1
    ensures DivisorLines(n, ds, t)[j]
         == if j < |ds| then (t + 10 * Sum(ds[..j + 1]), Divides(n, ds[j])) else (t + 10 * Sum(ds), NoMoreDivisors(n))
  {
    if ds != [] {
      var t' := t + 10 * ds[0];
      DivisorLineAt(n, ds[1..], t', if j == 0 then 0 else j - 1);
      if j == 0 {
        assert ds[..1] == [ds[0]] && [ds[0]][..0] == [];
      } else {
        var m := if j < |ds| then j + 1 else j;
        assert ds[..m] == [ds[0]] + ds[1..][..m - 1];
        SumFirst(ds[0], ds[1..][..m - 1]);
        assert ds[..|ds|] == ds && ds[1..][..|ds| - 1] == ds[1..];
      }
    }
  }

  lemma {:induction false} SumFirst(d: nat, ds: seq<nat>)
    ensures Sum([d] + ds) == d + Sum(ds)
  {
    if ds == [] {
      assert [d] + ds == [d] && [d][..0] == [];
    } else {
      SumFirst(d, ds[..|ds| - 1]);
      assert ([d] + ds)[..|ds|] == [d] + ds[..|ds| - 1];
    }
  }

  lemma {:induction false} DivisorFromDown(n: nat, i: nat)
    ensures DivisorFrom(n, i) == 0 ==> DivisorsDown(n, i) == []
    ensures DivisorFrom(n, i) > 0 ==> DivisorsDown(n, i) == [DivisorFrom(n, i)] + DivisorsDown(n, DivisorFrom(n, i) - 1)
    ensures DivisorFrom(n, i) <= i
  {
    if i > 0 && n % i != 0 { DivisorFromDown(n, i - 1); }
  }

  lemma {:induction false} DivisorsLoop(n: nat, i: nat, t: nat, out: Output)
    ensures Reaches(Running(Task([State(DivisorsIteration)], Divisors(n, i)), t, out),
                    Finished(t + 10 * Sum(DivisorsDown(n, i)), out + DivisorLines(n, DivisorsDown(n, i), t)))
    decreases i
  {
    hide GlobalStep, StepTask, Reaches, DivisorFrom, Sum;
    var ds, d := DivisorsDown(n, i), DivisorFrom(n, i);
    var p := Running(Task([State(DivisorsIteration)], Divisors(n, i)), t, out);
    DivisorFromDown(n, i);
    if d == 0 {
      DivisorsStop(n, i, t, out);
    } else {
      DivisorsFound(n, i, t, out);
      var t', out' := t + 10 * d, out + [(t + 10 * d, Divides(n, d))];
      DivisorsLoop(n, d - 1, t', out');
      assert ds[1..] == DivisorsDown(n, d - 1);
      SumFirst(d, ds[1..]);
      assert out' + DivisorLines(n, ds[1..], t') == out + DivisorLines(n, ds, t);
      Then(p, Running(Task([State(DivisorsIteration)], Divisors(n, d - 1)), t', out'),
           Finished(t + 10 * Sum(ds), out + DivisorLines(n, ds, t)));
    }
  }

  lemma DivisorsStop(n: nat, i: nat, t: nat, out: Output)
    requires DivisorFrom(n, i) == 0
    ensures DivisorsDown(n, i) == []
    ensures Reaches(Running(Task([State(DivisorsIteration)], Divisors(n, i)), t, out),
                    Finished(t + 10 * Sum(DivisorsDown(n, i)), out + DivisorLines(n, DivisorsDown(n, i), t)))
  {
    hide StepTask;
    DivisorFromDown(n, i);
    var p := Running(Task([State(DivisorsIteration)], Divisors(n, i)), t, out);
    Step0([], DivisorsIteration, Divisors(n, i));
    Step0([], Completed, Divisors(n, i));
    assert [] + [State(DivisorsIteration)] == [State(DivisorsIteration)] && [] + [] + [State(Completed)] == [] + [State(Completed)];
    var q := Advance(p);
    assert Advance(q) == Finished(t, out + [(t, NoMoreDivisors(n))]);
    Stay(Advance(q));
    First(q, Advance(q));
    First(p, Advance(q));
  }

  lemma DivisorsFound(n: nat, i: nat, t: nat, out: Output)
    requires DivisorFrom(n, i) > 0
    ensures var d := DivisorFrom(n, i);
            Reaches(Running(Task([State(DivisorsIteration)], Divisors(n, i)), t, out),
                    Running(Task([State(DivisorsIteration)], Divisors(n, d - 1)), t + 10 * d, out + [(t + 10 * d, Divides(n, d))]))
  {
    hide StepTask, DivisorFrom;
    var d := DivisorFrom(n, i);
    var p := Running(Task([State(DivisorsIteration)], Divisors(n, i)), t, out);
    Step0([], DivisorsIteration, Divisors(n, i));
    Step0([], DivisorsPrintAndMoveOn, Divisors(n, d));
    assert forall s :: [] + [State(s)] == [State(s)] && [] + [] + [State(s)] == [State(s)];
    var q := Running(Task([State(DivisorsPrintAndMoveOn)], Divisors(n, d)), t + 10 * d, out);
    assert out + [] == out;
    assert Advance(p) == q;
    Stay(Advance(q));
    First(q, Advance(q));
    First(p, Advance(q));
  }

  /**
   * The divisors task prints exactly the divisors of `n`, largest first, each at the start plus ten times the sum of
   * those printed so far, and ends with its closing line.
   */
  lemma DivisorsProgram(n: nat, i: nat, t: nat)
    ensures Reaches(Running(Task([State(DivisorsBegin)], Divisors(n, i)), t, []),
                    Finished(t + 10 * Sum(DivisorsDown(n, n)), DivisorLines(n, DivisorsDown(n, n), t)))
  {
    hide StepTask, Reaches, Sum, DivisorLines;
    var p := Running(Task([State(DivisorsBegin)], Divisors(n, i)), t, []);
    Step0([], DivisorsBegin, Divisors(n, i));
    assert [] + [State(DivisorsBegin)] == [State(DivisorsBegin)] && [] + [State(DivisorsIteration)] == [State(DivisorsIteration)];
    assert p.out + [] == p.out;
    assert Advance(p) == Running(Task([State(DivisorsIteration)], Divisors(n, n)), t, []);
    DivisorsLoop(n, n, t, []);
    assert [] + DivisorLines(n, DivisorsDown(n, n), t) == DivisorLines(n, DivisorsDown(n, n), t);
    First(p, Finished(t + 10 * Sum(DivisorsDown(n, n)), DivisorLines(n, DivisorsDown(n, n), t)));
  }

  // ---------- Factorial ----------

  function Fact(n: nat): nat {
    if n == 0 then 1 else n * Fact(n - 1)
  }

  /** How long the recursive calls from `n` down take. */
  function CallTime(n: nat): nat {
    if n <= 1 then 50 * n else 50 * n + CallTime(n - 1)
  }

  lemma {:induction false} CallTimeIs(n: nat)
    ensures CallTime(n) == 25 * n * (n + 1)
  {
    if n > 1 { CallTimeIs(n - 1); }
  }

  /** The calls announce themselves on the way down. */
  function CallLines(n: nat, t: nat): Output {
    [(t, FactorialOf(n))] + if n <= 1 then [] else CallLines(n - 1, t + 50 * n)
  }

  /** Call, announcement and sleep of one level. */
  lemma FactorialDown(below: seq<Entry>, n: nat, heap: Heap, t: nat, out: Output)
    ensures Reaches(Running(Task(below + [Val(FactorialArgument(n))] + [State(FactorialRecursiveCall)], heap), t, out),
                    Running(Task(below + [Val(FactorialArgument(n))] + [State(FactorialPostSleep)], heap), t + 50 * n,
                            out + [(t, FactorialOf(n))]))
  {
    hide StepTask;
    var v := FactorialArgument(n);
    Step1(below, v, FactorialRecursiveCall, heap);
    Step1(below, v, FactorialPostWrite, heap);
    var out' := out + [(t, FactorialOf(n))];
    var p := Running(Task(below + [Val(v)] + [State(FactorialRecursiveCall)], heap), t, out);
    var q := Running(Task(below + [Val(v)] + [State(FactorialPostWrite)], heap), t, out');
    assert out' + [] == out';
    assert Advance(p) == q;
    Stay(Advance(q));
    First(q, Advance(q));
    First(p, Advance(q));
  }

  /** The last call returns 1. */
  lemma FactorialBottom(below: seq<Entry>, s: State, n: nat, heap: Heap, t: nat, out: Output)
    requires n <= 1
    ensures Reaches(Running(Task(below + [Retrn(s)] + [Val(FactorialArgument(n))] + [State(FactorialPostSleep)], heap), t, out),
                    Running(Task(below + [Val(FactorialReturn(1)), State(s)], heap), t, out))
  {
    hide StepTask;
    var v, under := FactorialArgument(n), below + [Retrn(s)];
    Step1(under, v, FactorialPostSleep, heap);
    assert under[..|under| - 1] == below && out + [] == out;
    var p := Running(Task(under + [Val(v)] + [State(FactorialPostSleep)], heap), t, out);
    Stay(Advance(p));
    First(p, Advance(p));
  }

  /** A level with more to do calls the next one down. */
  lemma FactorialNext(below: seq<Entry>, s: State, n: nat, heap: Heap, t: nat, out: Output)
    requires n > 1
    ensures Reaches(Running(Task(below + [Retrn(s)] + [Val(FactorialArgument(n))] + [State(FactorialPostSleep)], heap), t, out),
                    Running(Task(below + [Retrn(s)] + [Val(FactorialArgument(n))] + [Retrn(FactorialPostRecursiveCall)]
                                 + [Val(FactorialArgument(n - 1))] + [State(FactorialRecursiveCall)], heap), t, out))
  {
    hide StepTask;
    var v, under := FactorialArgument(n), below + [Retrn(s)];
    Step1(under, v, FactorialPostSleep, heap);
    assert out + [] == out;
    assert under + [Val(v), Retrn(FactorialPostRecursiveCall), Val(FactorialArgument(n - 1)), State(FactorialRecursiveCall)]
        == under + [Val(v)] + [Retrn(FactorialPostRecursiveCall)] + [Val(FactorialArgument(n - 1))] + [State(FactorialRecursiveCall)];
    var p := Running(Task(under + [Val(v)] + [State(FactorialPostSleep)], heap), t, out);
    Stay(Advance(p));
    First(p, Advance(p));
  }

  /** The result of the lower level is multiplied and returned. */
  lemma FactorialUp(below: seq<Entry>, s: State, n: nat, r: nat, heap: Heap, t: nat, out: Output)
    ensures Reaches(Running(Task(below + [Retrn(s)] + [Val(FactorialArgument(n))]
                                 + [Val(FactorialReturn(r)), State(FactorialPostRecursiveCall)], heap), t, out),
                    Running(Task(below + [Val(FactorialReturn(r * n)), State(s)], heap), t, out))
  {
    hide StepTask;
    var v, w, under := FactorialArgument(n), FactorialReturn(r), below + [Retrn(s)];
    Step2(under, v, w, FactorialPostRecursiveCall, heap);
    var stack := under + [Val(v)] + [Val(w), State(FactorialPostRecursiveCall)];
    assert stack == under + [Val(v), Val(w)] + [State(FactorialPostRecursiveCall)];
    assert under[..|under| - 1] == below && out + [] == out;
    var p := Running(Task(stack, heap), t, out);
    Stay(Advance(p));
    First(p, Advance(p));
  }

  lemma Unfold(n: nat, t: nat, out: Output)
    ensures n <= 1 ==> Fact(n) == 1 && CallTime(n) == 50 * n && out + CallLines(n, t) == out + [(t, FactorialOf(n))]
    ensures n > 1 ==> Fact(n) == Fact(n - 1) * n && CallTime(n) == 50 * n + CallTime(n - 1)
    ensures n > 1 ==> out + CallLines(n, t) == out + [(t, FactorialOf(n))] + CallLines(n - 1, t + 50 * n)
  {
    assert n <= 1 ==> n == 0 || Fact(n - 1) == 1;
  }

  /** A call at any depth of the stack returns the factorial to where it was called from. */
  lemma {:induction false} FactorialCall(below: seq<Entry>, s: State, n: nat, heap: Heap, t: nat, out: Output)
    ensures Reaches(Running(Task(below + [Retrn(s)] + [Val(FactorialArgument(n))] + [State(FactorialRecursiveCall)], heap), t, out),
                    Running(Task(below + [Val(FactorialReturn(Fact(n))), State(s)], heap), t + CallTime(n), out + CallLines(n, t)))
    decreases n
  {
    hide Reaches, Fact, CallTime, CallLines;
    Unfold(n, t, out);
    var v, t', out' := FactorialArgument(n), t + 50 * n, out + [(t, FactorialOf(n))];
    var start := Running(Task(below + [Retrn(s)] + [Val(v)] + [State(FactorialRecursiveCall)], heap), t, out);
    var slept := Running(Task(below + [Retrn(s)] + [Val(v)] + [State(FactorialPostSleep)], heap), t', out');
    var end := Running(Task(below + [Val(FactorialReturn(Fact(n))), State(s)], heap), t + CallTime(n), out + CallLines(n, t));
    FactorialDown(below + [Retrn(s)], n, heap, t, out);
    if n <= 1 {
      FactorialBottom(below, s, n, heap, t', out');
    } else {
      var under := below + [Retrn(s)] + [Val(v)];
      var called := Running(Task(under + [Retrn(FactorialPostRecursiveCall)] + [Val(FactorialArgument(n - 1))]
                                 + [State(FactorialRecursiveCall)], heap), t', out');
      var t'', out'' := t' + CallTime(n - 1), out' + CallLines(n - 1, t');
      var back := Running(Task(under + [Val(FactorialReturn(Fact(n - 1))), State(FactorialPostRecursiveCall)], heap), t'', out'');
      FactorialNext(below, s, n, heap, t', out');
      FactorialCall(under, FactorialPostRecursiveCall, n - 1, heap, t', out');
      FactorialUp(below, s, n, Fact(n - 1), heap, t'', out'');
      Then(slept, called, back);
      Then(slept, back, end);
    }
    Then(start, slept, end);
  }

  /**
   * The factorial task announces its calls from `n` down and prints n! at the start plus 25 * n * (n + 1), for every
   * `n`, 0 included.
   */
  lemma FactorialProgram(n: nat, heap: Heap, t: nat)
    ensures var end := t + 25 * n * (n + 1);
            Reaches(Running(Task([Val(FactorialInput(n)), State(FactorialEntry)], heap), t, []),
                    Finished(end, CallLines(n, t) + [(end, FactorialIs(n, Fact(n)))]))
  {
    hide StepTask, Reaches, CallTime;
    var input, end := Val(FactorialInput(n)), t + 25 * n * (n + 1);
    var start := Running(Task([input, State(FactorialEntry)], heap), t, []);
    Step1([], FactorialInput(n), FactorialEntry, heap);
    assert [] + [input] + [State(FactorialEntry)] == [input, State(FactorialEntry)];
    var called := Running(Task([input] + [Retrn(FactorialDone)] + [Val(FactorialArgument(n))] + [State(FactorialRecursiveCall)], heap), t, []);
    assert called.task.stack == [] + [input, Retrn(FactorialDone), Val(FactorialArgument(n)), State(FactorialRecursiveCall)];
    assert start.out + [] == [];
    assert Advance(start) == called;
    FactorialCall([input], FactorialDone, n, heap, t, []);
    CallTimeIs(n);
    assert [] + CallLines(n, t) == CallLines(n, t);
    var back := Running(Task([input] + [Val(FactorialReturn(Fact(n))), State(FactorialDone)], heap), end, CallLines(n, t));
    FactorialLast(n, Fact(n), heap, end, CallLines(n, t));
    Then(called, back, Finished(end, CallLines(n, t) + [(end, FactorialIs(n, Fact(n)))]));
    First(start, Finished(end, CallLines(n, t) + [(end, FactorialIs(n, Fact(n)))]));
  }

  lemma FactorialLast(n: nat, r: nat, heap: Heap, t: nat, out: Output)
    ensures Reaches(Running(Task([Val(FactorialInput(n))] + [Val(FactorialReturn(r)), State(FactorialDone)], heap), t, out),
                    Finished(t, out + [(t, FactorialIs(n, r))]))
  {
    hide StepTask;
    var v, w := FactorialInput(n), FactorialReturn(r);
    Step2([], v, w, FactorialDone, heap);
    Step0([Val(v), Val(w)], Completed, heap);
    assert [Val(v)] + [Val(w), State(FactorialDone)] == [] + [Val(v), Val(w)] + [State(FactorialDone)];
    assert [] + [Val(v), Val(w)] + [State(Completed)] == [Val(v), Val(w)] + [State(Completed)];
    var p := Running(Task([Val(v)] + [Val(w), State(FactorialDone)], heap), t, out);
    var q := Advance(p);
    assert Advance(q) == Finished(t, out + [(t, FactorialIs(n, r))]);
    Stay(Advance(q));
    First(q, Advance(q));
    First(p, Advance(q));
  }

  // ---------- Fibonacci ----------

  function Fib(n: nat): nat {
    if n <= 1 then n else Fib(n - 2) + Fib(n - 1)
  }

  /** The numbers from index `k` on: each waits five times its index for the next. */
  function FibLines(k: nat, n: nat, t: nat): Output
    decreases n - k
  {
    if k >= n then [(t, FibIs(n, Fib(n)))] else [(t, FibSoFar(k, n, Fib(k)))] + FibLines(k + 1, n, t + 5 * k)
  }

  function FibEnd(k: nat, n: nat, t: nat): nat
    decreases n - k
  {
    if k >= n then t else FibEnd(k + 1, n, t + 5 * k)
  }

  lemma FibonacciFinal(n: nat, heap: Heap, t: nat, out: Output)
    requires heap.Fibonacci? && heap.n == n && heap.index == n && heap.b == Fib(n)
    ensures Reaches(Running(Task([State(FibonacciCalculate)], heap), t, out), Finished(t, out + [(t, FibIs(n, Fib(n)))]))
  {
    hide StepTask, Fib;
    Step0([], FibonacciCalculate, heap);
    Step0([], FibonacciResult, heap);
    Step0([], Completed, heap);
    assert forall s :: [] + [State(s)] == [State(s)] && [] + [] + [State(s)] == [State(s)];
    var p := Running(Task([State(FibonacciCalculate)], heap), t, out);
    var q := Running(Task([State(FibonacciResult)], heap), t, out);
    assert out + [] == out;
    assert Advance(p) == q;
    var r := Advance(q);
    assert Advance(r) == Finished(t, out + [(t, FibIs(n, Fib(n)))]);
    Stay(Advance(r));
    First(r, Advance(r));
    First(q, Advance(r));
    First(p, Advance(r));
  }

  lemma FibonacciOnce(heap: Heap, t: nat, out: Output)
    requires heap.Fibonacci? && heap.index < heap.n
    ensures Reaches(Running(Task([State(FibonacciCalculate)], heap), t, out),
                    Running(Task([State(FibonacciCalculate)],
                                 Fibonacci(heap.n, heap.index + 1, heap.b, heap.a + heap.b, 5 * heap.index)),
                            t + 5 * heap.index, out + [(t, FibSoFar(heap.index, heap.n, heap.b))]))
  {
    hide StepTask;
    var heap' := heap.(delay := 5 * heap.index);
    Step0([], FibonacciCalculate, heap);
    Step0([], FibonacciStep, heap');
    assert forall s :: [] + [State(s)] == [State(s)] && [] + [] + [State(s)] == [State(s)];
    var p := Running(Task([State(FibonacciCalculate)], heap), t, out);
    var q := Running(Task([State(FibonacciStep)], heap'), t, out + [(t, FibSoFar(heap.index, heap.n, heap.b))]);
    assert Advance(p) == q && q.out + [] == q.out;
    Stay(Advance(q));
    First(q, Advance(q));
    First(p, Advance(q));
  }

  lemma {:induction false} FibonacciLoop(heap: Heap, t: nat, out: Output)
    requires heap.Fibonacci? && 1 <= heap.index <= heap.n && heap.a == Fib(heap.index - 1) && heap.b == Fib(heap.index)
    ensures Reaches(Running(Task([State(FibonacciCalculate)], heap), t, out),
                    Finished(FibEnd(heap.index, heap.n, t), out + FibLines(heap.index, heap.n, t)))
    decreases heap.n - heap.index
  {
    hide Reaches;
    var k, n := heap.index, heap.n;
    if k == n {
      FibonacciFinal(n, heap, t, out);
    } else {
      var heap', out' := Fibonacci(n, k + 1, heap.b, heap.a + heap.b, 5 * k), out + [(t, FibSoFar(k, n, heap.b))];
      FibonacciOnce(heap, t, out);
      FibonacciLoop(heap', t + 5 * k, out');
      assert out' + FibLines(k + 1, n, t + 5 * k) == out + FibLines(k, n, t);
      Then(Running(Task([State(FibonacciCalculate)], heap), t, out),
           Running(Task([State(FibonacciCalculate)], heap'), t + 5 * k, out'),
           Finished(FibEnd(k, n, t), out + FibLines(k, n, t)));
    }
  }

  /** The Fibonacci task prints the numbers with indices 1 to n - 1 on its way and the n-th one at the end. */
  lemma FibonacciProgram(heap: Heap, t: nat)
    requires heap.Fibonacci?
    ensures var n := heap.n;
            Reaches(Running(Task([State(FibonacciBegin)], heap), t, []),
                    if n <= 1 then Finished(t, [(t, FibIs(n, Fib(n)))]) else Finished(FibEnd(1, n, t), FibLines(1, n, t)))
  {
    hide StepTask, FibLines, FibEnd;
    var n, p := heap.n, Running(Task([State(FibonacciBegin)], heap), t, []);
    Step0([], FibonacciBegin, heap);
    assert forall s :: [] + [State(s)] == [State(s)] && [] + [] + [State(s)] == [State(s)];
    if n <= 1 {
      Step0([], Completed, heap);
      var q := Advance(p);
      assert Advance(q) == Finished(t, [(t, FibIs(n, Fib(n)))]);
      Stay(Advance(q));
      First(q, Advance(q));
      First(p, Advance(q));
    } else {
      var heap' := heap.(index := 1, a := 0, b := 1);
      assert p.out + [] == [];
      assert Advance(p) == Running(Task([State(FibonacciCalculate)], heap'), t, []);
      FibonacciLoop(heap', t, []);
      assert [] + FibLines(1, n, t) == FibLines(1, n, t);
      First(p, Finished(FibEnd(1, n, t), FibLines(1, n, t)));
    }
  }

  lemma {:induction false} FibEndIs(k: nat, n: nat, t: nat)
    requires 1 <= k <= n
    ensures 2 * (FibEnd(k, n, t) - t) == 5 * (n * (n - 1) - k * (k - 1))
    decreases n - k
  {
    if k < n { FibEndIs(k + 1, n, t + 5 * k); }
  }

  // ---------- The delayed message ----------

  /** The delayed message waits on the stack over its delay. */
  function DelayedStart(text: Text, ms: nat): Task {
    Task([Val(DelayMs(ms)), Val(DelayMessage(text)), State(DelayedBegin)], NoHeap)
  }

  /** The delayed-message task sleeps for its delay, prints its text once and ends. */
  lemma DelayedProgram(text: Text, ms: nat, t: nat)
    ensures Reaches(Running(DelayedStart(text, ms), t, []), Finished(t + ms, [(t + ms, Delayed(text, ms))]))
  {
    hide StepTask;
    var vals := [Val(DelayMs(ms)), Val(DelayMessage(text))];
    assert forall s :: [] + vals + [State(s)] == vals + [State(s)];
    assert [Val(DelayMs(ms)), Val(DelayMessage(text)), State(DelayedBegin)] == vals + [State(DelayedBegin)];
    Step2([], DelayMs(ms), DelayMessage(text), DelayedBegin, NoHeap);
    Step2([], DelayMs(ms), DelayMessage(text), DelayedExecute, NoHeap);
    Step0(vals, Completed, NoHeap);
    var p := Running(DelayedStart(text, ms), t, []);
    var q := Running(Task(vals + [State(DelayedExecute)], NoHeap), t + ms, []);
    var r := Running(Task(vals + [State(Completed)], NoHeap), t + ms, [(t + ms, Delayed(text, ms))]);
    var end := Finished(t + ms, [(t + ms, Delayed(text, ms))]);
    assert p.out + [] == [] && [] + [(t + ms, Delayed(text, ms))] == end.out;
    assert Advance(p) == q && Advance(q) == r && Advance(r) == end;
    Stay(end);
    First(r, end);
    First(q, end);
    First(p, end);
  }
}
