/**
 * The Rust IR of fibers and what it means: an interpreter with one named frame per call.
 *
 * Expressions and inline Rust blocks are opaque functions of the variables visible to a step: the parameters and
 * locals of the current frame, and the init variables of the fiber where they are not shadowed.
 */
module RustIr {
  import opened Wrappers

  type Value(==, !new)
  type Env = map<string, Value>

  /** The init variables of every fiber type. */
  type Heap = string -> Env

  datatype FuncRef = FuncRef(fiber: string, func: string)

  datatype Local = Local(name: string, default: Value)

  datatype RetValue = Var(name: string) | Computed(expr: Env -> Value)

  /** One result of an inline Rust block and the variable it goes to. */
  datatype Bind = Bind(name: string, value: Env -> Value)

  /** `source` is the variable with the queue name or the future id. */
  datatype Await = Await(source: string, isQueue: bool, bind: Option<string>, next: string)

  datatype Primitive = Future | Queue(nameVar: string) | Schedule(msVar: string)

  datatype Step =
    | Call(target: FuncRef, args: seq<Env -> Value>, bind: Option<string>, retTo: string)
    | Return(value: RetValue)
    | ReturnVoid
    | If(cond: Env -> bool, then_: string, else_: string)
    | Let(local: string, expr: Env -> Value, next: string)
    | RustBlock(binds: seq<Bind>, next: string)
    | Select(arms: seq<Await>)
    | SetValues(updates: seq<(string, string)>, next: string)
    | Create(primitives: seq<Primitive>, success: string, ids: seq<string>, fail: string, errors: seq<string>)
    | CreateFibers(details: seq<(string, seq<string>)>, next: string)
    | Debug(text: string, next: string)
    | DebugPrintVars(next: string)

  datatype Func = Func(params: seq<string>, locals: seq<Local>, void: bool, steps: seq<(string, Step)>)

  type Ir = map<FuncRef, Func>

  const ENTRY := "entry"

  /** The variables of a frame in slot order. */
  function Names(f: Func): (names: seq<string>)
    ensures |names| == |f.params| + |f.locals|
  {
    f.params + seq(|f.locals|, i requires 0 <= i < |f.locals| => f.locals[i].name)
  }

  function Find(steps: seq<(string, Step)>, id: string): Option<Step> {
    if steps == [] then None
    else if steps[0].0 == id then Some(steps[0].1)
    else Find(steps[1..], id)
  }

  /** A block with one result whose next step returns just that result. */
  predicate ReturnsDirectly(f: Func, step: Step) {
    && step.RustBlock? && |step.binds| == 1
    && var next := Find(f.steps, step.next);
       next.Some? && next.value.Return? && next.value.value.Var? && next.value.value.name == step.binds[0].name
  }

  /** No code is generated for a step that some block returns into directly. */
  predicate Dropped(f: Func, id: string) {
    exists i | 0 <= i < |f.steps| :: ReturnsDirectly(f, f.steps[i].1) && f.steps[i].1.next == id
  }

  // ---------- Validity ----------

  predicate Among(names: seq<string>, scope: set<string>) {
    forall i | 0 <= i < |names| :: names[i] in scope
  }

  predicate Distinct(names: seq<string>) {
    forall i, j | 0 <= i < j < |names| :: names[i] != names[j]
  }

  function NameSet(f: Func): set<string> {
    set i | 0 <= i < |Names(f)| :: Names(f)[i]
  }

  /** A step that others may go to: the entry is generated in any case. */
  predicate Target(f: Func, id: string) {
    Find(f.steps, id).Some? && (id == ENTRY || !Dropped(f, id))
  }

  /** Assigning a parameter other than the first is not supported: see `LetSlot`. */
  predicate LetTarget(f: Func, name: string) {
    (exists i | 0 <= i < |f.locals| :: f.locals[i].name == name) || (f.params != [] && f.params[0] == name)
  }

  function Operands(ps: seq<Primitive>): seq<string> {
    if ps == [] then []
    else (match ps[0] case Future => [] case Queue(v) => [v] case Schedule(v) => [v]) + Operands(ps[1..])
  }

  predicate ValidStep(ir: Ir, heap: Heap, ref: FuncRef, f: Func, step: Step) {
    var own := NameSet(f);
    var visible := own + heap(ref.fiber).Keys;
    match step
    case Call(target, args, bind, retTo) =>
      && target in ir && |args| == |ir[target].params|
      && (bind.Some? ==> bind.value in own) && Target(f, retTo)
    case Return(value) => !f.void && (value.Var? ==> value.name in visible)
    case ReturnVoid => true
    case If(_, then_, else_) => Target(f, then_) && Target(f, else_)
    case Let(local, _, next) => LetTarget(f, local) && Target(f, next)
    case RustBlock(binds, next) =>
      && (forall i | 0 <= i < |binds| :: binds[i].name in own)
      && (ReturnsDirectly(f, step) || Target(f, next))
    case Select(arms) =>
      forall i | 0 <= i < |arms| ::
        && arms[i].source in visible && (arms[i].bind.Some? ==> arms[i].bind.value in own) && Target(f, arms[i].next)
    case SetValues(updates, next) =>
      (forall i | 0 <= i < |updates| :: updates[i].0 in visible && updates[i].1 in own) && Target(f, next)
    case Create(ps, success, ids, fail, errors) =>
      && Among(Operands(ps), own) && |ids| == |errors| == |ps| && Among(ids, own) && Among(errors, own)
      && Target(f, success) && Target(f, fail)
    case CreateFibers(details, next) => (forall i | 0 <= i < |details| :: Among(details[i].1, own)) && Target(f, next)
    case Debug(_, next) => Target(f, next)
    case DebugPrintVars(next) => Target(f, next)
  }

  predicate ValidFunc(ir: Ir, heap: Heap, ref: FuncRef, f: Func) {
    && Distinct(Names(f)) && Find(f.steps, ENTRY).Some?
    && forall i | 0 <= i < |f.steps| :: ValidStep(ir, heap, ref, f, f.steps[i].1)
  }

  predicate Valid(ir: Ir, heap: Heap) {
    forall ref | ref in ir :: ValidFunc(ir, heap, ref, ir[ref])
  }

  // ---------- The interpreter ----------

  datatype Arm = Arm(source: Value, isQueue: bool, bind: Option<string>, next: string)

  /** What a fiber tells its runtime. */
  datatype Event =
    | Silent
    | Printed(text: string)
    | PrintedVars(vars: seq<(string, Value)>)
    | Selects(func: FuncRef, arms: seq<Arm>)
    | Sets(updates: seq<(Value, Value)>)
    | Creates(func: FuncRef, operands: seq<Value>, step: Step)
    | Spawns(details: seq<(string, seq<Value>)>)
    | Finished

  /** `bind` is the caller's variable that receives the result of this call. */
  datatype Frame = Frame(func: FuncRef, env: Env, pc: string, bind: Option<string>)

  /**
   * `frames` holds the calls in progress, the current one last. A parked fiber waits for its runtime to choose its
   * next step. `result` is the value of the outermost call, if it has one.
   */
  datatype Config = Config(frames: seq<Frame>, parked: bool, result: Option<Value>)

  predicate ValidFrame(ir: Ir, fr: Frame) {
    && fr.func in ir && fr.env.Keys == NameSet(ir[fr.func])
    && Find(ir[fr.func].steps, fr.pc).Some?
  }

  /** Every frame is whole, and each call binds its result to a variable of its caller. */
  predicate ValidConfig(ir: Ir, c: Config) {
    && (forall i | 0 <= i < |c.frames| :: ValidFrame(ir, c.frames[i]))
    && (forall i | 0 < i < |c.frames| :: c.frames[i].bind.Some? ==> c.frames[i].bind.value in c.frames[i - 1].env)
    && (c.frames == [] ==> !c.parked)
    && (c.frames != [] ==> (c.result.None? <==> ir[c.frames[0].func].void))
  }

  function Top(c: Config): Frame
    requires c.frames != []
  {
    c.frames[|c.frames| - 1]
  }

  function WithTop(c: Config, fr: Frame): Config
    requires c.frames != []
  {
    c.(frames := c.frames[|c.frames| - 1 := fr])
  }

  function Values(names: seq<string>, env: Env): seq<Value>
    requires Among(names, env.Keys)
  {
    seq(|names|, i requires 0 <= i < |names| => env[names[i]])
  }

  function Listed(names: seq<string>, env: Env): seq<(string, Value)>
    requires Among(names, env.Keys)
  {
    seq(|names|, i requires 0 <= i < |names| => (names[i], env[names[i]]))
  }

  function Armed(arms: seq<Await>, seen: Env): seq<Arm>
    requires forall i | 0 <= i < |arms| :: arms[i].source in seen
  {
    seq(|arms|, i requires 0 <= i < |arms| => Arm(seen[arms[i].source], arms[i].isQueue, arms[i].bind, arms[i].next))
  }

  function Updates(updates: seq<(string, string)>, futures: Env, values: Env): seq<(Value, Value)>
    requires forall i | 0 <= i < |updates| :: updates[i].0 in futures && updates[i].1 in values
  {
    seq(|updates|, i requires 0 <= i < |updates| => (futures[updates[i].0], values[updates[i].1]))
  }

  function Spawned(details: seq<(string, seq<string>)>, env: Env): seq<(string, seq<Value>)>
    requires forall i | 0 <= i < |details| :: Among(details[i].1, env.Keys)
  {
    seq(|details|, i requires 0 <= i < |details| => (details[i].0, Values(details[i].1, env)))
  }

  function Evaluated(args: seq<Env -> Value>, seen: Env): (r: seq<Value>)
    ensures |r| == |args|
  {
    seq(|args|, i requires 0 <= i < |args| => args[i](seen))
  }

  function BindAll(env: Env, binds: seq<Bind>, seen: Env): Env
    decreases |binds|
  {
    if binds == [] then env else BindAll(env[binds[0].name := binds[0].value(seen)], binds[1..], seen)
  }

  function Zip(names: seq<string>, values: seq<Value>): Env
    requires |names| == |values|
  {
    if names == [] then map[] else Zip(names[1..], values[1..])[names[0] := values[0]]
  }

  lemma {:induction false} ZipSpec(names: seq<string>, values: seq<Value>)
    requires |names| == |values| && Distinct(names)
    ensures Zip(names, values).Keys == set i | 0 <= i < |names| :: names[i]
    ensures forall i | 0 <= i < |names| :: names[i] in Zip(names, values) && Zip(names, values)[names[i]] == values[i]
  {
    if names != [] {
      ZipSpec(names[1..], values[1..]);
      assert names == [names[0]] + names[1..];
    }
  }

  /** The variables of a fresh frame: its arguments, then its locals with their defaults. */
  function CallEnv(f: Func, args: seq<Value>): Env
    requires |args| == |f.params|
  {
    Zip(Names(f), args + seq(|f.locals|, i requires 0 <= i < |f.locals| => f.locals[i].default))
  }

  lemma {:induction false} FindIn(steps: seq<(string, Step)>, id: string)
    requires Find(steps, id).Some?
    ensures exists i :: 0 <= i < |steps| && steps[i] == (id, Find(steps, id).value)
  {
    if steps[0].0 == id {
      assert steps[0] == (id, Find(steps, id).value);
    } else {
      FindIn(steps[1..], id);
      var i :| 0 <= i < |steps[1..]| && steps[1..][i] == (id, Find(steps, id).value);
      assert steps[i + 1] == (id, Find(steps, id).value);
    }
  }

  lemma CurrentStepValid(ir: Ir, heap: Heap, fr: Frame)
    requires Valid(ir, heap) && ValidFrame(ir, fr)
    ensures ValidStep(ir, heap, fr.func, ir[fr.func], Find(ir[fr.func].steps, fr.pc).value)
  {
    FindIn(ir[fr.func].steps, fr.pc);
  }

  /** Ends the current call with `value`, if it has one. */
  function EndCall(c: Config, value: Option<Value>): Config
    requires c.frames != []
  {
    var k := |c.frames| - 1;
    if k == 0 then Config([], false, if value.Some? then value else c.result)
    else
      var caller, bind := c.frames[k - 1], c.frames[k].bind;
      var caller' := if bind.Some? && value.Some? then caller.(env := caller.env[bind.value := value.value]) else caller;
      c.(frames := c.frames[..k - 1] + [caller'])
  }

  function Seen(heap: Heap, fr: Frame): Env {
    heap(fr.func.fiber) + fr.env
  }

  /** One step of the interpreter. */
  function Interpret(ir: Ir, heap: Heap, c: Config): (Config, Event)
    requires Valid(ir, heap) && ValidConfig(ir, c) && !c.parked
  {
    if c.frames == [] then (c, Finished)
    else
      var k, fr, f, seen := |c.frames| - 1, Top(c), ir[Top(c).func], Seen(heap, Top(c));
      CurrentStepValid(ir, heap, fr);
      match Find(f.steps, fr.pc).value
      case Call(target, args, bind, retTo) =>
        var callee := Frame(target, CallEnv(ir[target], Evaluated(args, seen)), ENTRY, bind);
        (c.(frames := c.frames[..k] + [fr.(pc := retTo), callee]), Silent)
      case Return(value) =>
        (EndCall(c, Some(if value.Var? then seen[value.name] else value.expr(seen))), Silent)
      case ReturnVoid => (EndCall(c, None), Silent)
      case If(cond, then_, else_) => (WithTop(c, fr.(pc := if cond(seen) then then_ else else_)), Silent)
      case Let(local, expr, next) => (WithTop(c, fr.(env := fr.env[local := expr(seen)], pc := next)), Silent)
      case RustBlock(binds, next) => (WithTop(c, fr.(env := BindAll(fr.env, binds, seen), pc := next)), Silent)
      case Select(arms) =>
        (c.(parked := true), Selects(fr.func, Armed(arms, seen)))
      case SetValues(updates, next) =>
        (WithTop(c, fr.(pc := next)), Sets(Updates(updates, seen, fr.env)))
      case Create(ps, _, _, _, _) =>
        (c.(parked := true), Creates(fr.func, Values(Operands(ps), fr.env), Find(f.steps, fr.pc).value))
      case CreateFibers(details, next) =>
        (WithTop(c, fr.(pc := next)), Spawns(Spawned(details, fr.env)))
      case Debug(text, next) => (WithTop(c, fr.(pc := next)), Printed(text))
      case DebugPrintVars(next) =>
        (WithTop(c, fr.(pc := next)), PrintedVars(Listed(Names(f), fr.env)))
  }

  function Assign(env: Env, binds: seq<(string, Value)>): Env
    decreases |binds|
  {
    if binds == [] then env else Assign(env[binds[0].0 := binds[0].1], binds[1..])
  }

  /** The runtime wakes a parked fiber: some of its variables get a value and it goes on at `next`. */
  function Resume(c: Config, binds: seq<(string, Value)>, next: string): Config
    requires c.frames != []
  {
    WithTop(c, Top(c).(env := Assign(Top(c).env, binds), pc := next)).(parked := false)
  }

  /** A runtime binds variables of the current frame and goes on at one of its steps. */
  predicate CanResume(ir: Ir, c: Config, binds: seq<(string, Value)>, next: string) {
    && c.parked && c.frames != [] && Top(c).func in ir && Target(ir[Top(c).func], next)
    && forall i | 0 <= i < |binds| :: binds[i].0 in Top(c).env
  }

  /** A call of `ref` from outside; `placeholder` is the default value of its result type. */
  function Start(ir: Ir, ref: FuncRef, args: seq<Value>, placeholder: Value): Config
    requires ref in ir && |args| == |ir[ref].params|
  {
    Config([Frame(ref, CallEnv(ir[ref], args), ENTRY, None)], false, if ir[ref].void then None else Some(placeholder))
  }
}
