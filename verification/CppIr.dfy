/**
 * The structured C++ IR (blocks, ifs, enum matches, function calls) and its lexically scoped meaning.
 *
 * The text of a statement, condition or initializer is opaque: it is a function of the variables visible at that
 * point. An enum capture is an alias into another variable, so code that uses one reads and writes that variable.
 */
module CppIr {
  import opened Wrappers

  type Value(==, !new)
  type Env = map<string, Value>

  /** What executing a statement asks the engine to do next. */
  datatype Control =
    | Next
    | Call(callee: nat, args: seq<Value>, bind: Option<string>)
    | Return(value: Option<Value>)

  datatype Effect = Effect(env: Env, output: seq<string>, control: Control)

  datatype Var =
    | Regular(name: string, init: Env -> Value)
    | FunctionArg(name: string)
    | Capture(name: string)

  datatype Node =
    | Stmt(run: Env -> Effect)
    | If(cond: Env -> bool, yes: Node, no: Node)
    | Block(vars: seq<Var>, code: Code)
    | Match(tag: Env -> string, arms: Arms)

  datatype Code = Nil | Cons(head: Node, tail: Code)

  /** An arm without a key is the default arm. */
  datatype Arms = NoArm | Arm(key: Option<string>, vars: seq<Var>, body: Code, rest: Arms)

  datatype Fn = Fn(params: seq<string>, vars: seq<Var>, code: Code)

  /** The functions of one fiber, in emission order, and which of them is `main`. */
  datatype Program = Program(fns: seq<Fn>, main: nat)

  datatype Error = WrongNumberOfArgs | NoReturnValue | NoReturnStatement

  /**
   * The outcome of running a piece of structured code. `Diverge` is a run that needs a deeper call stack than
   * allowed. `Stuck` is a run the language gives no meaning to: leaving a function without returning, an enum value
   * that no arm matches, a value returned from `main`, or a name the C++ compiler would not resolve.
   */
  datatype Result =
    | Fall(env: Env, output: seq<string>)
    | Ret(value: Option<Value>, output: seq<string>)
    | Throw(error: Error)
    | Stuck
    | Diverge

  function Names(vars: seq<Var>): set<string> {
    set i | 0 <= i < |vars| && !vars[i].Capture? :: vars[i].name
  }

  /** The variables of a function's outermost block: its arguments come first. */
  function Decls(fn: Fn): seq<Var> {
    seq(|fn.params|, i requires 0 <= i < |fn.params| => FunctionArg(fn.params[i])) + fn.vars
  }

  /** Adds `vars` to `env`; initializers see only the variables of the enclosing scopes, `outer`. */
  function Declare(vars: seq<Var>, outer: Env, env: Env, args: seq<Value>): Env {
    if vars == [] then env else
      match vars[0]
      case Regular(name, init) => Declare(vars[1..], outer, env[name := init(outer)], args)
      case FunctionArg(name) =>
        if args == [] then Declare(vars[1..], outer, env, args)
        else Declare(vars[1..], outer, env[name := args[0]], args[1..])
      case Capture(_) => Declare(vars[1..], outer, env, args)
  }

  /** Code may assign the variables in scope; it can neither add nor drop any. */
  function Assign(env: Env, update: Env): Env {
    map k | k in env :: if k in update then update[k] else env[k]
  }

  function Restrict(env: Env, names: set<string>): Env {
    map k | k in env && k in names :: env[k]
  }

  function Emit(output: seq<string>, r: Result): Result {
    match r
    case Fall(env, more) => Fall(env, output + more)
    case Ret(value, more) => Ret(value, output + more)
    case _ => r
  }

  /** Resumes a caller whose variables are `env` after its callee ended with `r`. */
  function Resume(r: Result, env: Env, bind: Option<string>): Result {
    match r
    case Ret(value, output) =>
      if bind.None? then Fall(env, output)
      else if value.None? then Throw(NoReturnValue)
      else Fall(env[bind.value := value.value], output)
    case Fall(_, _) => Stuck
    case _ => r
  }

  /** `fuel` bounds the depth of calls; the language has no other source of unbounded work. */
  function Exec(p: Program, node: Node, env: Env, fuel: nat): Result
    decreases fuel, node
  {
    match node
    case Stmt(run) =>
      var effect := run(env);
      var env' := Assign(env, effect.env);
      (match effect.control
       case Next => Fall(env', effect.output)
       case Return(value) => Ret(value, effect.output)
       case Call(callee, args, bind) =>
         if callee >= |p.fns| || (bind.Some? && bind.value !in env) then Stuck
         else if |args| != |p.fns[callee].params| then Throw(WrongNumberOfArgs)
         else if fuel == 0 then Diverge
         else Emit(effect.output, Resume(ExecFn(p, p.fns[callee], args, fuel - 1), env', bind)))
    case If(cond, yes, no) => if cond(env) then Exec(p, yes, env, fuel) else Exec(p, no, env, fuel)
    case Block(vars, code) => Leave(ExecCode(p, code, Declare(vars, env, env, []), fuel), env.Keys)
    case Match(tag, arms) => ExecMatch(p, arms, tag(env), env, fuel)
  }

  function Leave(r: Result, outer: set<string>): Result {
    if r.Fall? then r.(env := Restrict(r.env, outer)) else r
  }

  function ExecCode(p: Program, code: Code, env: Env, fuel: nat): Result
    decreases fuel, code
  {
    match code
    case Nil => Fall(env, [])
    case Cons(head, tail) =>
      var r := Exec(p, head, env, fuel);
      if r.Fall? then Emit(r.output, ExecCode(p, tail, r.env, fuel)) else r
  }

  function ExecMatch(p: Program, arms: Arms, tag: string, env: Env, fuel: nat): Result
    decreases fuel, arms
  {
    match arms
    case NoArm => Stuck
    case Arm(key, vars, body, rest) =>
      if key.None? || key.value == tag
      then Leave(ExecCode(p, body, Declare(vars, env, env, []), fuel), env.Keys)
      else ExecMatch(p, rest, tag, env, fuel)
  }

  function ExecFn(p: Program, fn: Fn, args: seq<Value>, fuel: nat): Result
    decreases fuel, fn
  {
    ExecCode(p, fn.code, Declare(Decls(fn), map[], map[], args), fuel)
  }

  /** A whole run: `main` takes no arguments and returns no value. */
  function ExecMain(p: Program, fuel: nat): (r: Result)
    requires p.main < |p.fns|
    ensures !r.Fall? && (r.Ret? ==> r.value.None?)
  {
    match ExecFn(p, p.fns[p.main], [], fuel)
    case Ret(None, output) => Ret(None, output)
    case Throw(e) => Throw(e)
    case Diverge => Diverge
    case _ => Stuck
  }

  /**
   * The names in scope never clash and only the outermost block has arguments. The accessors emitted for a step
   * are all C++ declarations of one function, so C++ rejects every other program.
   */
  predicate Fresh(vars: seq<Var>, scope: set<string>) {
    && (forall i | 0 <= i < |vars| :: !vars[i].FunctionArg?)
    && Distinct(vars)
    && Names(vars) !! scope
  }

  predicate Distinct(vars: seq<Var>) {
    forall i, j | 0 <= i < j < |vars| && !vars[i].Capture? && !vars[j].Capture? :: vars[i].name != vars[j].name
  }

  predicate Scoped(node: Node, scope: set<string>) {
    match node
    case Stmt(_) => true
    case If(_, yes, no) => Scoped(yes, scope) && Scoped(no, scope)
    case Block(vars, code) => Fresh(vars, scope) && ScopedCode(code, scope + Names(vars))
    case Match(_, arms) => ScopedArms(arms, scope)
  }

  predicate ScopedCode(code: Code, scope: set<string>) {
    code.Cons? ==> Scoped(code.head, scope) && ScopedCode(code.tail, scope)
  }

  predicate ScopedArms(arms: Arms, scope: set<string>) {
    arms.Arm? ==>
      && Fresh(arms.vars, scope) && ScopedCode(arms.body, scope + Names(arms.vars))
      && ScopedArms(arms.rest, scope)
  }

  predicate ScopedFn(fn: Fn) {
    Fresh(fn.vars, {}) && Distinct(Decls(fn)) && ScopedCode(fn.code, Names(Decls(fn)))
  }

  predicate ScopedProgram(p: Program) {
    && p.main < |p.fns| && p.fns[p.main].params == []
    && forall i | 0 <= i < |p.fns| :: ScopedFn(p.fns[i])
  }
}
