/**
 A one-goroutine core of Go: calls, results, deferred calls, panics and recover, with a depth-bounded interpreter that
 follows "Defer statements" and "Handling panics" of The Go Programming Language Specification. A recover sees only
 the panic of the frame that deferred the function calling it.
 */
module MiniGo {
  import opened Options
  import opened Tracert

  type Name = string

  datatype Expr = Lit(n: int) | Local(x: Name) | Global(x: Name) | Minus(l: Expr, r: Expr)

  datatype Stmt =
    | Print(e: Expr)
    | Assign(x: Name, e: Expr)
    | If(cond: Expr, thn: seq<Stmt>, els: seq<Stmt>)
    | While(cond: Expr, body: seq<Stmt>)
    | Call(target: Name, f: Name, args: seq<Expr>)     // target = f(args)
    | Return(e: Expr)
    | Panic(e: Expr)
    | Repanic                                          // panic(r), r bound by the enclosing IfRecover
    | DeferCall(f: Name, args: seq<Expr>)              // defer f(args)
    | DeferFunc(body: seq<Stmt>)                       // defer func() { body }()
    | IfRecover(thn: seq<Stmt>, els: seq<Stmt>)        // if r := recover(); r != nil { thn } else { els }
    | Enter(funcID: string, names: seq<Name>)          // __span := tracert.Enter(funcID, names...)
    | Exit                                             // tracert.Exit(__span)
    | ExitPanic                                        // tracert.ExitPanic(__span, __r)

  datatype FuncDecl = FuncDecl(params: seq<Name>, body: seq<Stmt>)

  /** The declared functions and the clock: the k-th trace event of a run is stamped clock(k). */
  datatype Program = Program(funcs: map<Name, FuncDecl>, clock: nat -> real)

  // ---- Run-time state ----

  datatype Env = Env(locals: map<Name, int>, span: Option<nat>, recovered: Option<int>)

  datatype Deferred = Closure(body: seq<Stmt>, env: Env) | DeferredCall(f: Name, args: seq<int>)

  /** inflight is the panic a recover() of this frame would stop. */
  datatype Frame = Frame(env: Env, inflight: Option<int>, defers: seq<Deferred>)

  datatype World = World(globals: map<Name, int>, output: seq<int>, nextSpan: nat, trace: seq<Event>)

  /** One activation of a declared function; end is the panic it ended with, if any. */
  datatype Act = Act(fn: Name, args: seq<int>, kids: seq<Act>, end: Option<int>)

  datatype Flow = Next | Returned(result: int) | Panicked(v: int) | OutOfFuel

  datatype BlockResult = BlockResult(flow: Flow, frame: Frame, world: World, acts: seq<Act>)

  /** How a function frame ended: flow is Returned, Panicked or OutOfFuel. */
  datatype FrameResult = FrameResult(flow: Flow, inflight: Option<int>, world: World, acts: seq<Act>)

  datatype UnwindResult = UnwindResult(fuelLeft: bool, panic: Option<int>, world: World, acts: seq<Act>)

  function Lookup(m: map<Name, int>, x: Name): int {
    if x in m then m[x] else 0
  }

  function Eval(e: Expr, env: Env, w: World): int {
    match e
    case Lit(n) => n
    case Local(x) => Lookup(env.locals, x)
    case Global(x) => Lookup(w.globals, x)
    case Minus(l, r) => Eval(l, env, w) - Eval(r, env, w)
  }

  function EvalAll(es: seq<Expr>, env: Env, w: World): seq<int> {
    seq(|es|, i requires 0 <= i < |es| => Eval(es[i], env, w))
  }

  function Values(names: seq<Name>, locals: map<Name, int>): seq<int> {
    seq(|names|, i requires 0 <= i < |names| => Lookup(locals, names[i]))
  }

  function Bind(params: seq<Name>, args: seq<int>): map<Name, int> {
    map i | 0 <= i < |params| && i < |args| && params[i] !in params[i+1..] :: params[i] := args[i]
  }

  /** The reading of the clock that stamps the next event. */
  function Now(p: Program, w: World): real {
    p.clock(|w.trace|)
  }

  function Emit(w: World, e: Event): World {
    w.(trace := w.trace + [e])
  }

  function SpanOf(env: Env): nat {
    if env.span.Some? then env.span.value else 0
  }

  // ---- The interpreter; n bounds how deeply frames and loop iterations nest ----

  function Block(n: nat, p: Program, ss: seq<Stmt>, fr: Frame, w: World): BlockResult
    decreases n, 1, ss
  {
    if ss == [] then BlockResult(Next, fr, w, [])
    else
      var a := Step(n, p, ss[0], fr, w);
      if a.flow != Next then a
      else
        var b := Block(n, p, ss[1..], a.frame, a.world);
        b.(acts := a.acts + b.acts)
  }

  function Step(n: nat, p: Program, s: Stmt, fr: Frame, w: World): BlockResult
    decreases n, 1, s
  {
    match s
    case Print(e) => BlockResult(Next, fr, w.(output := w.output + [Eval(e, fr.env, w)]), [])
    case Assign(x, e) => BlockResult(Next, fr, w.(globals := w.globals[x := Eval(e, fr.env, w)]), [])
    case If(cond, thn, els) => Block(n, p, if Eval(cond, fr.env, w) != 0 then thn else els, fr, w)
    case While(cond, body) =>
      if Eval(cond, fr.env, w) == 0 then BlockResult(Next, fr, w, [])
      else if n == 0 then BlockResult(OutOfFuel, fr, w, [])
      else
        var a := Block(n, p, body, fr, w);
        if a.flow != Next then a
        else
          var b := Step(n - 1, p, s, a.frame, a.world);
          b.(acts := a.acts + b.acts)
    case Call(target, f, args) =>
      if n == 0 then BlockResult(OutOfFuel, fr, w, [])
      else
        var a := Invoke(n - 1, p, f, EvalAll(args, fr.env, w), None, w);
        if a.flow.Returned?
        then BlockResult(Next, fr, a.world.(globals := a.world.globals[target := a.flow.result]), a.acts)
        else BlockResult(a.flow, fr, a.world, a.acts)
    case Return(e) => BlockResult(Returned(Eval(e, fr.env, w)), fr, w, [])
    case Panic(e) => BlockResult(Panicked(Eval(e, fr.env, w)), fr, w, [])
    case Repanic => BlockResult(if fr.env.recovered.Some? then Panicked(fr.env.recovered.value) else Next, fr, w, [])
    case DeferCall(f, args) =>
      BlockResult(Next, fr.(defers := fr.defers + [DeferredCall(f, EvalAll(args, fr.env, w))]), w, [])
    case DeferFunc(body) => BlockResult(Next, fr.(defers := fr.defers + [Closure(body, fr.env)]), w, [])
    case IfRecover(thn, els) =>
      if fr.inflight.Some? then
        var a := Block(n, p, thn, fr.(inflight := None, env := fr.env.(recovered := fr.inflight)), w);
        a.(frame := a.frame.(env := fr.env))
      else Block(n, p, els, fr, w)
    case Enter(funcID, names) =>
      var w' := Emit(w, CallEvent(funcID, Now(p, w), w.nextSpan, Values(names, fr.env.locals)));
      BlockResult(Next, fr.(env := fr.env.(span := Some(w.nextSpan))), w'.(nextSpan := w.nextSpan + 1), [])
    case Exit => BlockResult(Next, fr, Emit(w, RetEvent(Now(p, w), SpanOf(fr.env))), [])
    case ExitPanic =>
      var v := if fr.env.recovered.Some? then fr.env.recovered.value else 0;
      BlockResult(Next, fr, Emit(w, PanicEvent(Now(p, w), SpanOf(fr.env), v)), [])
  }

  /** A function body from entry to exit: run the statements, then the deferred calls, last one first. */
  function RunFrame(n: nat, p: Program, body: seq<Stmt>, env: Env, inflight: Option<int>, w: World): FrameResult
    decreases n, 3
  {
    var a := Block(n, p, body, Frame(env, inflight, []), w);
    if a.flow == OutOfFuel then FrameResult(OutOfFuel, inflight, a.world, a.acts)
    else
      var own := if a.flow.Panicked? then Some(a.flow.v) else None;
      var u := Unwind(n, p, a.frame.defers, own, a.world);
      FrameResult(Ending(u, if a.flow.Returned? then a.flow.result else 0), a.frame.inflight, u.world, a.acts + u.acts)
  }

  /** A frame returns the value it was about to return unless a panic is still running. */
  function Ending(u: UnwindResult, result: int): Flow {
    if !u.fuelLeft then OutOfFuel else if u.panic.Some? then Panicked(u.panic.value) else Returned(result)
  }

  function Unwind(n: nat, p: Program, defers: seq<Deferred>, panic: Option<int>, w: World): UnwindResult
    decreases n, 2, |defers|
  {
    if defers == [] then UnwindResult(true, panic, w, [])
    else if n == 0 then UnwindResult(false, panic, w, [])
    else
      var a := RunDeferred(n - 1, p, defers[|defers|-1], panic, w);
      if a.flow == OutOfFuel then UnwindResult(false, panic, a.world, a.acts)
      else
        var u := Unwind(n, p, defers[..|defers|-1], if a.flow.Panicked? then Some(a.flow.v) else a.inflight, a.world);
        u.(acts := a.acts + u.acts)
  }

  function RunDeferred(n: nat, p: Program, d: Deferred, panic: Option<int>, w: World): FrameResult
    decreases n, 5
  {
    match d
    case Closure(body, env) => RunFrame(n, p, body, env, panic, w)
    case DeferredCall(f, args) => Invoke(n, p, f, args, panic, w)
  }

  /** A call of a declared function; anything undeclared is foreign code without modelled effects. */
  function Invoke(n: nat, p: Program, f: Name, args: seq<int>, inflight: Option<int>, w: World): FrameResult
    decreases n, 4
  {
    if f !in p.funcs then FrameResult(Returned(0), inflight, w, [])
    else
      var fn := p.funcs[f];
      var locals := Bind(fn.params, args);
      var a := RunFrame(n, p, fn.body, Env(locals, None, None), inflight, w);
      a.(acts := [Act(f, Values(fn.params, locals), a.acts, if a.flow.Panicked? then Some(a.flow.v) else None)])
  }

  // ---- Programs before instrumentation ----

  predicate Untraced(s: Stmt) {
    match s
    case If(_, thn, els) => (forall t :: t in thn ==> Untraced(t)) && (forall t :: t in els ==> Untraced(t))
    case While(_, body) => forall t :: t in body ==> Untraced(t)
    case DeferFunc(body) => forall t :: t in body ==> Untraced(t)
    case IfRecover(thn, els) => (forall t :: t in thn ==> Untraced(t)) && (forall t :: t in els ==> Untraced(t))
    case Enter(_, _) => false
    case Exit => false
    case ExitPanic => false
    case _ => true
  }

  predicate UntracedBlock(ss: seq<Stmt>) {
    forall s :: s in ss ==> Untraced(s)
  }

  ghost predicate UntracedProgram(p: Program) {
    forall f :: f in p.funcs ==> UntracedBlock(p.funcs[f].body)
  }
}
