/**
 Instrumentation does not change what a program does. One simulation serves three purposes: with inst it relates a
 program to its instrumented form, without it relates two fuels of the same program; extra says which side must finish.
 */
module Preservation {
  import opened Options
  import opened Tracert
  import opened MiniGo
  import opened Instrumenter

  ghost predicate EnvEq(e: Env, e': Env) {
    e.locals == e'.locals && e.recovered == e'.recovered
  }

  ghost predicate DeferEq(d: Deferred, d': Deferred) {
    match d
    case Closure(body, env) => d'.Closure? && d'.body == body && UntracedBlock(body) && EnvEq(env, d'.env)
    case DeferredCall(_, _) => d' == d
  }

  ghost predicate DefersEq(ds: seq<Deferred>, ds': seq<Deferred>) {
    |ds| == |ds'| && forall i :: 0 <= i < |ds| ==> DeferEq(ds[i], ds'[i])
  }

  /** Same state up to trace data; the primed frame may have deferred pre before the related part. */
  ghost predicate FrameEq(pre: seq<Deferred>, fr: Frame, fr': Frame) {
    && EnvEq(fr.env, fr'.env) && fr.inflight == fr'.inflight
    && |pre| <= |fr'.defers| && fr'.defers[..|pre|] == pre && DefersEq(fr.defers, fr'.defers[|pre|..])
  }

  ghost predicate WorldEq(w: World, w': World) {
    w.globals == w'.globals && w.output == w'.output
  }

  ghost predicate BlockEq(pre: seq<Deferred>, r: BlockResult, r': BlockResult) {
    r.flow == r'.flow && FrameEq(pre, r.frame, r'.frame) && WorldEq(r.world, r'.world) && r.acts == r'.acts
  }

  ghost predicate FrameResultEq(r: FrameResult, r': FrameResult) {
    r.flow == r'.flow && r.inflight == r'.inflight && WorldEq(r.world, r'.world) && r.acts == r'.acts
  }

  ghost predicate UnwindEq(u: UnwindResult, u': UnwindResult) {
    u.fuelLeft && u'.fuelLeft && u.panic == u'.panic && WorldEq(u.world, u'.world) && u.acts == u'.acts
  }

  /** The program on the primed side. */
  ghost function Other(p: Program, inst: bool, boundary: Name -> bool): Program {
    if inst then Instrument(p, boundary) else p
  }

  /** With extra fuel on the primed side the plain run must finish, otherwise the primed run must. */
  predicate Finishes(extra: bool, flow: Flow, flow': Flow) {
    if extra then flow != OutOfFuel else flow' != OutOfFuel
  }

  function Fuel(n: nat, extra: bool): nat {
    if extra then n + 1 else n
  }

  lemma EvalEq(e: Expr, env: Env, env': Env, w: World, w': World)
    requires EnvEq(env, env') && WorldEq(w, w')
    ensures Eval(e, env, w) == Eval(e, env', w')
  {
  }

  lemma EvalAllEq(es: seq<Expr>, env: Env, env': Env, w: World, w': World)
    requires EnvEq(env, env') && WorldEq(w, w')
    ensures EvalAll(es, env, w) == EvalAll(es, env', w')
  {
    forall i | 0 <= i < |es| ensures Eval(es[i], env, w) == Eval(es[i], env', w') {
      EvalEq(es[i], env, env', w, w');
    }
  }

  lemma DeferMore(pre: seq<Deferred>, fr: Frame, fr': Frame, d: Deferred, d': Deferred)
    requires FrameEq(pre, fr, fr') && DeferEq(d, d')
    ensures FrameEq(pre, fr.(defers := fr.defers + [d]), fr'.(defers := fr'.defers + [d']))
  {
  }

  lemma {:induction false} SimBlock(
    n: nat, extra: bool, inst: bool, p: Program, b: Name -> bool, pre: seq<Deferred>,
    ss: seq<Stmt>, fr: Frame, fr': Frame, w: World, w': World)
    requires UntracedProgram(p) && UntracedBlock(ss) && FrameEq(pre, fr, fr') && WorldEq(w, w')
    ensures var r, r' := Block(n, p, ss, fr, w), Block(Fuel(n, extra), Other(p, inst, b), ss, fr', w');
      Finishes(extra, r.flow, r'.flow) ==> BlockEq(pre, r, r')
    decreases n, 1, ss
  {
    if ss != [] {
      SimStep(n, extra, inst, p, b, pre, ss[0], fr, fr', w, w');
      var r, r' := Step(n, p, ss[0], fr, w), Step(Fuel(n, extra), Other(p, inst, b), ss[0], fr', w');
      if Finishes(extra, r.flow, r'.flow) && r.flow == Next {
        SimBlock(n, extra, inst, p, b, pre, ss[1..], r.frame, r'.frame, r.world, r'.world);
      }
    }
  }

  lemma {:induction false} SimStep(
    n: nat, extra: bool, inst: bool, p: Program, b: Name -> bool, pre: seq<Deferred>,
    s: Stmt, fr: Frame, fr': Frame, w: World, w': World)
    requires UntracedProgram(p) && Untraced(s) && FrameEq(pre, fr, fr') && WorldEq(w, w')
    ensures var r, r' := Step(n, p, s, fr, w), Step(Fuel(n, extra), Other(p, inst, b), s, fr', w');
      Finishes(extra, r.flow, r'.flow) ==> BlockEq(pre, r, r')
    decreases n, 1, s
  {
    hide Block;
    hide Other;
    match s
    case Print(e) => EvalEq(e, fr.env, fr'.env, w, w');
    case Assign(x, e) => EvalEq(e, fr.env, fr'.env, w, w');
    case If(cond, thn, els) =>
      EvalEq(cond, fr.env, fr'.env, w, w');
      SimBlock(n, extra, inst, p, b, pre, if Eval(cond, fr.env, w) != 0 then thn else els, fr, fr', w, w');
    case While(cond, body) => SimWhile(n, extra, inst, p, b, pre, s, fr, fr', w, w');
    case Call(_, _, _) => SimCall(n, extra, inst, p, b, pre, s, fr, fr', w, w');
    case Return(e) => EvalEq(e, fr.env, fr'.env, w, w');
    case Panic(e) => EvalEq(e, fr.env, fr'.env, w, w');
    case Repanic =>
    case DeferCall(f, args) =>
      EvalAllEq(args, fr.env, fr'.env, w, w');
      DeferMore(pre, fr, fr', DeferredCall(f, EvalAll(args, fr.env, w)), DeferredCall(f, EvalAll(args, fr'.env, w')));
    case DeferFunc(body) => DeferMore(pre, fr, fr', Closure(body, fr.env), Closure(body, fr'.env));
    case IfRecover(_, _) => SimRecover(n, extra, inst, p, b, pre, s, fr, fr', w, w');
  }

  lemma {:induction false} SimCall(
    n: nat, extra: bool, inst: bool, p: Program, b: Name -> bool, pre: seq<Deferred>,
    s: Stmt, fr: Frame, fr': Frame, w: World, w': World)
    requires s.Call?
    requires UntracedProgram(p) && FrameEq(pre, fr, fr') && WorldEq(w, w')
    ensures var r, r' := Step(n, p, s, fr, w), Step(Fuel(n, extra), Other(p, inst, b), s, fr', w');
      Finishes(extra, r.flow, r'.flow) ==> BlockEq(pre, r, r')
    decreases n, 1, s, 0
  {
    EvalAllEq(s.args, fr.env, fr'.env, w, w');
    if n > 0 {
      SimInvoke(n - 1, extra, inst, p, b, s.f, EvalAll(s.args, fr.env, w), None, w, w');
      hide Invoke;
    }
  }

  lemma {:induction false} SimRecover(
    n: nat, extra: bool, inst: bool, p: Program, b: Name -> bool, pre: seq<Deferred>,
    s: Stmt, fr: Frame, fr': Frame, w: World, w': World)
    requires s.IfRecover?
    requires UntracedProgram(p) && Untraced(s) && FrameEq(pre, fr, fr') && WorldEq(w, w')
    ensures var r, r' := Step(n, p, s, fr, w), Step(Fuel(n, extra), Other(p, inst, b), s, fr', w');
      Finishes(extra, r.flow, r'.flow) ==> BlockEq(pre, r, r')
    decreases n, 1, s, 0
  {
    hide Block;
    if fr.inflight.Some? {
      SimBlock(n, extra, inst, p, b, pre, s.thn,
        fr.(inflight := None, env := fr.env.(recovered := fr.inflight)),
        fr'.(inflight := None, env := fr'.env.(recovered := fr'.inflight)), w, w');
    } else {
      SimBlock(n, extra, inst, p, b, pre, s.els, fr, fr', w, w');
    }
  }

  lemma {:induction false} SimWhile(
    n: nat, extra: bool, inst: bool, p: Program, b: Name -> bool, pre: seq<Deferred>,
    s: Stmt, fr: Frame, fr': Frame, w: World, w': World)
    requires s.While?
    requires UntracedProgram(p) && Untraced(s) && FrameEq(pre, fr, fr') && WorldEq(w, w')
    ensures var r, r' := Step(n, p, s, fr, w), Step(Fuel(n, extra), Other(p, inst, b), s, fr', w');
      Finishes(extra, r.flow, r'.flow) ==> BlockEq(pre, r, r')
    decreases n, 1, s, 0
  {
    hide Block;
    hide Other;
    var m, q := Fuel(n, extra), Other(p, inst, b);
    EvalEq(s.cond, fr.env, fr'.env, w, w');
    if n > 0 && Eval(s.cond, fr.env, w) != 0 {
      SimBlock(n, extra, inst, p, b, pre, s.body, fr, fr', w, w');
      var r, r' := Block(n, p, s.body, fr, w), Block(m, q, s.body, fr', w');
      if Finishes(extra, r.flow, r'.flow) && r.flow == Next {
        SimStep(n - 1, extra, inst, p, b, pre, s, r.frame, r'.frame, r.world, r'.world);
      }
    }
  }

  /** Frames whose body is the same on both sides: function literals, and every function when not instrumenting. */
  lemma {:induction false} SimFrame(
    n: nat, extra: bool, inst: bool, p: Program, b: Name -> bool,
    body: seq<Stmt>, env: Env, env': Env, inflight: Option<int>, w: World, w': World)
    requires UntracedProgram(p) && UntracedBlock(body) && EnvEq(env, env') && WorldEq(w, w')
    ensures var r, r' := RunFrame(n, p, body, env, inflight, w),
                         RunFrame(Fuel(n, extra), Other(p, inst, b), body, env', inflight, w');
      Finishes(extra, r.flow, r'.flow) ==> FrameResultEq(r, r')
    decreases n, 3
  {
    var m, q := Fuel(n, extra), Other(p, inst, b);
    SimBlock(n, extra, inst, p, b, [], body, Frame(env, inflight, []), Frame(env', inflight, []), w, w');
    var a, a' := Block(n, p, body, Frame(env, inflight, []), w), Block(m, q, body, Frame(env', inflight, []), w');
    if Finishes(extra, a.flow, a'.flow) {
      assert a'.frame.defers[0..] == a'.frame.defers;
      SimUnwind(n, extra, inst, p, b, a.frame.defers, a'.frame.defers,
        if a.flow.Panicked? then Some(a.flow.v) else None, a.world, a'.world);
    }
  }

  predicate UnwindFinishes(extra: bool, u: UnwindResult, u': UnwindResult) {
    if extra then u.fuelLeft else u'.fuelLeft
  }

  lemma {:induction false} SimUnwind(
    n: nat, extra: bool, inst: bool, p: Program, b: Name -> bool,
    ds: seq<Deferred>, ds': seq<Deferred>, panic: Option<int>, w: World, w': World)
    requires UntracedProgram(p) && DefersEq(ds, ds') && WorldEq(w, w')
    ensures var u, u' := Unwind(n, p, ds, panic, w), Unwind(Fuel(n, extra), Other(p, inst, b), ds', panic, w');
      UnwindFinishes(extra, u, u') ==> UnwindEq(u, u')
    decreases n, 2, |ds|
  {
    hide RunDeferred;
    hide Other;
    if ds != [] && n > 0 {
      var m, q := Fuel(n, extra), Other(p, inst, b);
      var d, d' := ds[|ds|-1], ds'[|ds|-1];
      SimDeferred(n - 1, extra, inst, p, b, d, d', panic, w, w');
      var a, a' := RunDeferred(n - 1, p, d, panic, w), RunDeferred(m - 1, q, d', panic, w');
      if Finishes(extra, a.flow, a'.flow) {
        SimUnwind(n, extra, inst, p, b, ds[..|ds|-1], ds'[..|ds|-1],
          if a.flow.Panicked? then Some(a.flow.v) else a.inflight, a.world, a'.world);
      }
    }
  }

  lemma {:induction false} SimDeferred(
    n: nat, extra: bool, inst: bool, p: Program, b: Name -> bool,
    d: Deferred, d': Deferred, panic: Option<int>, w: World, w': World)
    requires UntracedProgram(p) && DeferEq(d, d') && WorldEq(w, w')
    ensures var r, r' := RunDeferred(n, p, d, panic, w), RunDeferred(Fuel(n, extra), Other(p, inst, b), d', panic, w');
      Finishes(extra, r.flow, r'.flow) ==> FrameResultEq(r, r')
    decreases n, 5
  {
    match d
    case Closure(body, env) => SimFrame(n, extra, inst, p, b, body, env, d'.env, panic, w, w');
    case DeferredCall(f, args) => SimInvoke(n, extra, inst, p, b, f, args, panic, w, w');
  }

  lemma {:induction false} SimInvoke(
    n: nat, extra: bool, inst: bool, p: Program, b: Name -> bool,
    f: Name, args: seq<int>, inflight: Option<int>, w: World, w': World)
    requires UntracedProgram(p) && WorldEq(w, w')
    ensures var r, r' := Invoke(n, p, f, args, inflight, w),
                         Invoke(Fuel(n, extra), Other(p, inst, b), f, args, inflight, w');
      Finishes(extra, r.flow, r'.flow) ==> FrameResultEq(r, r')
    decreases n, 4
  {
    if f in p.funcs {
      var fn := p.funcs[f];
      var env := Env(Bind(fn.params, args), None, None);
      if inst {
        SimInstrumented(n, extra, p, b, f, env, inflight, w, w');
      } else {
        SimFrame(n, extra, inst, p, b, fn.body, env, env, inflight, w, w');
      }
    }
  }

  // ---- The instrumented function ----

  /** The deferred tracer of a frame whose span is in env. */
  function TracerOf(env: Env): Deferred {
    Closure(TRACER, env)
  }

  /** What the tracer leaves of the world: one closing event, stamped and carrying the frame's span. */
  function Closed(p: Program, env: Env, panic: Option<int>, w: World): World {
    Emit(w, if panic.Some? then PanicEvent(Now(p, w), SpanOf(env), panic.value) else RetEvent(Now(p, w), SpanOf(env)))
  }

  lemma BlockOfOne(n: nat, p: Program, s: Stmt, fr: Frame, w: World)
    ensures Block(n, p, [s], fr, w) == Step(n, p, s, fr, w)
  {
  }

  lemma BlockOfTwo(n: nat, p: Program, s: Stmt, t: Stmt, fr: Frame, w: World)
    ensures var a := Step(n, p, s, fr, w);
      Block(n, p, [s, t], fr, w)
      == if a.flow != Next then a
         else var c := Step(n, p, t, a.frame, a.world); c.(acts := a.acts + c.acts)
  {
    assert [s, t][1..] == [t];
    var a := Step(n, p, s, fr, w);
    BlockOfOne(n, p, t, a.frame, a.world);
  }

  lemma TracerOnPanic(n: nat, p: Program, env: Env, v: int, w: World)
    ensures var r := Block(n, p, TRACER, Frame(env, Some(v), []), w);
      r == BlockResult(Panicked(v), Frame(env, None, []), Closed(p, env, Some(v), w), [])
  {
    var fr, inner := Frame(env, Some(v), []), Frame(env.(recovered := Some(v)), None, []);
    var w1 := Closed(p, env, Some(v), w);
    assert Step(n, p, ExitPanic, inner, w) == BlockResult(Next, inner, w1, []);
    assert Step(n, p, Repanic, inner, w1) == BlockResult(Panicked(v), inner, w1, []);
    BlockOfTwo(n, p, ExitPanic, Repanic, inner, w);
    var c := Block(n, p, [ExitPanic, Repanic], inner, w);
    assert c == BlockResult(Panicked(v), inner, Closed(p, env, Some(v), w), []);
    BlockOfTwo(n, p, TRACER[0], Exit, fr, w);
  }

  lemma TracerOnReturn(n: nat, p: Program, env: Env, w: World)
    ensures var r := Block(n, p, TRACER, Frame(env, None, []), w);
      r == BlockResult(Next, Frame(env, None, []), Closed(p, env, None, w), [])
  {
    var fr := Frame(env, None, []);
    BlockOfTwo(n, p, TRACER[0], Exit, fr, w);
    assert Step(n, p, TRACER[0], fr, w) == BlockResult(Next, fr, w, []);
  }

  /** Recovering and panicking again with the same value leaves the panic as it was. */
  lemma TracerIsTransparent(n: nat, p: Program, env: Env, panic: Option<int>, w: World)
    ensures var r := RunDeferred(n, p, TracerOf(env), panic, w);
      && r.flow == (if panic.Some? then Panicked(panic.value) else Returned(0))
      && r.inflight == None && r.acts == [] && r.world == Closed(p, env, panic, w)
  {
    if panic.Some? {
      TracerOnPanic(n, p, env, panic.value, w);
    } else {
      TracerOnReturn(n, p, env, w);
    }
    hide Block;
    var world := Closed(p, env, panic, w);
    assert Unwind(n, p, [], panic, world) == UnwindResult(true, panic, world, []);
    assert RunDeferred(n, p, TracerOf(env), panic, w) == RunFrame(n, p, TRACER, env, panic, w);
  }

  /** The world once Enter has run: the call is logged and its span taken. */
  function Entered(p: Program, funcID: string, args: seq<int>, w: World): World {
    Emit(w, CallEvent(funcID, Now(p, w), w.nextSpan, args)).(nextSpan := w.nextSpan + 1)
  }

  lemma PrologueRuns(m: nat, q: Program, funcID: string, names: seq<Name>, body: seq<Stmt>, env: Env,
                     inflight: Option<int>, w: World)
    ensures var env1 := env.(span := Some(w.nextSpan));
      var w1 := Entered(q, funcID, Values(names, env.locals), w);
      Block(m, q, Prologue(funcID, names) + body, Frame(env, inflight, []), w)
      == Block(m, q, body, Frame(env1, inflight, [TracerOf(env1)]), w1)
  {
    var ss := Prologue(funcID, names) + body;
    var rest := [DeferFunc(TRACER)] + body;
    assert ss[1..] == rest && rest[1..] == body;
    var env1 := env.(span := Some(w.nextSpan));
    var w1 := Entered(q, funcID, Values(names, env.locals), w);
    assert Step(m, q, ss[0], Frame(env, inflight, []), w) == BlockResult(Next, Frame(env1, inflight, []), w1, []);
    assert Step(m, q, rest[0], Frame(env1, inflight, []), w1)
        == BlockResult(Next, Frame(env1, inflight, [] + [TracerOf(env1)]), w1, []);
    assert [] + [TracerOf(env1)] == [TracerOf(env1)];
    var r := Block(m, q, body, Frame(env1, inflight, [TracerOf(env1)]), w1);
    assert [] + r.acts == r.acts;
  }

  /** The tracer was deferred first, so it runs last, on whatever panic the user's deferred calls left. */
  lemma {:induction false} TracerRunsLast(m: nat, q: Program, env: Env, ds: seq<Deferred>, panic: Option<int>, w: World)
    requires m > 0
    ensures var u, all := Unwind(m, q, ds, panic, w), Unwind(m, q, [TracerOf(env)] + ds, panic, w);
      if u.fuelLeft then all == UnwindResult(true, u.panic, Closed(q, env, u.panic, u.world), u.acts)
      else !all.fuelLeft
    decreases |ds|
  {
    var all := [TracerOf(env)] + ds;
    if ds == [] {
      assert all == [TracerOf(env)] && all[..0] == [];
      TracerIsTransparent(m - 1, q, env, panic, w);
      var r := RunDeferred(m - 1, q, TracerOf(env), panic, w);
    } else {
      assert all[|all|-1] == ds[|ds|-1] && all[..|all|-1] == [TracerOf(env)] + ds[..|ds|-1];
      var a := RunDeferred(m - 1, q, ds[|ds|-1], panic, w);
      if a.flow != OutOfFuel {
        TracerRunsLast(m, q, env, ds[..|ds|-1], if a.flow.Panicked? then Some(a.flow.v) else a.inflight, a.world);
      }
    }
  }

  lemma DeferredNeedsFuel(q: Program, ds: seq<Deferred>, panic: Option<int>, w: World)
    requires ds != []
    ensures !Unwind(0, q, ds, panic, w).fuelLeft
  {
  }

  /** An instrumented frame: the original body with the tracer deferred first, then everything deferred. */
  lemma InstrumentedFrame(m: nat, p: Program, b: Name -> bool, f: Name, env: Env, inflight: Option<int>, w: World)
    requires f in p.funcs
    ensures var q := Instrument(p, b);
      var args := Values(if b(f) then p.funcs[f].params else [], env.locals);
      var env1 := env.(span := Some(w.nextSpan));
      var a := Block(m, q, p.funcs[f].body, Frame(env1, inflight, [TracerOf(env1)]), Entered(q, f, args, w));
      RunFrame(m, q, q.funcs[f].body, env, inflight, w)
      == if a.flow == OutOfFuel then FrameResult(OutOfFuel, inflight, a.world, a.acts)
         else
           var all := Unwind(m, q, a.frame.defers, if a.flow.Panicked? then Some(a.flow.v) else None, a.world);
           FrameResult(Ending(all, if a.flow.Returned? then a.flow.result else 0), a.frame.inflight, all.world,
                       a.acts + all.acts)
  {
    hide Block;
    hide Unwind;
    hide Entered;
    var names := if b(f) then p.funcs[f].params else [];
    PrologueRuns(m, Instrument(p, b), f, names, p.funcs[f].body, env, inflight, w);
  }

  lemma {:induction false} SimInstrumented(
    n: nat, extra: bool, p: Program, b: Name -> bool, f: Name, env: Env, inflight: Option<int>, w: World, w': World)
    requires UntracedProgram(p) && WorldEq(w, w') && f in p.funcs
    ensures var q := Instrument(p, b);
      var r, r' := RunFrame(n, p, p.funcs[f].body, env, inflight, w),
                   RunFrame(Fuel(n, extra), q, q.funcs[f].body, env, inflight, w');
      Finishes(extra, r.flow, r'.flow) ==> FrameResultEq(r, r')
    decreases n, 3
  {
    hide Block;
    hide Unwind;
    var m, q, body := Fuel(n, extra), Instrument(p, b), p.funcs[f].body;
    InstrumentedFrame(m, p, b, f, env, inflight, w');
    var env1 := env.(span := Some(w'.nextSpan));
    var tracer, w1 := TracerOf(env1), Entered(q, f, Values(if b(f) then p.funcs[f].params else [], env.locals), w');
    SimBlock(n, extra, true, p, b, [tracer], body, Frame(env, inflight, []), Frame(env1, inflight, [tracer]), w, w1);
    var a, a' := Block(n, p, body, Frame(env, inflight, []), w), Block(m, q, body, Frame(env1, inflight, [tracer]), w1);
    if Finishes(extra, a.flow, a'.flow) {
      var own := if a.flow.Panicked? then Some(a.flow.v) else None;
      var ds, ds' := a.frame.defers, a'.frame.defers[1..];
      assert a'.frame.defers == [tracer] + ds';
      SimUnwind(n, extra, true, p, b, ds, ds', own, a.world, a'.world);
      TracerAfter(m, q, env1, ds', own, a'.world);
    }
  }

  /** With or without fuel: an unwinding that starts with the tracer finishes only if the rest did. */
  lemma TracerAfter(m: nat, q: Program, env: Env, ds: seq<Deferred>, panic: Option<int>, w: World)
    ensures var u, all := Unwind(m, q, ds, panic, w), Unwind(m, q, [TracerOf(env)] + ds, panic, w);
      if m > 0 && u.fuelLeft then all == UnwindResult(true, u.panic, Closed(q, env, u.panic, u.world), u.acts)
      else !all.fuelLeft
  {
    if m > 0 {
      TracerRunsLast(m, q, env, ds, panic, w);
    } else {
      DeferredNeedsFuel(q, [TracerOf(env)] + ds, panic, w);
    }
    hide Unwind;
  }

  // ---- Whole programs ----

  /** What a run shows: how main ended, what was printed, the final variables and the tree of activations. */
  datatype Behaviour = Behaviour(flow: Flow, output: seq<int>, globals: map<Name, int>, acts: seq<Act>)

  const START := World(map[], [], 1, [])

  function Run(n: nat, p: Program, main: Name): FrameResult {
    Invoke(n, p, main, [], None, START)
  }

  function Shown(r: FrameResult): Behaviour {
    Behaviour(r.flow, r.world.output, r.world.globals, r.acts)
  }

  ghost predicate Behaves(p: Program, main: Name, out: Behaviour) {
    exists n: nat :: Run(n, p, main).flow != OutOfFuel && Shown(Run(n, p, main)) == out
  }

  /** A finished run is unaffected by more fuel, so a program has at most one behaviour. */
  lemma {:induction false} MoreFuelSameRun(n: nat, m: nat, p: Program, main: Name)
    requires UntracedProgram(p) && n <= m && Run(n, p, main).flow != OutOfFuel
    ensures Run(m, p, main).flow != OutOfFuel && Shown(Run(m, p, main)) == Shown(Run(n, p, main))
    decreases m - n
  {
    if n < m {
      SimInvoke(n, true, false, p, _ => false, main, [], None, START, START);
      MoreFuelSameRun(n + 1, m, p, main);
    }
  }

  lemma BehaviourIsUnique(p: Program, main: Name, out: Behaviour, out': Behaviour)
    requires UntracedProgram(p) && Behaves(p, main, out) && Behaves(p, main, out')
    ensures out == out'
  {
    var n: nat :| Run(n, p, main).flow != OutOfFuel && Shown(Run(n, p, main)) == out;
    var m: nat :| Run(m, p, main).flow != OutOfFuel && Shown(Run(m, p, main)) == out';
    if n <= m { MoreFuelSameRun(n, m, p, main); } else { MoreFuelSameRun(m, n, p, main); }
  }

  /** The instrumented program does exactly what the original does, and diverges exactly when it does. */
  lemma InstrumentationPreservesMeaning(p: Program, b: Name -> bool, main: Name, out: Behaviour)
    requires UntracedProgram(p)
    ensures Behaves(p, main, out) <==> Behaves(Instrument(p, b), main, out)
  {
    var q := Instrument(p, b);
    if Behaves(p, main, out) {
      var n: nat :| Run(n, p, main).flow != OutOfFuel && Shown(Run(n, p, main)) == out;
      SimInvoke(n, true, true, p, b, main, [], None, START, START);
      assert Shown(Run(n + 1, q, main)) == out;
    }
    if Behaves(q, main, out) {
      var n: nat :| Run(n, q, main).flow != OutOfFuel && Shown(Run(n, q, main)) == out;
      SimInvoke(n, false, true, p, b, main, [], None, START, START);
      assert Shown(Run(n, p, main)) == out;
    }
  }
}
