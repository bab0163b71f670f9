/** The trace of an instrumented run is exactly the dynamic call tree, written out event by event. */
module CallTrace {
  import opened Options
  import opened Tracert
  import opened MiniGo
  import opened Instrumenter
  import opened Preservation

  function Size(acts: seq<Act>): nat {
    if acts == [] then 0 else 1 + Size(acts[0].kids) + Size(acts[1..])
  }

  function ClosingEvent(end: Option<int>, ts: real, span: nat): Event {
    if end.Some? then PanicEvent(ts, span, end.value) else RetEvent(ts, span)
  }

  /** Only boundary functions report their arguments. */
  function Shows(b: Name -> bool, a: Act): seq<int> {
    if b(a.fn) then a.args else []
  }

  /**
   The events of a forest of activations when the next event is the i-th of the run and the next span is s: each
   activation opens, runs its children, and closes exactly once, with one span id for both events.
   */
  function Flat(clock: nat -> real, b: Name -> bool, acts: seq<Act>, i: nat, s: nat): seq<Event>
    decreases acts
  {
    if acts == [] then [] else
      var n := 1 + Size(acts[0].kids);
      FlatAct(clock, b, acts[0], i, s) + Flat(clock, b, acts[1..], i + 2 * n, s + n)
  }

  function FlatAct(clock: nat -> real, b: Name -> bool, a: Act, i: nat, s: nat): seq<Event>
    decreases a
  {
    [CallEvent(a.fn, clock(i), s, Shows(b, a))]
    + Flat(clock, b, a.kids, i + 1, s + 1)
    + [ClosingEvent(a.end, clock(i + 1 + 2 * Size(a.kids)), s)]
  }

  /** An activation's own two events, field by field; its children's lie between them. */
  lemma ActivationEvents(clock: nat -> real, b: Name -> bool, a: Act, i: nat, s: nat)
    ensures var es, n := FlatAct(clock, b, a, i, s), 2 * Size(a.kids) + 2;
      && |es| == n && es[1..n-1] == Flat(clock, b, a.kids, i + 1, s + 1)
      && es[0] == Event("call", a.fn, "", 0, clock(i), 1, s, if b(a.fn) then a.args else [], [], None)
      && es[n-1] == Event(if a.end.Some? then "panic" else "ret", "", "", 0, clock(i + n - 1), 1, s, [], [], a.end)
  {
    FlatLength(clock, b, a.kids, i + 1, s + 1);
  }

  lemma {:induction false} FlatLength(clock: nat -> real, b: Name -> bool, acts: seq<Act>, i: nat, s: nat)
    ensures |Flat(clock, b, acts, i, s)| == 2 * Size(acts)
    decreases acts
  {
    if acts != [] {
      var n := 1 + Size(acts[0].kids);
      FlatLength(clock, b, acts[0].kids, i + 1, s + 1);
      FlatLength(clock, b, acts[1..], i + 2 * n, s + n);
    }
  }

  lemma {:induction false} SizeOfConcat(x: seq<Act>, y: seq<Act>)
    ensures Size(x + y) == Size(x) + Size(y)
  {
    if x == [] {
      assert x + y == y;
    } else {
      SizeOfConcat(x[1..], y);
      assert (x + y)[1..] == x[1..] + y;
    }
  }

  lemma FlatSplits(clock: nat -> real, b: Name -> bool, acts: seq<Act>, i: nat, s: nat)
    requires acts != []
    ensures var n := 1 + Size(acts[0].kids);
      Flat(clock, b, acts, i, s) == FlatAct(clock, b, acts[0], i, s) + Flat(clock, b, acts[1..], i + 2 * n, s + n)
    ensures Size(acts) == 1 + Size(acts[0].kids) + Size(acts[1..])
  {
  }

  lemma FlatOfNone(clock: nat -> real, b: Name -> bool, i: nat, s: nat)
    ensures Flat(clock, b, [], i, s) == [] && Size([]) == 0
  {
  }

  lemma {:induction false} FlatOfConcat(clock: nat -> real, b: Name -> bool, x: seq<Act>, y: seq<Act>, i: nat, s: nat)
    ensures Flat(clock, b, x + y, i, s) == Flat(clock, b, x, i, s) + Flat(clock, b, y, i + 2 * Size(x), s + Size(x))
    decreases |x|
  {
    hide FlatAct;
    hide Flat;
    hide Size;
    if x == [] {
      assert x + y == y;
      FlatOfNone(clock, b, i, s);
    } else {
      var n := 1 + Size(x[0].kids);
      var i', s' := i + 2 * n, s + n;
      FlatOfConcat(clock, b, x[1..], y, i', s');
      FlatSplits(clock, b, x, i, s);
      FlatSplits(clock, b, x + y, i, s);
      assert (x + y)[1..] == x[1..] + y && (x + y)[0] == x[0];
      assert i' + 2 * Size(x[1..]) == i + 2 * Size(x) && s' + Size(x[1..]) == s + Size(x);
      Regroup(FlatAct(clock, b, x[0], i, s), Flat(clock, b, x[1..], i', s'),
              Flat(clock, b, y, i + 2 * Size(x), s + Size(x)));
    }
  }

  lemma Regroup<T>(x: seq<T>, y: seq<T>, z: seq<T>)
    ensures (x + y) + z == x + (y + z)
  {
  }

  lemma FlatOfOne(clock: nat -> real, b: Name -> bool, a: Act, i: nat, s: nat)
    ensures Flat(clock, b, [a], i, s)
         == [CallEvent(a.fn, clock(i), s, Shows(b, a))] + Flat(clock, b, a.kids, i + 1, s + 1)
            + [ClosingEvent(a.end, clock(i + 1 + 2 * Size(a.kids)), s)]
    ensures Size([a]) == 1 + Size(a.kids)
  {
  }

  /** Every activation is of a declared function, with one argument a parameter. */
  predicate Declared(p: Program, acts: seq<Act>) {
    acts == [] ||
    (&& acts[0].fn in p.funcs && |acts[0].args| == |p.funcs[acts[0].fn].params|
     && Declared(p, acts[0].kids) && Declared(p, acts[1..]))
  }

  lemma {:induction false} DeclaredConcat(p: Program, x: seq<Act>, y: seq<Act>)
    requires Declared(p, x) && Declared(p, y)
    ensures Declared(p, x + y)
  {
    if x == [] {
      assert x + y == y;
    } else {
      DeclaredConcat(p, x[1..], y);
      assert (x + y)[1..] == x[1..] + y;
    }
  }

  lemma DeclaredOne(p: Program, a: Act)
    requires a.fn in p.funcs && |a.args| == |p.funcs[a.fn].params| && Declared(p, a.kids)
    ensures Declared(p, [a])
  {
  }

  // ---- Running instrumented code ----

  /** Between w and w' the run logged exactly acts, taking one span per activation. */
  ghost predicate Logged(p: Program, b: Name -> bool, w: World, w': World, acts: seq<Act>) {
    && w'.trace == w.trace + Flat(p.clock, b, acts, |w.trace|, w.nextSpan)
    && w'.nextSpan == w.nextSpan + Size(acts)
    && Declared(p, acts)
  }

  lemma NothingLogged(p: Program, b: Name -> bool, w: World, w': World)
    requires w'.trace == w.trace && w'.nextSpan == w.nextSpan
    ensures Logged(p, b, w, w', [])
  {
  }

  lemma LoggedInTurn(p: Program, b: Name -> bool, w: World, w1: World, w2: World, x: seq<Act>, y: seq<Act>)
    requires Logged(p, b, w, w1, x) && Logged(p, b, w1, w2, y)
    ensures Logged(p, b, w, w2, x + y)
  {
    hide Flat;
    hide Size;
    hide Declared;
    var i, k := |w.trace|, w.nextSpan;
    FlatLength(p.clock, b, x, i, k);
    FlatOfConcat(p.clock, b, x, y, i, k);
    SizeOfConcat(x, y);
    DeclaredConcat(p, x, y);
    Regroup(w.trace, Flat(p.clock, b, x, i, k), Flat(p.clock, b, y, i + 2 * Size(x), k + Size(x)));
  }

  ghost predicate UserDefers(ds: seq<Deferred>) {
    forall i :: 0 <= i < |ds| ==> ds[i].Closure? ==> UntracedBlock(ds[i].body)
  }

  /** A block only adds user code to the deferred calls beyond the first k. */
  ghost predicate Stacks(k: nat, fr: Frame, fr': Frame) {
    k <= |fr.defers| && k <= |fr'.defers| && fr'.defers[..k] == fr.defers[..k] && UserDefers(fr'.defers[k..])
  }

  ghost predicate BlockLogged(p: Program, b: Name -> bool, k: nat, fr: Frame, w: World, r: BlockResult) {
    r.flow != OutOfFuel ==> Logged(p, b, w, r.world, r.acts) && Stacks(k, fr, r.frame)
  }

  lemma {:induction false} LogBlock(n: nat, p: Program, b: Name -> bool, k: nat, ss: seq<Stmt>, fr: Frame, w: World)
    requires UntracedProgram(p) && UntracedBlock(ss) && Stacks(k, fr, fr)
    ensures BlockLogged(p, b, k, fr, w, Block(n, Instrument(p, b), ss, fr, w))
    decreases n, 1, ss
  {
    hide Logged;
    var q := Instrument(p, b);
    if ss == [] {
      NothingLogged(p, b, w, w);
    } else {
      LogStep(n, p, b, k, ss[0], fr, w);
      var a := Step(n, q, ss[0], fr, w);
      if a.flow == Next {
        LogBlock(n, p, b, k, ss[1..], a.frame, a.world);
        var c := Block(n, q, ss[1..], a.frame, a.world);
        if c.flow != OutOfFuel {
          LoggedInTurn(p, b, w, a.world, c.world, a.acts, c.acts);
        }
      }
    }
  }

  lemma {:induction false} LogStep(n: nat, p: Program, b: Name -> bool, k: nat, s: Stmt, fr: Frame, w: World)
    requires UntracedProgram(p) && Untraced(s) && Stacks(k, fr, fr)
    ensures BlockLogged(p, b, k, fr, w, Step(n, Instrument(p, b), s, fr, w))
    decreases n, 1, s
  {
    hide Logged;
    hide Block;
    hide Instrument;
    match s
    case Print(e) => NothingLogged(p, b, w, w.(output := w.output + [Eval(e, fr.env, w)]));
    case Assign(x, e) => NothingLogged(p, b, w, w.(globals := w.globals[x := Eval(e, fr.env, w)]));
    case If(cond, thn, els) => LogBlock(n, p, b, k, if Eval(cond, fr.env, w) != 0 then thn else els, fr, w);
    case While(cond, body) => LogWhile(n, p, b, k, s, fr, w);
    case Call(target, f, args) => LogCall(n, p, b, k, s, fr, w);
    case Return(e) => NothingLogged(p, b, w, w);
    case Panic(e) => NothingLogged(p, b, w, w);
    case Repanic => NothingLogged(p, b, w, w);
    case DeferCall(f, args) =>
      NothingLogged(p, b, w, w);
      StackOne(k, fr, DeferredCall(f, EvalAll(args, fr.env, w)));
    case DeferFunc(body) =>
      NothingLogged(p, b, w, w);
      StackOne(k, fr, Closure(body, fr.env));
    case IfRecover(thn, els) =>
      if fr.inflight.Some? {
        LogBlock(n, p, b, k, thn, fr.(inflight := None, env := fr.env.(recovered := fr.inflight)), w);
      } else {
        LogBlock(n, p, b, k, els, fr, w);
      }
  }

  lemma StackOne(k: nat, fr: Frame, d: Deferred)
    requires Stacks(k, fr, fr) && (d.Closure? ==> UntracedBlock(d.body))
    ensures Stacks(k, fr, fr.(defers := fr.defers + [d]))
  {
  }

  lemma {:induction false} LogCall(n: nat, p: Program, b: Name -> bool, k: nat, s: Stmt, fr: Frame, w: World)
    requires UntracedProgram(p) && s.Call? && Stacks(k, fr, fr)
    ensures BlockLogged(p, b, k, fr, w, Step(n, Instrument(p, b), s, fr, w))
    decreases n, 1, s, 0
  {
    if n > 0 {
      var q := Instrument(p, b);
      var a := Invoke(n - 1, q, s.f, EvalAll(s.args, fr.env, w), None, w);
      LogInvoke(n - 1, p, b, s.f, EvalAll(s.args, fr.env, w), None, w);
      hide Invoke;
    }
  }

  lemma {:induction false} LogWhile(n: nat, p: Program, b: Name -> bool, k: nat, s: Stmt, fr: Frame, w: World)
    requires UntracedProgram(p) && Untraced(s) && s.While? && Stacks(k, fr, fr)
    ensures BlockLogged(p, b, k, fr, w, Step(n, Instrument(p, b), s, fr, w))
    decreases n, 1, s, 0
  {
    hide Logged;
    hide Block;
    var q := Instrument(p, b);
    NothingLogged(p, b, w, w);
    if Eval(s.cond, fr.env, w) != 0 && n > 0 {
      LogBlock(n, p, b, k, s.body, fr, w);
      var a := Block(n, q, s.body, fr, w);
      if a.flow == Next {
        LogStep(n - 1, p, b, k, s, a.frame, a.world);
        var c := Step(n - 1, q, s, a.frame, a.world);
        if c.flow != OutOfFuel {
          LoggedInTurn(p, b, w, a.world, c.world, a.acts, c.acts);
        }
      }
    }
  }

  lemma {:induction false} LogUnwind(
    n: nat, p: Program, b: Name -> bool, ds: seq<Deferred>, panic: Option<int>, w: World)
    requires UntracedProgram(p) && UserDefers(ds)
    ensures var u := Unwind(n, Instrument(p, b), ds, panic, w);
      u.fuelLeft ==> Logged(p, b, w, u.world, u.acts)
    decreases n, 2, |ds|
  {
    hide Logged;
    hide RunDeferred;
    NothingLogged(p, b, w, w);
    if ds != [] && n > 0 {
      var q, d := Instrument(p, b), ds[|ds|-1];
      LogDeferred(n - 1, p, b, d, panic, w);
      var a := RunDeferred(n - 1, q, d, panic, w);
      if a.flow != OutOfFuel {
        var panic' := if a.flow.Panicked? then Some(a.flow.v) else a.inflight;
        LogUnwind(n, p, b, ds[..|ds|-1], panic', a.world);
        var u := Unwind(n, q, ds[..|ds|-1], panic', a.world);
        if u.fuelLeft {
          LoggedInTurn(p, b, w, a.world, u.world, a.acts, u.acts);
        }
      }
    }
  }

  lemma {:induction false} LogDeferred(n: nat, p: Program, b: Name -> bool, d: Deferred, panic: Option<int>, w: World)
    requires UntracedProgram(p) && (d.Closure? ==> UntracedBlock(d.body))
    ensures var a := RunDeferred(n, Instrument(p, b), d, panic, w);
      a.flow != OutOfFuel ==> Logged(p, b, w, a.world, a.acts)
    decreases n, 5
  {
    match d
    case Closure(body, env) => LogFrame(n, p, b, body, env, panic, w);
    case DeferredCall(f, args) => LogInvoke(n, p, b, f, args, panic, w);
  }

  lemma {:induction false} LogFrame(
    n: nat, p: Program, b: Name -> bool, body: seq<Stmt>, env: Env, inflight: Option<int>, w: World)
    requires UntracedProgram(p) && UntracedBlock(body)
    ensures var a := RunFrame(n, Instrument(p, b), body, env, inflight, w);
      a.flow != OutOfFuel ==> Logged(p, b, w, a.world, a.acts)
    decreases n, 3
  {
    hide Logged;
    hide Block;
    hide Unwind;
    var q := Instrument(p, b);
    LogBlock(n, p, b, 0, body, Frame(env, inflight, []), w);
    var a := Block(n, q, body, Frame(env, inflight, []), w);
    if a.flow != OutOfFuel {
      var own := if a.flow.Panicked? then Some(a.flow.v) else None;
      assert a.frame.defers[0..] == a.frame.defers;
      LogUnwind(n, p, b, a.frame.defers, own, a.world);
      var u := Unwind(n, q, a.frame.defers, own, a.world);
      if u.fuelLeft {
        LoggedInTurn(p, b, w, a.world, u.world, a.acts, u.acts);
      }
    }
  }

  /** Enter, whatever happens inside, and one closing event: an activation's part of the trace. */
  lemma ActivationLogged(p: Program, b: Name -> bool, f: Name, fn: FuncDecl, env: Env, w: World, w2: World,
                         kids: seq<Act>, end: Option<int>)
    requires f in p.funcs && p.funcs[f] == fn
    requires var names := if b(f) then fn.params else [];
      Logged(p, b, Entered(p, f, Values(names, env.locals), w), w2, kids)
    ensures Logged(p, b, w, Closed(p, env.(span := Some(w.nextSpan)), end, w2),
                   [Act(f, Values(fn.params, env.locals), kids, end)])
  {
    hide Flat;
    hide Size;
    var act := Act(f, Values(fn.params, env.locals), kids, end);
    DeclaredOne(p, act);
    hide Declared;
    var i, k := |w.trace|, w.nextSpan;
    FlatOfOne(p.clock, b, act, i, k);
    FlatLength(p.clock, b, kids, i + 1, k + 1);
    var inner := Flat(p.clock, b, kids, i + 1, k + 1);
    var open := CallEvent(f, p.clock(i), k, Shows(b, act));
    var close := ClosingEvent(end, p.clock(i + 1 + 2 * Size(kids)), k);
    assert Values(if b(f) then fn.params else [], env.locals) == Shows(b, act);
    assert w2.trace == w.trace + [open] + inner;
    assert |w2.trace| == i + 1 + 2 * Size(kids);
    assert Closed(p, env.(span := Some(k)), end, w2).trace == w.trace + [open] + inner + [close];
    assert w.trace + [open] + inner + [close] == w.trace + ([open] + inner + [close]);
  }

  lemma {:induction false} LogInvoke(
    n: nat, p: Program, b: Name -> bool, f: Name, args: seq<int>, inflight: Option<int>, w: World)
    requires UntracedProgram(p)
    ensures var a := Invoke(n, Instrument(p, b), f, args, inflight, w);
      a.flow != OutOfFuel ==> Logged(p, b, w, a.world, a.acts)
    decreases n, 4
  {
    var q := Instrument(p, b);
    if f !in p.funcs {
      NothingLogged(p, b, w, w);
    } else {
      var env := Env(Bind(p.funcs[f].params, args), None, None);
      LogInstrumented(n, p, b, f, env, inflight, w);
      hide RunFrame;
    }
  }

  lemma {:induction false} LogInstrumented(
    n: nat, p: Program, b: Name -> bool, f: Name, env: Env, inflight: Option<int>, w: World)
    requires UntracedProgram(p) && f in p.funcs
    ensures var q := Instrument(p, b);
      var a := RunFrame(n, q, q.funcs[f].body, env, inflight, w);
      var end := if a.flow.Panicked? then Some(a.flow.v) else None;
      a.flow != OutOfFuel ==>
        Logged(p, b, w, a.world, [Act(f, Values(p.funcs[f].params, env.locals), a.acts, end)])
    decreases n, 3
  {
    hide Block;
    hide Unwind;
    hide Logged;
    var q, fn := Instrument(p, b), p.funcs[f];
    var names := if b(f) then fn.params else [];
    InstrumentedFrame(n, p, b, f, env, inflight, w);
    var env1 := env.(span := Some(w.nextSpan));
    var fr1, w1 := Frame(env1, inflight, [TracerOf(env1)]), Entered(q, f, Values(names, env.locals), w);
    LogBlock(n, p, b, 1, fn.body, fr1, w1);
    var a := Block(n, q, fn.body, fr1, w1);
    if a.flow != OutOfFuel {
      var own := if a.flow.Panicked? then Some(a.flow.v) else None;
      var ds := a.frame.defers[1..];
      assert a.frame.defers == [TracerOf(env1)] + ds;
      TracerAfter(n, q, env1, ds, own, a.world);
      if n > 0 {
        LogUnwind(n, p, b, ds, own, a.world);
        var u := Unwind(n, q, ds, own, a.world);
        if u.fuelLeft {
          LoggedInTurn(p, b, w1, a.world, u.world, a.acts, u.acts);
          ActivationLogged(p, b, f, fn, env, w, u.world, a.acts + u.acts, u.panic);
        }
      }
    }
  }

  /** Whole runs: the trace is the call tree of the original program, spans numbered from 1 in calling order. */
  lemma TraceIsCallTree(n: nat, p: Program, b: Name -> bool, main: Name)
    requires UntracedProgram(p) && Run(n, Instrument(p, b), main).flow != OutOfFuel
    ensures var r := Run(n, Instrument(p, b), main);
      && r.world.trace == Flat(p.clock, b, r.acts, 0, 1)
      && Run(n, p, main).flow != OutOfFuel && Run(n, p, main).acts == r.acts && Declared(p, r.acts)
  {
    LogInvoke(n, p, b, main, [], None, START);
    SimInvoke(n, false, true, p, b, main, [], None, START, START);
    var r := Run(n, Instrument(p, b), main);
    assert [] + r.world.trace == r.world.trace;
  }
}
