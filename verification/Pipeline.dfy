/** From an instrumented run to the reconstructed call tree: buffer, event types, assembly, normalisation. */
module Pipeline {
  import opened Options
  import opened Tracert
  import opened MiniGo
  import opened Instrumenter
  import opened Preservation
  import opened CallTrace
  import N = Normalizer

  /** An event of the assembled trace, before the normalizer reads it. */
  datatype Assembled = Assembled(
    typ: string, fn: string, file: string, line: int, timestampMs: real, exc: Option<int>, goroutine: nat, spanId: nat,
    args: seq<int>, returnVal: seq<int>)

  datatype RawTrace = RawTrace(
    entrypoint: string, commitSha: string, repo: string, durationMs: real, events: seq<Assembled>)

  function MapEventType(wireType: string): string {
    if wireType == "ret" then "return" else if wireType == "panic" then "exception" else wireType
  }

  function Translate(e: Event): Assembled {
    Assembled(MapEventType(e.typ), e.fn, e.file, e.line, e.timestampMs, e.exc, e.goroutine, e.spanId,
              e.args, e.returnVal)
  }

  function TranslateAll(events: seq<Event>): (r: seq<Assembled>)
    ensures |r| == |events|
    ensures forall i :: 0 <= i < |r| ==> r[i] == Translate(events[i])
  {
    seq(|events|, i requires 0 <= i < |events| => Translate(events[i]))
  }

  /** Two types are renamed; everything else is passed on as it is. */
  predicate IsTranslation(e: Event, a: Assembled) {
    && (e.typ == "ret" ==> a.typ == "return") && (e.typ == "panic" ==> a.typ == "exception")
    && (e.typ != "ret" && e.typ != "panic" ==> a.typ == e.typ)
    && a.fn == e.fn && a.file == e.file && a.line == e.line && a.timestampMs == e.timestampMs && a.exc == e.exc
    && a.goroutine == e.goroutine && a.spanId == e.spanId && a.args == e.args && a.returnVal == e.returnVal
  }

  /** Translates in order; the duration is the latest timestamp, or 0 when none is later. */
  method Assemble(entrypoint: string, commitSha: string, repo: string, events: seq<Event>) returns (trace: RawTrace)
    ensures trace.entrypoint == entrypoint && trace.commitSha == commitSha && trace.repo == repo
    ensures trace.events == TranslateAll(events)
    ensures |trace.events| == |events| && forall i :: 0 <= i < |events| ==> IsTranslation(events[i], trace.events[i])
    ensures trace.durationMs >= 0.0 && forall i :: 0 <= i < |events| ==> events[i].timestampMs <= trace.durationMs
    ensures trace.durationMs == 0.0 || exists i :: 0 <= i < |events| && events[i].timestampMs == trace.durationMs
  {
    var traceEvents: seq<Assembled> := [];
    var maxTs := 0.0;
    for i := 0 to |events|
      invariant |traceEvents| == i && forall k :: 0 <= k < i ==> traceEvents[k] == Translate(events[k])
      invariant maxTs >= 0.0 && forall k :: 0 <= k < i ==> events[k].timestampMs <= maxTs
      invariant maxTs == 0.0 || exists k :: 0 <= k < i && events[k].timestampMs == maxTs
    {
      var we := events[i];
      traceEvents := traceEvents
        + [Assembled(MapEventType(we.typ), we.fn, we.file, we.line, we.timestampMs, we.exc, we.goroutine, we.spanId,
                     we.args, we.returnVal)];
      if we.timestampMs > maxTs {
        maxTs := we.timestampMs;
      }
    }
    trace := RawTrace(entrypoint, commitSha, repo, maxTs, traceEvents);
  }

  /** The five event types the normalizer admits. */
  function KindOf(typ: string): Option<N.Kind> {
    if typ == "call" then Some(N.Call)
    else if typ == "return" then Some(N.Ret)
    else if typ == "exception" then Some(N.Exception)
    else if typ == "async_call" then Some(N.AsyncCall)
    else if typ == "async_return" then Some(N.AsyncRet)
    else None
  }

  /** Arguments and return values travel as lists, and only if there are any, but the normalizer wants strings. */
  predicate IsValid(e: Assembled) {
    KindOf(e.typ).Some? && e.args == [] && e.returnVal == []
  }

  /** A trace is validated whole: one bad event and none is read. */
  function Decode(events: seq<Assembled>): Option<seq<N.TraceEvent>> {
    if events == [] then Some([]) else
      var front, e := Decode(events[..|events|-1]), events[|events|-1];
      if front.None? || !IsValid(e) then None
      else Some(front.value + [N.TraceEvent(KindOf(e.typ).value, e.fn, e.file, e.timestampMs, None)])
  }

  /** The normalizer's view of an event of one of the five types it knows. */
  predicate IsRead(a: Assembled, e: N.TraceEvent) {
    && ((a.typ == "call" && e.kind == N.Call) || (a.typ == "return" && e.kind == N.Ret)
        || (a.typ == "exception" && e.kind == N.Exception) || (a.typ == "async_call" && e.kind == N.AsyncCall)
        || (a.typ == "async_return" && e.kind == N.AsyncRet))
    && e.fn == a.fn && e.file == a.file && e.timestampMs == a.timestampMs && e.taskId == None
  }

  /** Any trace is read exactly when all its types are known and no event carries a list, and then event by event. */
  lemma {:induction false} DecodeIs(events: seq<Assembled>)
    ensures var r := Decode(events);
      && (r.Some? <==> forall i :: 0 <= i < |events| ==>
            && events[i].typ in {"call", "return", "exception", "async_call", "async_return"}
            && events[i].args == [] == events[i].returnVal)
      && (r.Some? ==> |r.value| == |events| && forall i :: 0 <= i < |events| ==> IsRead(events[i], r.value[i]))
  {
    if events != [] {
      DecodeIs(events[..|events|-1]);
    }
  }

  // ---- What arrives for one activation ----

  function Opening(fn: string, ts: real): N.TraceEvent {
    N.TraceEvent(N.Call, fn, "", ts, None)
  }

  function Ending(end: Option<int>, ts: real): N.TraceEvent {
    N.TraceEvent(if end.Some? then N.Exception else N.Ret, "", "", ts, None)
  }

  /** The same event for the normalizer, when its type is known. */
  function Received(e: Event): N.TraceEvent
    requires KindOf(MapEventType(e.typ)).Some?
  {
    N.TraceEvent(KindOf(MapEventType(e.typ)).value, e.fn, e.file, e.timestampMs, None)
  }

  predicate Known(events: seq<Event>) {
    forall e :: e in events ==> KindOf(MapEventType(e.typ)).Some?
  }

  function ReceivedAll(events: seq<Event>): (r: seq<N.TraceEvent>)
    requires Known(events)
    ensures |r| == |events|
    ensures forall i :: 0 <= i < |r| ==> r[i] == Received(events[i])
  {
    seq(|events|, i requires 0 <= i < |events| => Received(events[i]))
  }

  predicate IsBare(e: Event) {
    e.args == [] && e.returnVal == []
  }

  predicate Bare(events: seq<Event>) {
    forall e :: e in events ==> IsBare(e)
  }

  lemma DecodeMore(front: seq<Assembled>, e: Assembled)
    ensures Decode(front + [e]) ==
      if Decode(front).None? || !IsValid(e) then None
      else Some(Decode(front).value + [N.TraceEvent(KindOf(e.typ).value, e.fn, e.file, e.timestampMs, None)])
  {
  }

  lemma TranslateMore(front: seq<Event>, e: Event)
    ensures TranslateAll(front + [e]) == TranslateAll(front) + [Translate(e)]
  {
  }

  lemma ReceiveMore(front: seq<Event>, e: Event)
    requires Known(front + [e])
    ensures Known(front) && KindOf(MapEventType(e.typ)).Some?
    ensures ReceivedAll(front + [e]) == ReceivedAll(front) + [Received(e)]
  {
  }

  /** Event types are no obstacle, lists are: a trace of known types is accepted exactly when no event carries one. */
  lemma {:induction false} DecodeKnown(events: seq<Event>)
    requires Known(events)
    ensures Decode(TranslateAll(events)) == if Bare(events) then Some(ReceivedAll(events)) else None
  {
    if events == [] {
      assert ReceivedAll(events) == [];
    } else {
      hide Known;
      hide Bare;
      hide Decode;
      hide TranslateAll;
      hide ReceivedAll;
      hide KindOf;
      hide MapEventType;
      var front, e := events[..|events|-1], events[|events|-1];
      assert events == front + [e];
      ReceiveMore(front, e);
      DecodeKnown(front);
      TranslateMore(front, e);
      DecodeMore(TranslateAll(front), Translate(e));
      BareConcat(front, [e]);
      BareOne(e);
    }
  }

  // ---- Which runs are accepted ----

  /** No activation shows arguments. */
  predicate Silent(b: Name -> bool, acts: seq<Act>) {
    acts == [] || (Shows(b, acts[0]) == [] && Silent(b, acts[0].kids) && Silent(b, acts[1..]))
  }

  lemma BareConcat(x: seq<Event>, y: seq<Event>)
    ensures Bare(x + y) <==> Bare(x) && Bare(y)
  {
  }

  lemma BareOne(e: Event)
    ensures Bare([e]) <==> IsBare(e)
  {
  }

  lemma ActIsBare(clock: nat -> real, b: Name -> bool, a: Act, i: nat, s: nat)
    ensures Bare(FlatAct(clock, b, a, i, s)) <==> Shows(b, a) == [] && Bare(Flat(clock, b, a.kids, i + 1, s + 1))
  {
    hide Bare;
    hide Flat;
    var open, middle := CallEvent(a.fn, clock(i), s, Shows(b, a)), Flat(clock, b, a.kids, i + 1, s + 1);
    var close := ClosingEvent(a.end, clock(i + 1 + 2 * Size(a.kids)), s);
    BareOne(open);
    BareOne(close);
    BareConcat([open], middle);
    BareConcat([open] + middle, [close]);
  }

  lemma {:induction false} FlatIsBare(clock: nat -> real, b: Name -> bool, acts: seq<Act>, i: nat, s: nat)
    ensures Bare(Flat(clock, b, acts, i, s)) <==> Silent(b, acts)
    decreases acts
  {
    hide Flat;
    hide FlatAct;
    hide Bare;
    if acts == [] {
      NothingIsBare(clock, b, i, s);
    } else {
      var n := 1 + Size(acts[0].kids);
      ActIsBare(clock, b, acts[0], i, s);
      FlatIsBare(clock, b, acts[0].kids, i + 1, s + 1);
      FlatIsBare(clock, b, acts[1..], i + 2 * n, s + n);
      FlatSplits(clock, b, acts, i, s);
      BareConcat(FlatAct(clock, b, acts[0], i, s), Flat(clock, b, acts[1..], i + 2 * n, s + n));
    }
  }

  lemma NothingIsBare(clock: nat -> real, b: Name -> bool, i: nat, s: nat)
    ensures Bare(Flat(clock, b, [], i, s))
  {
  }

  /** A call of f carries a list: f is a boundary function with at least one named parameter. */
  predicate Reveals(p: Program, b: Name -> bool, f: Name) {
    b(f) && f in p.funcs && p.funcs[f].params != []
  }

  predicate Quiet(p: Program, b: Name -> bool, acts: seq<Act>) {
    acts == [] || (!Reveals(p, b, acts[0].fn) && Quiet(p, b, acts[0].kids) && Quiet(p, b, acts[1..]))
  }

  lemma {:induction false} SilentIsQuiet(p: Program, b: Name -> bool, acts: seq<Act>)
    requires Declared(p, acts)
    ensures Silent(b, acts) <==> Quiet(p, b, acts)
  {
    if acts != [] {
      SilentIsQuiet(p, b, acts[0].kids);
      SilentIsQuiet(p, b, acts[1..]);
    }
  }

  /** An event is bare unless it is the call of a function that reveals its arguments. */
  ghost predicate CallsReveal(p: Program, b: Name -> bool, events: seq<Event>) {
    forall e :: e in events ==> (IsBare(e) <==> !(e.typ == "call" && Reveals(p, b, e.fn)))
  }

  lemma CallsRevealConcat(p: Program, b: Name -> bool, x: seq<Event>, y: seq<Event>)
    requires CallsReveal(p, b, x) && CallsReveal(p, b, y)
    ensures CallsReveal(p, b, x + y)
  {
  }

  lemma ActReveals(p: Program, clock: nat -> real, b: Name -> bool, a: Act, i: nat, s: nat)
    requires a.fn in p.funcs && |a.args| == |p.funcs[a.fn].params|
    requires CallsReveal(p, b, Flat(clock, b, a.kids, i + 1, s + 1))
    ensures CallsReveal(p, b, FlatAct(clock, b, a, i, s))
  {
    hide Flat;
    var open, middle := CallEvent(a.fn, clock(i), s, Shows(b, a)), Flat(clock, b, a.kids, i + 1, s + 1);
    var close := ClosingEvent(a.end, clock(i + 1 + 2 * Size(a.kids)), s);
    assert CallsReveal(p, b, [open]) && CallsReveal(p, b, [close]);
    hide CallsReveal;
    CallsRevealConcat(p, b, [open], middle);
    CallsRevealConcat(p, b, [open] + middle, [close]);
  }

  lemma NothingReveals(p: Program, clock: nat -> real, b: Name -> bool, i: nat, s: nat)
    ensures CallsReveal(p, b, Flat(clock, b, [], i, s))
  {
  }

  lemma {:induction false} FlatReveals(p: Program, clock: nat -> real, b: Name -> bool, acts: seq<Act>, i: nat, s: nat)
    requires Declared(p, acts)
    ensures CallsReveal(p, b, Flat(clock, b, acts, i, s))
    decreases acts
  {
    hide Flat;
    hide FlatAct;
    hide CallsReveal;
    hide Size;
    if acts == [] {
      NothingReveals(p, clock, b, i, s);
    } else {
      var n := 1 + Size(acts[0].kids);
      FlatReveals(p, clock, b, acts[0].kids, i + 1, s + 1);
      FlatReveals(p, clock, b, acts[1..], i + 2 * n, s + n);
      ActReveals(p, clock, b, acts[0], i, s);
      FlatSplits(clock, b, acts, i, s);
      CallsRevealConcat(p, b, FlatAct(clock, b, acts[0], i, s), Flat(clock, b, acts[1..], i + 2 * n, s + n));
    }
  }

  // ---- One activation, received ----

  lemma OpeningIsKnown(fn: string, ts: real, span: nat, args: seq<int>)
    ensures var e := CallEvent(fn, ts, span, args);
      Known([e]) && ReceivedAll([e]) == [Opening(fn, ts)]
  {
  }

  lemma ClosingIsKnown(end: Option<int>, ts: real, span: nat)
    ensures var e := ClosingEvent(end, ts, span);
      Known([e]) && ReceivedAll([e]) == [Ending(end, ts)]
  {
  }

  lemma ReceivedConcat(x: seq<Event>, y: seq<Event>)
    requires Known(x) && Known(y)
    ensures Known(x + y) && ReceivedAll(x + y) == ReceivedAll(x) + ReceivedAll(y)
  {
  }

  lemma ActIsKnown(clock: nat -> real, b: Name -> bool, a: Act, i: nat, s: nat)
    requires Known(Flat(clock, b, a.kids, i + 1, s + 1))
    ensures Known(FlatAct(clock, b, a, i, s))
    ensures ReceivedAll(FlatAct(clock, b, a, i, s))
         == [Opening(a.fn, clock(i))] + ReceivedAll(Flat(clock, b, a.kids, i + 1, s + 1))
            + [Ending(a.end, clock(i + 1 + 2 * Size(a.kids)))]
  {
    hide Known;
    hide KindOf;
    hide MapEventType;
    hide CallEvent;
    hide ClosingEvent;
    hide Flat;
    var open := CallEvent(a.fn, clock(i), s, Shows(b, a));
    var close := ClosingEvent(a.end, clock(i + 1 + 2 * Size(a.kids)), s);
    OpeningIsKnown(a.fn, clock(i), s, Shows(b, a));
    ClosingIsKnown(a.end, clock(i + 1 + 2 * Size(a.kids)), s);
    BracketReceived(open, Flat(clock, b, a.kids, i + 1, s + 1), close);
  }

  lemma BracketReceived(open: Event, middle: seq<Event>, close: Event)
    requires Known([open]) && Known(middle) && Known([close])
    ensures Known([open] + middle + [close])
    ensures ReceivedAll([open] + middle + [close]) == ReceivedAll([open]) + ReceivedAll(middle) + ReceivedAll([close])
  {
    hide Known;
    ReceivedConcat([open], middle);
    ReceivedConcat([open] + middle, [close]);
  }

  lemma {:induction false} FlatIsKnown(clock: nat -> real, b: Name -> bool, acts: seq<Act>, i: nat, s: nat)
    ensures Known(Flat(clock, b, acts, i, s))
    decreases acts
  {
    hide Known;
    hide Flat;
    hide FlatAct;
    if acts == [] {
      NothingIsKnown(clock, b, i, s);
    } else {
      var a, n := acts[0], 1 + Size(acts[0].kids);
      FlatIsKnown(clock, b, a.kids, i + 1, s + 1);
      FlatIsKnown(clock, b, acts[1..], i + 2 * n, s + n);
      ActIsKnown(clock, b, a, i, s);
      FlatSplits(clock, b, acts, i, s);
      ReceivedConcat(FlatAct(clock, b, a, i, s), Flat(clock, b, acts[1..], i + 2 * n, s + n));
    }
  }

  lemma NothingIsKnown(clock: nat -> real, b: Name -> bool, i: nat, s: nat)
    ensures Known(Flat(clock, b, [], i, s))
  {
  }

  // ---- Reconstruction of a whole forest ----

  /** The forest in post-order: each activation after its children, with its depth and duration. */
  function PostOrder(clock: nat -> real, acts: seq<Act>, i: nat, depth: nat): seq<N.CallNode>
    decreases acts
  {
    if acts == [] then [] else
      var n := 1 + Size(acts[0].kids);
      PostOrderAct(clock, acts[0], i, depth) + PostOrder(clock, acts[1..], i + 2 * n, depth)
  }

  function PostOrderAct(clock: nat -> real, a: Act, i: nat, depth: nat): seq<N.CallNode>
    decreases a
  {
    PostOrder(clock, a.kids, i + 1, depth + 1)
    + [N.Closing(N.Pending(a.fn, depth, clock(i)), clock(i + 1 + 2 * Size(a.kids)))]
  }

  lemma FoldOne(st: N.State, e: N.TraceEvent)
    ensures N.Fold(st, [e]) == N.Consume(st, e)
  {
  }

  function WithNodes(st: N.State, more: seq<N.CallNode>): N.State {
    st.(nodes := st.nodes + more)
  }

  /** A bracket around a balanced middle: through the states before, inside and after it. */
  lemma BracketFolds(st: N.State, open: N.TraceEvent, middle: seq<N.TraceEvent>, close: N.TraceEvent,
                     st1: N.State, st2: N.State, st3: N.State)
    requires N.Consume(st, open) == st1 && N.Fold(st1, middle) == st2 && N.Consume(st2, close) == st3
    ensures N.Fold(st, [open] + middle + [close]) == st3
  {
    hide N.Consume;
    N.FoldOfConcat(st, [open], middle);
    N.FoldOfConcat(st, [open] + middle, [close]);
    FoldOne(st, open);
    FoldOne(st2, close);
    hide N.Fold;
  }

  lemma ConsumeOpen(st: N.State, fn: string, from: real)
    ensures N.Consume(st, Opening(fn, from)) == N.State(st.stack + [N.Pending(fn, |st.stack|, from)], st.nodes)
  {
  }

  lemma ConsumeClose(stack: seq<N.Pending>, top: N.Pending, nodes: seq<N.CallNode>, e: N.TraceEvent)
    requires N.Closes(e)
    ensures N.Consume(N.State(stack + [top], nodes), e) == N.State(stack, nodes + [N.Closing(top, e.timestampMs)])
  {
  }

  lemma PostOrderSplits(clock: nat -> real, acts: seq<Act>, i: nat, depth: nat)
    requires acts != []
    ensures var n := 1 + Size(acts[0].kids);
      PostOrder(clock, acts, i, depth)
      == PostOrderAct(clock, acts[0], i, depth) + PostOrder(clock, acts[1..], i + 2 * n, depth)
  {
  }

  lemma NothingFolds(clock: nat -> real, b: Name -> bool, i: nat, s: nat, st: N.State)
    ensures Known(Flat(clock, b, [], i, s))
    ensures N.Fold(st, ReceivedAll(Flat(clock, b, [], i, s))) == WithNodes(st, PostOrder(clock, [], i, |st.stack|))
  {
  }

  /** Two pieces of a trace, folded one after the other. */
  lemma FoldsInTurn(st: N.State, head: seq<Event>, tail: seq<Event>, first: seq<N.CallNode>, rest: seq<N.CallNode>)
    requires Known(head) && N.Fold(st, ReceivedAll(head)) == WithNodes(st, first)
    requires Known(tail) && N.Fold(WithNodes(st, first), ReceivedAll(tail)) == WithNodes(WithNodes(st, first), rest)
    ensures Known(head + tail) && N.Fold(st, ReceivedAll(head + tail)) == WithNodes(st, first + rest)
  {
    hide Known;
    hide N.Fold;
    ReceivedConcat(head, tail);
    N.FoldOfConcat(st, ReceivedAll(head), ReceivedAll(tail));
    Regroup(st.nodes, first, rest);
  }

  lemma {:induction false} FoldsToPostOrder(
    clock: nat -> real, b: Name -> bool, acts: seq<Act>, i: nat, s: nat, st: N.State)
    ensures Known(Flat(clock, b, acts, i, s))
    ensures N.Fold(st, ReceivedAll(Flat(clock, b, acts, i, s))) == WithNodes(st, PostOrder(clock, acts, i, |st.stack|))
    decreases acts, 1
  {
    hide Flat;
    hide FlatAct;
    hide PostOrder;
    hide PostOrderAct;
    hide Known;
    hide N.Fold;
    hide Size;
    if acts == [] {
      NothingFolds(clock, b, i, s, st);
    } else {
      var a, n := acts[0], 1 + Size(acts[0].kids);
      var head, tail := FlatAct(clock, b, a, i, s), Flat(clock, b, acts[1..], i + 2 * n, s + n);
      var first, rest := PostOrderAct(clock, a, i, |st.stack|), PostOrder(clock, acts[1..], i + 2 * n, |st.stack|);
      ActFoldsToPostOrder(clock, b, a, i, s, st);
      FoldsToPostOrder(clock, b, acts[1..], i + 2 * n, s + n, WithNodes(st, first));
      FlatSplits(clock, b, acts, i, s);
      PostOrderSplits(clock, acts, i, |st.stack|);
      FoldsInTurn(st, head, tail, first, rest);
    }
  }

  lemma {:induction false} ActFoldsToPostOrder(clock: nat -> real, b: Name -> bool, a: Act, i: nat, s: nat, st: N.State)
    ensures Known(FlatAct(clock, b, a, i, s))
    ensures N.Fold(st, ReceivedAll(FlatAct(clock, b, a, i, s))) == WithNodes(st, PostOrderAct(clock, a, i, |st.stack|))
    decreases a, 2
  {
    hide N.Fold;
    hide N.Consume;
    hide N.Closing;
    hide Known;
    hide Flat;
    hide PostOrder;
    FlatIsKnown(clock, b, a.kids, i + 1, s + 1);
    ActIsKnown(clock, b, a, i, s);
    hide FlatAct;
    var from, to, hop := clock(i), clock(i + 1 + 2 * Size(a.kids)), |st.stack|;
    var top, inner := N.Pending(a.fn, hop, from), PostOrder(clock, a.kids, i + 1, hop + 1);
    var st1 := N.State(st.stack + [top], st.nodes);
    ConsumeOpen(st, a.fn, from);
    FoldsToPostOrder(clock, b, a.kids, i + 1, s + 1, st1);
    ConsumeClose(st.stack, top, st.nodes + inner, Ending(a.end, to));
    BracketFolds(st, Opening(a.fn, from), ReceivedAll(Flat(clock, b, a.kids, i + 1, s + 1)), Ending(a.end, to),
      st1, WithNodes(st1, inner), N.State(st.stack, st.nodes + inner + [N.Closing(top, to)]));
    Regroup(st.nodes, inner, [N.Closing(top, to)]);
  }

  /** A written-out forest is accepted exactly when no activation shows arguments, and then comes back whole. */
  lemma ForestComesBack(clock: nat -> real, b: Name -> bool, acts: seq<Act>)
    ensures var trace := Flat(clock, b, acts, 0, 1);
      && Known(trace) && N.CallTree(ReceivedAll(trace)) == PostOrder(clock, acts, 0, 0)
      && Decode(TranslateAll(trace)) == if Silent(b, acts) then Some(ReceivedAll(trace)) else None
  {
    hide Flat;
    hide Known;
    hide Bare;
    hide Decode;
    hide N.Fold;
    hide Received;
    var trace := Flat(clock, b, acts, 0, 1);
    FoldsToPostOrder(clock, b, acts, 0, 1, N.State([], []));
    DecodeKnown(trace);
    FlatIsBare(clock, b, acts, 0, 1);
    NeverTagged(trace);
    assert [] + PostOrder(clock, acts, 0, 0) == PostOrder(clock, acts, 0, 0);
    hide PostOrder;
  }

  lemma NeverTagged(trace: seq<Event>)
    requires Known(trace)
    ensures !N.Tagged(ReceivedAll(trace))
  {
  }

  /**
   End to end on one goroutine: run the instrumented program, drain the buffer, assemble, decode, reconstruct. Without
   overflow the trace is accepted if and only if the original program calls no boundary function that has a named
   parameter; the result then is its call tree in post-order, with depths as hops, names taken from the calls although
   closing events carry none, and the clock's durations.
   */
  lemma EndToEnd(n: nat, p: Program, b: Name -> bool, main: Name, size: nat)
    requires UntracedProgram(p) && Run(n, Instrument(p, b), main).flow != OutOfFuel
    requires |Run(n, Instrument(p, b), main).world.trace| <= size
    ensures Run(n, p, main).flow != OutOfFuel
    ensures var drained := Newest(Run(n, Instrument(p, b), main).world.trace, size);
      var events := Decode(TranslateAll(drained));
      && (events.Some? <==> Quiet(p, b, Run(n, p, main).acts))
      && (events.Some? ==> N.CallTree(events.value) == PostOrder(p.clock, Run(n, p, main).acts, 0, 0))
  {
    hide Run;
    hide Flat;
    hide Decode;
    hide PostOrder;
    hide N.CallTree;
    hide Silent;
    hide Quiet;
    hide Declared;
    TraceIsCallTree(n, p, b, main);
    ForestComesBack(p.clock, b, Run(n, p, main).acts);
    SilentIsQuiet(p, b, Run(n, p, main).acts);
  }

  /** No call among the events is of a boundary function with a named parameter. */
  ghost predicate NoneReveals(p: Program, b: Name -> bool, events: seq<Event>) {
    forall e :: e in events && e.typ == "call" ==> !Reveals(p, b, e.fn)
  }

  lemma BareIsNoneReveals(p: Program, b: Name -> bool, trace: seq<Event>, events: seq<Event>)
    requires CallsReveal(p, b, trace) && forall e :: e in events ==> e in trace
    ensures Bare(events) <==> NoneReveals(p, b, events)
  {
  }

  lemma SuffixReceived(trace: seq<Event>, cut: nat)
    requires Known(trace) && cut <= |trace|
    ensures Known(trace[cut..]) && ReceivedAll(trace[cut..]) == ReceivedAll(trace)[cut..|trace|]
  {
  }

  /** What the normalizer makes of the newest events of a run. */
  lemma NewestReceived(p: Program, b: Name -> bool, trace: seq<Event>, cut: nat)
    requires Known(trace) && CallsReveal(p, b, trace) && cut <= |trace|
    ensures Known(trace[cut..]) && ReceivedAll(trace[cut..]) == ReceivedAll(trace)[cut..|trace|]
    ensures Decode(TranslateAll(trace[cut..]))
         == if NoneReveals(p, b, trace[cut..]) then Some(ReceivedAll(trace[cut..])) else None
    ensures N.CallTree(ReceivedAll(trace[cut..])) == N.Nodes(ReceivedAll(trace[cut..]))
  {
    SuffixReceived(trace, cut);
    BareIsNoneReveals(p, b, trace, trace[cut..]);
    hide Known;
    hide Bare;
    hide NoneReveals;
    hide CallsReveal;
    hide Decode;
    hide N.Nodes;
    DecodeKnown(trace[cut..]);
    NeverTagged(trace[cut..]);
  }

  /**
   When the buffer did overflow, what survives is accepted if and only if no surviving call reveals arguments, and then
   it is paired correctly.
   */
  lemma OverflowNeverMispairs(n: nat, p: Program, b: Name -> bool, main: Name, size: nat) returns (pairs: seq<N.Pair>)
    requires UntracedProgram(p) && Run(n, Instrument(p, b), main).flow != OutOfFuel
    ensures var trace := Run(n, Instrument(p, b), main).world.trace;
      var drained := Newest(trace, size);
      var events := Decode(TranslateAll(drained));
      && Known(trace)
      && N.ListsMatches(ReceivedAll(trace), |trace| - |drained|, |trace|, pairs)
      && (events.Some? <==> NoneReveals(p, b, drained))
      && (events.Some? ==> N.SameActivations(ReceivedAll(trace), pairs, N.CallTree(events.value)))
  {
    hide Run;
    hide Flat;
    hide Decode;
    hide N.Nodes;
    hide N.CallTree;
    hide NoneReveals;
    hide Declared;
    hide Known;
    hide CallsReveal;
    hide N.ListsMatches;
    hide N.SameActivations;
    TraceIsCallTree(n, p, b, main);
    var trace := Run(n, Instrument(p, b), main).world.trace;
    FlatIsKnown(p.clock, b, Run(n, p, main).acts, 0, 1);
    FlatReveals(p, p.clock, b, Run(n, p, main).acts, 0, 1);
    var cut := |trace| - |Newest(trace, size)|;
    assert Newest(trace, size) == trace[cut..];
    NewestReceived(p, b, trace, cut);
    pairs := N.WindowReconstruction(ReceivedAll(trace), cut, |trace|);
  }

  // ---- A program whose traces are rejected ----

  const HANDLER := "repo/pkg.Handler"

  /** main calls a handler with one parameter. */
  function OneRequest(clock: nat -> real): Program {
    Program(map["main" := FuncDecl([], [Call("x", HANDLER, [Lit(7)])]), HANDLER := FuncDecl(["n"], [])], clock)
  }

  lemma OneRequestRuns(clock: nat -> real)
    ensures UntracedProgram(OneRequest(clock))
    ensures Run(1, OneRequest(clock), "main").flow == Returned(0)
    ensures Run(1, OneRequest(clock), "main").acts == [Act("main", [], [Act(HANDLER, [7], [], None)], None)]
  {
    var p := OneRequest(clock);
    var call := Call("x", HANDLER, [Lit(7)]);
    var env := Env(Bind([], []), None, None);
    HandlerRuns(clock);
    assert EvalAll([Lit(7)], env, START) == [7];
    var w := START.(globals := START.globals["x" := 0]);
    assert Step(1, p, call, Frame(env, None, []), START)
        == BlockResult(Next, Frame(env, None, []), w, [Act(HANDLER, [7], [], None)]);
    BlockOfOne(1, p, call, Frame(env, None, []), START);
    assert Values([], Bind([], [])) == [];
    assert Unwind(1, p, [], None, w) == UnwindResult(true, None, w, []);
    assert [Act(HANDLER, [7], [], None)] + [] == [Act(HANDLER, [7], [], None)];
  }

  lemma HandlerRuns(clock: nat -> real)
    ensures Invoke(0, OneRequest(clock), HANDLER, [7], None, START)
         == FrameResult(Returned(0), None, START, [Act(HANDLER, [7], [], None)])
  {
    var p := OneRequest(clock);
    var locals := Bind(["n"], [7]);
    assert ["n"][0] !in ["n"][1..];
    assert "n" in locals && locals["n"] == 7;
    assert Values(["n"], locals) == [7];
    assert RunFrame(0, p, [], Env(locals, None, None), None, START) == FrameResult(Returned(0), None, START, []);
  }

  /** When the handler is a boundary function, every trace of the program is rejected although nothing overflowed. */
  lemma BoundaryArgumentIsRejected(clock: nat -> real, b: Name -> bool, size: nat)
    requires b(HANDLER)
    ensures var r := Run(2, Instrument(OneRequest(clock), b), "main");
      r.flow != OutOfFuel && (|r.world.trace| <= size ==> Decode(TranslateAll(Newest(r.world.trace, size))) == None)
  {
    var p := OneRequest(clock);
    OneRequestRuns(clock);
    SimInvoke(1, true, true, p, b, "main", [], None, START, START);
    var acts := [Act("main", [], [Act(HANDLER, [7], [], None)], None)];
    assert !Quiet(p, b, acts) by {
      assert Reveals(p, b, HANDLER);
      assert acts[0].kids[0].fn == HANDLER;
      assert !Quiet(p, b, acts[0].kids);
    }
    hide Quiet;
    hide Decode;
    if |Run(2, Instrument(p, b), "main").world.trace| <= size {
      EndToEnd(2, p, b, "main", size);
      SimInvoke(1, true, false, p, b, "main", [], None, START, START);
    }
  }

  // ---- Spans ----

  ghost predicate Avoids(es: seq<Event>, span: nat) {
    forall e :: e in es ==> e.spanId != span
  }

  /** own occurs in es and holds all its events with the span. */
  ghost predicate Isolates(es: seq<Event>, before: seq<Event>, own: seq<Event>, after: seq<Event>, span: nat) {
    es == before + own + after && Avoids(before, span) && Avoids(after, span)
  }

  lemma IsolatesBefore(x: seq<Event>, y: seq<Event>, before: seq<Event>, own: seq<Event>, after: seq<Event>, span: nat)
    requires Isolates(x, before, own, after, span) && Avoids(y, span)
    ensures Isolates(x + y, before, own, after + y, span)
  {
  }

  lemma IsolatesAfter(x: seq<Event>, y: seq<Event>, before: seq<Event>, own: seq<Event>, after: seq<Event>, span: nat)
    requires Isolates(y, before, own, after, span) && Avoids(x, span)
    ensures Isolates(x + y, x + before, own, after, span)
  {
  }

  lemma SpansAvoid(clock: nat -> real, b: Name -> bool, acts: seq<Act>, i: nat, s: nat, span: nat)
    requires span < s || s + Size(acts) <= span
    ensures Avoids(Flat(clock, b, acts, i, s), span)
  {
    SpansWithin(clock, b, acts, i, s);
  }

  lemma FlatActParts(clock: nat -> real, b: Name -> bool, a: Act, i: nat, s: nat) returns (open: Event, close: Event)
    ensures FlatAct(clock, b, a, i, s) == [open] + Flat(clock, b, a.kids, i + 1, s + 1) + [close]
    ensures open.spanId == s == close.spanId
    ensures |FlatAct(clock, b, a, i, s)| == 2 * (1 + Size(a.kids))
  {
    open := CallEvent(a.fn, clock(i), s, Shows(b, a));
    close := ClosingEvent(a.end, clock(i + 1 + 2 * Size(a.kids)), s);
    FlatLength(clock, b, a.kids, i + 1, s + 1);
  }

  lemma ActAvoids(clock: nat -> real, b: Name -> bool, a: Act, i: nat, s: nat, span: nat)
    requires span < s || s + Size(a.kids) < span
    ensures Avoids(FlatAct(clock, b, a, i, s), span)
  {
    ActSpansWithin(clock, b, a, i, s);
  }

  lemma FlatActLength(clock: nat -> real, b: Name -> bool, a: Act, i: nat, s: nat)
    ensures |FlatAct(clock, b, a, i, s)| == 2 * (1 + Size(a.kids))
  {
    var open, close := FlatActParts(clock, b, a, i, s);
  }

  lemma WithinFirst(clock: nat -> real, b: Name -> bool, acts: seq<Act>, i: nat, s: nat, span: nat,
                    before: seq<Event>, own: seq<Event>, after: seq<Event>)
    requires acts != [] && span <= s + Size(acts[0].kids)
    requires Isolates(FlatAct(clock, b, acts[0], i, s), before, own, after, span)
    ensures var n := 1 + Size(acts[0].kids);
      Isolates(Flat(clock, b, acts, i, s), before, own, after + Flat(clock, b, acts[1..], i + 2 * n, s + n), span)
  {
    var n := 1 + Size(acts[0].kids);
    FlatSplits(clock, b, acts, i, s);
    SpansAvoid(clock, b, acts[1..], i + 2 * n, s + n, span);
    hide Isolates;
    hide Flat;
    hide FlatAct;
    var head, tail := FlatAct(clock, b, acts[0], i, s), Flat(clock, b, acts[1..], i + 2 * n, s + n);
    IsolatesBefore(head, tail, before, own, after, span);
  }

  lemma BeyondFirst(clock: nat -> real, b: Name -> bool, acts: seq<Act>, i: nat, s: nat, span: nat,
                    before: seq<Event>, own: seq<Event>, after: seq<Event>)
    requires acts != [] && span > s + Size(acts[0].kids)
    requires var n := 1 + Size(acts[0].kids);
      Isolates(Flat(clock, b, acts[1..], i + 2 * n, s + n), before, own, after, span)
    ensures Isolates(Flat(clock, b, acts, i, s), FlatAct(clock, b, acts[0], i, s) + before, own, after, span)
  {
    var n := 1 + Size(acts[0].kids);
    FlatSplits(clock, b, acts, i, s);
    ActAvoids(clock, b, acts[0], i, s, span);
    hide Isolates;
    hide Flat;
    hide FlatAct;
    var head, tail := FlatAct(clock, b, acts[0], i, s), Flat(clock, b, acts[1..], i + 2 * n, s + n);
    IsolatesAfter(head, tail, before, own, after, span);
  }

  lemma WithinKids(clock: nat -> real, b: Name -> bool, act: Act, i: nat, s: nat, span: nat, open: Event, close: Event,
                   before: seq<Event>, own: seq<Event>, after: seq<Event>)
    requires FlatAct(clock, b, act, i, s) == [open] + Flat(clock, b, act.kids, i + 1, s + 1) + [close]
    requires open.spanId == s == close.spanId && span != s
    requires Isolates(Flat(clock, b, act.kids, i + 1, s + 1), before, own, after, span)
    ensures Isolates(FlatAct(clock, b, act, i, s), [open] + before, own, after + [close], span)
  {
  }

  /** Every span handed out labels exactly one activation: its opening and closing event, and no event elsewhere. */
  lemma {:induction false} SpanIsOneActivation(
    clock: nat -> real, b: Name -> bool, acts: seq<Act>, i: nat, s: nat, span: nat)
    returns (before: seq<Event>, a: Act, after: seq<Event>)
    requires s <= span < s + Size(acts)
    ensures Isolates(Flat(clock, b, acts, i, s), before, FlatAct(clock, b, a, i + |before|, span), after, span)
    ensures Avoids(Flat(clock, b, a.kids, i + |before| + 1, span + 1), span)
    decreases acts, 1
  {
    hide Isolates;
    hide Avoids;
    hide Flat;
    hide FlatAct;
    var n := 1 + Size(acts[0].kids);
    if span < s + n {
      before, a, after := SpanInActivation(clock, b, acts[0], i, s, span);
      WithinFirst(clock, b, acts, i, s, span, before, FlatAct(clock, b, a, i + |before|, span), after);
      after := after + Flat(clock, b, acts[1..], i + 2 * n, s + n);
    } else {
      var inner;
      inner, a, after := SpanIsOneActivation(clock, b, acts[1..], i + 2 * n, s + n, span);
      FlatActLength(clock, b, acts[0], i, s);
      before := FlatAct(clock, b, acts[0], i, s) + inner;
      assert i + |before| == i + 2 * n + |inner|;
      BeyondFirst(clock, b, acts, i, s, span, inner, FlatAct(clock, b, a, i + |before|, span), after);
    }
  }

  lemma {:induction false} SpanInActivation(clock: nat -> real, b: Name -> bool, act: Act, i: nat, s: nat, span: nat)
    returns (before: seq<Event>, a: Act, after: seq<Event>)
    requires s <= span <= s + Size(act.kids)
    ensures Isolates(FlatAct(clock, b, act, i, s), before, FlatAct(clock, b, a, i + |before|, span), after, span)
    ensures Avoids(Flat(clock, b, a.kids, i + |before| + 1, span + 1), span)
    decreases act, 0
  {
    hide Flat;
    hide FlatAct;
    if span == s {
      before, a, after := [], act, [];
      SpansAvoid(clock, b, act.kids, i + 1, s + 1, span);
      var own := FlatAct(clock, b, act, i, s);
      assert [] + own + [] == own;
    } else {
      hide Isolates;
      hide Avoids;
      var inner, rest;
      inner, a, rest := SpanIsOneActivation(clock, b, act.kids, i + 1, s + 1, span);
      var open, close := FlatActParts(clock, b, act, i, s);
      before, after := [open] + inner, rest + [close];
      assert i + |before| == i + 1 + |inner|;
      WithinKids(clock, b, act, i, s, span, open, close, inner, FlatAct(clock, b, a, i + |before|, span), rest);
    }
  }

  lemma ActSpansWithin(clock: nat -> real, b: Name -> bool, a: Act, i: nat, s: nat)
    ensures forall e :: e in FlatAct(clock, b, a, i, s) ==> s <= e.spanId <= s + Size(a.kids)
  {
    SpansWithin(clock, b, a.kids, i + 1, s + 1);
  }

  lemma {:induction false} SpansWithin(clock: nat -> real, b: Name -> bool, acts: seq<Act>, i: nat, s: nat)
    ensures forall e :: e in Flat(clock, b, acts, i, s) ==> s <= e.spanId < s + Size(acts)
    decreases acts
  {
    if acts != [] {
      var n := 1 + Size(acts[0].kids);
      SpansWithin(clock, b, acts[0].kids, i + 1, s + 1);
      SpansWithin(clock, b, acts[1..], i + 2 * n, s + n);
    }
  }
}
