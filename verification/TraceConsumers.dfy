/**
 Two other readers of the same event lists: the side-effect classifier with its own depth counter, and the performance
 aggregator, which matches a return to a call by searching the stack for its name.
 */
module TraceConsumers {
  import opened Options
  import opened Tracert
  import opened Normalizer
  import G = MiniGo
  import T = CallTrace
  import W = Pipeline

  // ---- The classifier ----

  datatype SideEffect = SideEffect(typ: string, detail: string, hopDepth: nat)

  function Detail(fn: string): string {
    "fn:" + fn
  }

  lemma DetailNamesFunction(a: string, b: string)
    ensures Detail(a) == Detail(b) <==> a == b
  {
    assert Detail(a)[3..] == a && Detail(b)[3..] == b;
  }

  function EffectAt(es: seq<TraceEvent>, kind: string -> Option<string>, p: nat): SideEffect
    requires p < |es| && IsFirst(es, kind, p)
  {
    SideEffect(kind(es[p].fn).value, Detail(es[p].fn), |Scan(es, p).0|)
  }

  /** The effects of the first occurrences among the first n events. */
  function EffectsUpTo(es: seq<TraceEvent>, kind: string -> Option<string>, n: nat): seq<SideEffect>
    requires n <= |es|
  {
    if n == 0 then [] else
      EffectsUpTo(es, kind, n - 1) + if IsFirst(es, kind, n - 1) then [EffectAt(es, kind, n - 1)] else []
  }

  /** Event p is the first call of a function that has a side effect. */
  predicate IsFirst(es: seq<TraceEvent>, kind: string -> Option<string>, p: nat)
    requires p < |es|
  {
    && es[p].kind == Call && kind(es[p].fn).Some?
    && (forall r :: 0 <= r < p ==> !(es[r].kind == Call && es[r].fn == es[p].fn))
  }

  predicate IsKeyOf(e: TraceEvent, kind: string -> Option<string>, key: (string, string)) {
    e.kind == Call && kind(e.fn).Some? && key == (kind(e.fn).value, Detail(e.fn))
  }

  /** The classified details among the first n events. */
  ghost predicate SeenExactly(es: seq<TraceEvent>, kind: string -> Option<string>, n: nat, seen: set<(string, string)>)
    requires n <= |es|
  {
    forall key :: key in seen <==>
      exists r :: 0 <= r < n && IsKeyOf(es[r], kind, key)
  }

  lemma NewKeyIsFirst(es: seq<TraceEvent>, kind: string -> Option<string>, n: nat, seen: set<(string, string)>)
    requires n < |es| && SeenExactly(es, kind, n, seen)
    requires es[n].kind == Call && kind(es[n].fn).Some?
    ensures (kind(es[n].fn).value, Detail(es[n].fn)) !in seen <==> IsFirst(es, kind, n)
  {
    var key := (kind(es[n].fn).value, Detail(es[n].fn));
    forall r | 0 <= r < n ensures Detail(es[r].fn) == Detail(es[n].fn) <==> es[r].fn == es[n].fn {
      DetailNamesFunction(es[r].fn, es[n].fn);
    }
    if !IsFirst(es, kind, n) {
      var r :| 0 <= r < n && es[r].kind == Call && es[r].fn == es[n].fn;
      assert key == (kind(es[r].fn).value, Detail(es[r].fn));
    }
  }

  /** kind stands for the patterns that classify a function name. */
  method ClassifySideEffects(events: seq<TraceEvent>, kind: string -> Option<string>) returns (effects: seq<SideEffect>)
    ensures effects == EffectsUpTo(events, kind, |events|)
  {
    effects := [];
    var seen: set<(string, string)> := {};
    var callDepth := 0;
    for i := 0 to |events|
      invariant callDepth == |Scan(events, i).0|
      invariant SeenExactly(events, kind, i, seen)
      invariant effects == EffectsUpTo(events, kind, i)
    {
      ghost var before := seen;
      var ev := events[i];
      var currentDepth := callDepth;
      if ev.kind == Call {
        callDepth := callDepth + 1;
        if kind(ev.fn).Some? {
          NewKeyIsFirst(events, kind, i, seen);
          var key := (kind(ev.fn).value, Detail(ev.fn));
          if key !in seen {
            seen := seen + {key};
            effects := effects + [SideEffect(kind(ev.fn).value, Detail(ev.fn), currentDepth)];
          }
        }
      } else if Closes(ev) {
        callDepth := if callDepth - 1 < 0 then 0 else callDepth - 1;
      }
      SeenMore(events, kind, i, before, seen);
    }
  }

  lemma SeenMore(es: seq<TraceEvent>, kind: string -> Option<string>, n: nat, seen: set<(string, string)>,
                 seen': set<(string, string)>)
    requires n < |es| && SeenExactly(es, kind, n, seen)
    requires if es[n].kind == Call && kind(es[n].fn).Some?
      then seen' == seen + {(kind(es[n].fn).value, Detail(es[n].fn))} else seen' == seen
    ensures SeenExactly(es, kind, n + 1, seen')
  {
  }

  /** Every function with a side effect is reported exactly once, for its first call, in the order of those calls. */
  lemma {:induction false} EffectsAreFirstCalls(es: seq<TraceEvent>, kind: string -> Option<string>, n: nat)
    returns (idx: seq<nat>)
    requires n <= |es|
    ensures |idx| == |EffectsUpTo(es, kind, n)| && (forall j, k :: 0 <= j < k < |idx| ==> idx[j] < idx[k])
    ensures forall k :: 0 <= k < |idx| ==>
      && idx[k] < n && IsFirst(es, kind, idx[k])
      && EffectsUpTo(es, kind, n)[k] == EffectAt(es, kind, idx[k])
    ensures forall p: nat :: p < n && IsFirst(es, kind, p) ==> p in idx
  {
    hide Scan;
    hide IsFirst;
    hide EffectAt;
    if n == 0 {
      idx := [];
    } else {
      idx := EffectsAreFirstCalls(es, kind, n - 1);
      if IsFirst(es, kind, n - 1) {
        var front := idx;
        idx := idx + [n - 1];
        assert idx[|front|] == n - 1;
        forall p: nat | p < n && IsFirst(es, kind, p) ensures p in idx {
          if p < n - 1 { assert p in front; }
        }
      }
    }
  }

  /**
   Each effect names its kind and its function, at the number of calls open before it. Exactly the calls that have a
   kind and repeat no earlier call's function are reported, in order.
   */
  lemma EffectsAre(es: seq<TraceEvent>, kind: string -> Option<string>) returns (idx: seq<nat>)
    ensures var effects := EffectsUpTo(es, kind, |es|);
      && |idx| == |effects| && (forall j, k :: 0 <= j < k < |idx| ==> idx[j] < idx[k])
      && (forall k :: 0 <= k < |idx| ==>
            && idx[k] < |es| && kind(es[idx[k]].fn).Some?
            && effects[k].typ == kind(es[idx[k]].fn).value && effects[k].detail == "fn:" + es[idx[k]].fn
            && effects[k].hopDepth == |Enclosing(es, idx[k])|)
    ensures forall p: nat :: p in idx <==>
      && p < |es| && es[p].kind == Call && kind(es[p].fn).Some?
      && forall r :: 0 <= r < p && es[r].kind == Call ==> es[r].fn != es[p].fn
  {
    hide Scan;
    hide Enclosing;
    idx := EffectsAreFirstCalls(es, kind, |es|);
    hide EffectsUpTo;
    forall k | 0 <= k < |idx| ensures |Scan(es, idx[k]).0| == |Enclosing(es, idx[k])| {
      HopCountsEnclosing(es, idx[k]);
    }
    forall p: nat
      ensures p in idx <==>
        && p < |es| && es[p].kind == Call && kind(es[p].fn).Some?
        && forall r :: 0 <= r < p && es[r].kind == Call ==> es[r].fn != es[p].fn
    {
      if p < |es| { assert IsFirst(es, kind, p) ==> p in idx; }
    }
  }

  /** A trace without task ids, or one confined to task 0 and without async events. */
  ghost predicate OneTask(es: seq<TraceEvent>) {
    !Tagged(es) || forall i :: 0 <= i < |es| ==> !IsAsync(es[i]) && TaskOf(es[i]) == 0
  }

  /**
   The classifier's own depth counter agrees with the normalizer: an effect whose call returns appears in the
   reconstruction of the events under the same function at the same depth, and so in the tree of a one-task trace.
   */
  lemma EffectsCarryHops(es: seq<TraceEvent>, kind: string -> Option<string>, k: nat, q: nat) returns (p: nat, m: nat)
    requires k < |EffectsUpTo(es, kind, |es|)|
    ensures p < |es| && IsFirst(es, kind, p) && EffectsUpTo(es, kind, |es|)[k].detail == Detail(es[p].fn)
    ensures Match(es, p, q) ==>
      && m < |Nodes(es)| && Nodes(es)[m].stableId == es[p].fn
      && Nodes(es)[m].hop == EffectsUpTo(es, kind, |es|)[k].hopDepth
    ensures OneTask(es) ==> CallTree(es) == Nodes(es)
  {
    hide Scan;
    hide Match;
    var idx := EffectsAreFirstCalls(es, kind, |es|);
    p, m := idx[k], 0;
    if Match(es, p, q) {
      var pairs := NodesAreMatches(es);
      MatchInRange(es, p, q);
      var pair := Pair(p, q);
      assert pair in pairs;
      m :| 0 <= m < |pairs| && pairs[m] == pair;
      assert Nodes(es)[m] == NodeOf(es, pair);
    }
    if OneTask(es) && Tagged(es) {
      TaskZeroIsSync(es);
    }
  }

  // ---- The performance aggregator ----

  function FnKey(e: TraceEvent): string {
    e.file + ":" + e.fn
  }

  /** A key puts a colon between file and name, so it tells functions apart when no file name holds a colon. */
  lemma KeyNamesFunction(a: TraceEvent, b: TraceEvent)
    requires ':' !in a.file && ':' !in b.file
    ensures FnKey(a) == a.file + [':'] + a.fn
    ensures FnKey(a) == FnKey(b) <==> a.file == b.file && a.fn == b.fn
  {
    var x, y := FnKey(a), FnKey(b);
    assert x[|a.file|] == ':' && y[|b.file|] == ':';
    assert x[..|a.file|] == a.file && x[|a.file|+1..] == a.fn;
    assert y[..|b.file|] == b.file && y[|b.file|+1..] == b.fn;
    assert |a.file| < |b.file| ==> y[|a.file|] == b.file[|a.file|];
    assert |b.file| < |a.file| ==> x[|b.file|] == a.file[|b.file|];
  }

  /** With colons in file names two functions can share a key. */
  lemma ColonsConfuseKeys(t: real)
    ensures FnKey(TraceEvent(Call, "c", "a:b", t, None)) == FnKey(TraceEvent(Call, "b:c", "a", t, None))
  {
    assert "a:b" + ":" + "c" == "a" + ":" + "b:c";
  }

  datatype PerfState = PerfState(stack: seq<TraceEvent>, durations: map<string, seq<real>>, counts: map<string, nat>)

  function Durations(m: map<string, seq<real>>, key: string): seq<real> {
    if key in m then m[key] else []
  }

  function CountOf(m: map<string, nat>, key: string): nat {
    if key in m then m[key] else 0
  }

  /** The position nearest the top whose call has the given name, or -1. */
  function FindCall(stack: seq<TraceEvent>, fn: string): (i: int)
    ensures -1 <= i < |stack|
    ensures i >= 0 ==> stack[i].fn == fn
    ensures forall j :: i < j < |stack| ==> stack[j].fn != fn
  {
    if stack == [] then -1
    else if stack[|stack|-1].fn == fn then |stack| - 1
    else FindCall(stack[..|stack|-1], fn)
  }

  function PerfConsume(st: PerfState, e: TraceEvent): PerfState {
    if e.kind == Call then
      st.(stack := st.stack + [e], counts := st.counts[FnKey(e) := CountOf(st.counts, FnKey(e)) + 1])
    else if e.kind == Ret && FindCall(st.stack, e.fn) >= 0 then
      var i := FindCall(st.stack, e.fn);
      var d := e.timestampMs - st.stack[i].timestampMs;
      st.(stack := st.stack[..i] + st.stack[i+1..],
          durations := st.durations[FnKey(e) := Durations(st.durations, FnKey(e)) + [d]])
    else st
  }

  /** Only calls, and returns whose name is open, change anything. */
  lemma OthersChangeNothing(st: PerfState, e: TraceEvent)
    requires e.kind != Call && (e.kind == Ret ==> forall j :: 0 <= j < |st.stack| ==> st.stack[j].fn != e.fn)
    ensures PerfConsume(st, e) == st
  {
    if e.kind == Ret { FoundIsFindCall(st.stack, e.fn, -1); }
  }

  /**
   A return takes the topmost open call of its name, wherever that stands, and records the time between the two under
   its own key.
   */
  lemma ReturnTakesNamesake(st: PerfState, e: TraceEvent, at: nat, key: string)
    requires e.kind == Ret && at < |st.stack| && st.stack[at].fn == e.fn
    requires forall j :: at < j < |st.stack| ==> st.stack[j].fn != e.fn
    ensures var st' := PerfConsume(st, e);
      && st'.counts == st.counts && st'.stack == st.stack[..at] + st.stack[at+1..]
      && Durations(st'.durations, key) == Durations(st.durations, key)
           + if key == FnKey(e) then [e.timestampMs - st.stack[at].timestampMs] else []
  {
    FoundIsFindCall(st.stack, e.fn, at);
    RecordAt(st.durations, FnKey(e), e.timestampMs - st.stack[at].timestampMs, key);
    hide Durations;
    hide FindCall;
    hide FnKey;
  }

  function PerfFold(es: seq<TraceEvent>, n: nat): PerfState
    requires n <= |es|
  {
    if n == 0 then PerfState([], map[], map[]) else PerfConsume(PerfFold(es, n - 1), es[n-1])
  }

  /** The aggregator's loop with its backward search. */
  method CollectDurations(events: seq<TraceEvent>) returns (durations: map<string, seq<real>>, counts: map<string, nat>)
    ensures durations == PerfFold(events, |events|).durations && counts == PerfFold(events, |events|).counts
  {
    var callStack: seq<TraceEvent> := [];
    durations, counts := map[], map[];
    for n := 0 to |events|
      invariant PerfFold(events, n) == PerfState(callStack, durations, counts)
    {
      var event := events[n];
      var key := FnKey(event);
      if event.kind == Call {
        callStack := callStack + [event];
        counts := counts[key := CountOf(counts, key) + 1];
      } else if event.kind == Ret && |callStack| > 0 {
        var i := |callStack| - 1;
        while i >= 0 && callStack[i].fn != event.fn
          invariant -1 <= i < |callStack|
          invariant forall j :: i < j < |callStack| ==> callStack[j].fn != event.fn
        {
          i := i - 1;
        }
        FoundIsFindCall(callStack, event.fn, i);
        if i >= 0 {
          var duration := event.timestampMs - callStack[i].timestampMs;
          callStack := callStack[..i] + callStack[i+1..];
          durations := durations[key := Durations(durations, key) + [duration]];
        }
      }
    }
  }

  lemma FoundIsFindCall(stack: seq<TraceEvent>, fn: string, i: int)
    requires -1 <= i < |stack| && (i >= 0 ==> stack[i].fn == fn)
    requires forall j :: i < j < |stack| ==> stack[j].fn != fn
    ensures FindCall(stack, fn) == i
  {
  }

  /** A trace without exceptions whose returns repeat the name and file of the calls they end. */
  ghost predicate Agreeing(es: seq<TraceEvent>) {
    && (forall i :: 0 <= i < |es| ==> es[i].kind != Exception)
    && (forall p: nat, q: nat :: Match(es, p, q) ==> es[p].fn == es[q].fn && es[p].file == es[q].file)
  }

  ghost predicate MonotoneTimes(es: seq<TraceEvent>) {
    forall i, j :: 0 <= i <= j < |es| ==> es[i].timestampMs <= es[j].timestampMs
  }

  function CallsAt(es: seq<TraceEvent>, stack: seq<nat>): (r: seq<TraceEvent>)
    requires forall k :: 0 <= k < |stack| ==> stack[k] < |es|
    ensures |r| == |stack| && forall k :: 0 <= k < |r| ==> r[k] == es[stack[k]]
  {
    seq(|stack|, k requires 0 <= k < |stack| => es[stack[k]])
  }

  /** The normalizer's times of the pairs whose call has the given key, in order. */
  function TimesOf(es: seq<TraceEvent>, pairs: seq<Pair>, key: string): seq<real>
    requires forall k :: 0 <= k < |pairs| ==> pairs[k].call < |es| && pairs[k].close < |es|
  {
    if pairs == [] then [] else
      TimesOf(es, pairs[..|pairs|-1], key)
      + if FnKey(es[pairs[|pairs|-1].call]) == key then [NodeOf(es, pairs[|pairs|-1]).avgMs] else []
  }

  ghost predicate InRange(es: seq<TraceEvent>, stack: seq<nat>, pairs: seq<Pair>) {
    && (forall k :: 0 <= k < |stack| ==> stack[k] < |es|)
    && (forall k :: 0 <= k < |pairs| ==> pairs[k].call < |es| && pairs[k].close < |es|)
  }

  /** The aggregator's state when the open calls and the closed pairs are the given ones. */
  ghost predicate Measures(es: seq<TraceEvent>, stack: seq<nat>, pairs: seq<Pair>, st: PerfState) {
    && InRange(es, stack, pairs)
    && st.stack == CallsAt(es, stack)
    && TimesAgree(es, pairs, st.durations)
  }

  ghost predicate TimesAgree(es: seq<TraceEvent>, pairs: seq<Pair>, m: map<string, seq<real>>)
    requires forall k :: 0 <= k < |pairs| ==> pairs[k].call < |es| && pairs[k].close < |es|
  {
    forall key :: Durations(m, key) == TimesOf(es, pairs, key)
  }

  ghost predicate PerfAgrees(es: seq<TraceEvent>, n: nat, st: PerfState)
    requires n <= |es|
  {
    Measures(es, Scan(es, n).0, Scan(es, n).1, st)
  }

  /** On an agreeing trace the search always stops at the top of the stack. */
  lemma SearchHitsTop(es: seq<TraceEvent>, n: nat, st: PerfState)
    requires n < |es| && Agreeing(es) && es[n].kind == Ret && PerfAgrees(es, n, st) && Scan(es, n).0 != []
    ensures var stack := Scan(es, n).0;
      && Match(es, stack[|stack|-1], n)
      && FindCall(st.stack, es[n].fn) == |st.stack| - 1
      && es[stack[|stack|-1]].fn == es[n].fn && es[stack[|stack|-1]].file == es[n].file
  {
    ScanIsExact(es, n);
    CloseMatchesTop(es, n, Scan(es, n).0);
  }

  lemma PerfStep(es: seq<TraceEvent>, n: nat, st: PerfState)
    requires n < |es| && Agreeing(es) && MonotoneTimes(es) && PerfAgrees(es, n, st)
    ensures PerfAgrees(es, n + 1, PerfConsume(st, es[n]))
  {
    var (stack, pairs) := Scan(es, n);
    var e := es[n];
    if e.kind == Call {
      PerfPush(es, n, stack, pairs, st);
    } else if e.kind == Ret && stack != [] {
      SearchHitsTop(es, n, st);
      MatchInRange(es, stack[|stack|-1], n);
      PerfPop(es, n, stack, pairs, st);
    }
    hide Measures;
    hide PerfConsume;
  }

  lemma PerfPush(es: seq<TraceEvent>, n: nat, stack: seq<nat>, pairs: seq<Pair>, st: PerfState)
    requires n < |es| && es[n].kind == Call && Measures(es, stack, pairs, st)
    ensures Measures(es, stack + [n], pairs, PerfConsume(st, es[n]))
  {
  }

  lemma TimesOfMore(es: seq<TraceEvent>, pairs: seq<Pair>, pair: Pair, key: string)
    requires forall k :: 0 <= k < |pairs| ==> pairs[k].call < |es| && pairs[k].close < |es|
    requires pair.call < |es| && pair.close < |es|
    ensures TimesOf(es, pairs + [pair], key)
         == TimesOf(es, pairs, key) + if FnKey(es[pair.call]) == key then [NodeOf(es, pair).avgMs] else []
  {
  }

  lemma PerfPop(es: seq<TraceEvent>, n: nat, stack: seq<nat>, pairs: seq<Pair>, st: PerfState)
    requires n < |es| && MonotoneTimes(es) && es[n].kind == Ret && Measures(es, stack, pairs, st) && stack != []
    requires var top := stack[|stack|-1];
      top < n && es[top].fn == es[n].fn && es[top].file == es[n].file && FindCall(st.stack, es[n].fn) == |st.stack| - 1
    ensures Measures(es, stack[..|stack|-1], pairs + [Pair(stack[|stack|-1], n)], PerfConsume(st, es[n]))
  {
    hide TimesAgree;
    hide CallsAt;
    var e, pair := es[n], Pair(stack[|stack|-1], n);
    PopCall(es, stack, st, e);
    PopTimes(es, pairs, pair, st.durations, e);
    hide PerfConsume;
  }

  /** What a return that finds its call on top does to the state. */
  lemma PopCall(es: seq<TraceEvent>, stack: seq<nat>, st: PerfState, e: TraceEvent)
    requires (forall k :: 0 <= k < |stack| ==> stack[k] < |es|) && stack != []
    requires st.stack == CallsAt(es, stack) && e.kind == Ret && FindCall(st.stack, e.fn) == |st.stack| - 1
    ensures var d := e.timestampMs - es[stack[|stack|-1]].timestampMs;
      PerfConsume(st, e) == PerfState(CallsAt(es, stack[..|stack|-1]),
                                      st.durations[FnKey(e) := Durations(st.durations, FnKey(e)) + [d]], st.counts)
  {
  }

  /** Recording a duration under the return's key extends that key's times by the closed pair's. */
  lemma PopTimes(es: seq<TraceEvent>, pairs: seq<Pair>, pair: Pair, m: map<string, seq<real>>, e: TraceEvent)
    requires forall k :: 0 <= k < |pairs| ==> pairs[k].call < |es| && pairs[k].close < |es|
    requires pair.call <= pair.close < |es| && es[pair.close] == e && FnKey(es[pair.call]) == FnKey(e)
    requires es[pair.call].timestampMs <= e.timestampMs
    requires TimesAgree(es, pairs, m)
    ensures var d := e.timestampMs - es[pair.call].timestampMs;
      TimesAgree(es, pairs + [pair], m[FnKey(e) := Durations(m, FnKey(e)) + [d]])
  {
    hide NodeOf;
    hide TimesOf;
    hide FnKey;
    hide Durations;
    var d := e.timestampMs - es[pair.call].timestampMs;
    PairTime(es, pair);
    forall key ensures Durations(m[FnKey(e) := Durations(m, FnKey(e)) + [d]], key) == TimesOf(es, pairs + [pair], key) {
      PopTimesAt(es, pairs, pair, m, FnKey(e), d, key);
    }
  }

  lemma PopTimesAt(es: seq<TraceEvent>, pairs: seq<Pair>, pair: Pair, m: map<string, seq<real>>, at: string, d: real,
                   key: string)
    requires forall k :: 0 <= k < |pairs| ==> pairs[k].call < |es| && pairs[k].close < |es|
    requires pair.call < |es| && pair.close < |es| && FnKey(es[pair.call]) == at && NodeOf(es, pair).avgMs == d
    requires Durations(m, key) == TimesOf(es, pairs, key)
    ensures Durations(m[at := Durations(m, at) + [d]], key) == TimesOf(es, pairs + [pair], key)
  {
    hide NodeOf;
    hide TimesOf;
    hide FnKey;
    hide Durations;
    TimesOfMore(es, pairs, pair, key);
    RecordAt(m, at, d, key);
  }

  lemma PairTime(es: seq<TraceEvent>, pair: Pair)
    requires pair.call < |es| && pair.close < |es| && es[pair.call].timestampMs <= es[pair.close].timestampMs
    ensures NodeOf(es, pair).avgMs == es[pair.close].timestampMs - es[pair.call].timestampMs
  {
  }

  lemma RecordAt(m: map<string, seq<real>>, at: string, d: real, key: string)
    ensures Durations(m[at := Durations(m, at) + [d]], key) == Durations(m, key) + if key == at then [d] else []
  {
  }

  /**
   On traces without exceptions, with monotone timestamps and agreeing names, every function's measured durations are
   the normalizer's times of its activations, in the same order.
   */
  lemma {:induction false} DurationsAreNormalized(es: seq<TraceEvent>, n: nat)
    requires n <= |es| && Agreeing(es) && MonotoneTimes(es)
    ensures PerfAgrees(es, n, PerfFold(es, n))
  {
    hide PerfAgrees;
    hide PerfConsume;
    if n == 0 {
      NothingMeasured(es);
    } else {
      DurationsAreNormalized(es, n - 1);
      PerfStep(es, n - 1, PerfFold(es, n - 1));
    }
  }

  function CallsUnder(es: seq<TraceEvent>, n: nat, key: string): nat
    requires n <= |es|
  {
    if n == 0 then 0 else CallsUnder(es, n - 1, key) + if es[n-1].kind == Call && FnKey(es[n-1]) == key then 1 else 0
  }

  /** Every call is counted under its file and name, whether or not it ever returns. */
  lemma {:induction false} CountsAreCalls(es: seq<TraceEvent>, n: nat, key: string)
    requires n <= |es|
    ensures CountOf(PerfFold(es, n).counts, key) == CallsUnder(es, n, key)
    ensures key in PerfFold(es, n).counts <==> CallsUnder(es, n, key) > 0
  {
    hide FnKey;
    if n > 0 {
      CountsAreCalls(es, n - 1, key);
    }
  }

  /** The calls of one function of one file. */
  function CallsOf(es: seq<TraceEvent>, n: nat, file: string, fn: string): nat
    requires n <= |es|
  {
    if n == 0 then 0 else
      CallsOf(es, n - 1, file, fn)
      + if es[n-1].kind == Call && es[n-1].file == file && es[n-1].fn == fn then 1 else 0
  }

  /** Functions of one name in two files are counted apart, provided that no file name holds a colon. */
  lemma {:induction false} CountsAreOfOneFunction(es: seq<TraceEvent>, n: nat, file: string, fn: string)
    requires n <= |es| && ':' !in file && forall i :: 0 <= i < |es| ==> ':' !in es[i].file
    ensures CallsUnder(es, n, file + [':'] + fn) == CallsOf(es, n, file, fn)
  {
    if n > 0 {
      CountsAreOfOneFunction(es, n - 1, file, fn);
      KeyNamesFunction(es[n-1], TraceEvent(Call, fn, file, 0.0, None));
    }
  }

  lemma NothingMeasured(es: seq<TraceEvent>)
    ensures PerfAgrees(es, 0, PerfState([], map[], map[]))
  {
  }

  // ---- Traces of instrumented Go programs ----

  /** Every call has a name and no return does. */
  ghost predicate NamelessReturns(es: seq<TraceEvent>) {
    forall i :: 0 <= i < |es| ==> (es[i].kind == Call ==> es[i].fn != "") && (es[i].kind == Ret ==> es[i].fn == "")
  }

  lemma {:induction false} NamelessReturnsMeasureNothing(es: seq<TraceEvent>, n: nat)
    requires n <= |es| && NamelessReturns(es)
    ensures PerfFold(es, n).durations == map[]
    ensures forall k :: 0 <= k < |PerfFold(es, n).stack| ==> PerfFold(es, n).stack[k].fn != ""
  {
    if n > 0 {
      NamelessReturnsMeasureNothing(es, n - 1);
    }
  }

  /** Function ids are never empty. */
  predicate Named(acts: seq<G.Act>) {
    acts == [] || (acts[0].fn != "" && Named(acts[0].kids) && Named(acts[1..]))
  }

  /** An event of the Go runtime: a named call, or a return or panic without a name. */
  predicate FromRuntime(e: Event) {
    if e.typ == "call" then e.fn != "" else (e.typ == "ret" || e.typ == "panic") && e.fn == ""
  }

  lemma {:induction false} FlatFromRuntime(clock: nat -> real, b: G.Name -> bool, acts: seq<G.Act>, i: nat, s: nat)
    requires Named(acts)
    ensures forall e :: e in T.Flat(clock, b, acts, i, s) ==> FromRuntime(e)
    decreases acts
  {
    if acts != [] {
      var n := 1 + T.Size(acts[0].kids);
      FlatFromRuntime(clock, b, acts[0].kids, i + 1, s + 1);
      FlatFromRuntime(clock, b, acts[1..], i + 2 * n, s + n);
    }
  }

  lemma RuntimeReturnsAreNameless(trace: seq<Event>)
    requires W.Known(trace) && forall e :: e in trace ==> FromRuntime(e)
    ensures NamelessReturns(W.ReceivedAll(trace))
  {
    var es := W.ReceivedAll(trace);
    forall i | 0 <= i < |es| ensures (es[i].kind == Call ==> es[i].fn != "") && (es[i].kind == Ret ==> es[i].fn == "") {
      assert trace[i] in trace && FromRuntime(trace[i]);
    }
  }

  /**
   On the trace of any instrumented Go run the name search never succeeds, because the runtime leaves closing events
   without a name: the aggregator, which reads the events unvalidated, measures no duration at all. The normalizer
   finds every activation, provided that none shows arguments and the trace is read.
   */
  lemma GoRunsAreNotMeasured(clock: nat -> real, b: G.Name -> bool, acts: seq<G.Act>)
    requires Named(acts)
    ensures W.Known(T.Flat(clock, b, acts, 0, 1))
    ensures var trace := T.Flat(clock, b, acts, 0, 1);
      var es := W.ReceivedAll(trace);
      && PerfFold(es, |es|).durations == map[]
      && W.Decode(W.TranslateAll(trace)) == (if W.Silent(b, acts) then Some(es) else None)
      && CallTree(es) == W.PostOrder(clock, acts, 0, 0)
  {
    hide W.Decode;
    hide W.Known;
    hide T.Flat;
    hide FromRuntime;
    var trace := T.Flat(clock, b, acts, 0, 1);
    FlatFromRuntime(clock, b, acts, 0, 1);
    W.ForestComesBack(clock, b, acts);
    RuntimeReturnsAreNameless(trace);
    NamelessReturnsMeasureNothing(W.ReceivedAll(trace), |trace|);
  }
}
