/** Call-tree reconstruction from a flat event list, and what it means on any trace, window or interleaving. */
module Normalizer {
  import opened Options
  import opened Tracert

  datatype Kind = Call | Ret | Exception | AsyncCall | AsyncRet

  datatype TraceEvent = TraceEvent(kind: Kind, fn: string, file: string, timestampMs: real, taskId: Option<int>)

  datatype CallNode = CallNode(stableId: string, hop: int, frequencyRatio: real, avgMs: real)

  predicate Closes(e: TraceEvent) {
    e.kind == Ret || e.kind == Exception
  }

  // ---- The algorithm as a fold ----

  /** An open call: its name, depth and start. */
  datatype Pending = Pending(fn: string, hop: int, startMs: real)

  datatype State = State(stack: seq<Pending>, nodes: seq<CallNode>)

  function AtLeastZero(x: real): real {
    if x < 0.0 then 0.0 else x
  }

  function Closing(c: Pending, endMs: real): CallNode {
    CallNode(c.fn, c.hop, 1.0, AtLeastZero(endMs - c.startMs))
  }

  function Consume(st: State, e: TraceEvent): State {
    if e.kind == Call then st.(stack := st.stack + [Pending(e.fn, |st.stack|, e.timestampMs)])
    else if Closes(e) && st.stack != [] then
      State(st.stack[..|st.stack|-1], st.nodes + [Closing(st.stack[|st.stack|-1], e.timestampMs)])
    else st
  }

  function Fold(st: State, es: seq<TraceEvent>): State {
    if es == [] then st else Consume(Fold(st, es[..|es|-1]), es[|es|-1])
  }

  function Nodes(es: seq<TraceEvent>): seq<CallNode> {
    Fold(State([], []), es).nodes
  }

  /** The loop of the synchronous case: an explicit depth counter next to the stack. */
  method ReconstructSync(events: seq<TraceEvent>) returns (nodes: seq<CallNode>)
    ensures nodes == Nodes(events)
  {
    var stack: seq<Pending> := [];
    nodes := [];
    var depth := 0;
    for i := 0 to |events|
      invariant depth == |stack|
      invariant Fold(State([], []), events[..i]) == State(stack, nodes)
    {
      assert events[..i+1][..i] == events[..i];
      var ev := events[i];
      if ev.kind == Call {
        stack := stack + [Pending(ev.fn, depth, ev.timestampMs)];
        depth := depth + 1;
      } else if Closes(ev) && |stack| > 0 {
        var call := stack[|stack|-1];
        stack := stack[..|stack|-1];
        depth := if depth - 1 < 0 then 0 else depth - 1;
        var duration := ev.timestampMs - call.startMs;
        nodes := nodes + [CallNode(call.fn, call.hop, 1.0, if duration < 0.0 then 0.0 else duration)];
      }
    }
    assert events[..|events|] == events;
  }

  lemma {:induction false} FoldOfConcat(st: State, a: seq<TraceEvent>, b: seq<TraceEvent>)
    ensures Fold(st, a + b) == Fold(Fold(st, a), b)
    decreases |b|
  {
    if b == [] {
      assert a + b == a;
    } else {
      FoldOfConcat(st, a, b[..|b|-1]);
      assert (a + b)[..|a + b|-1] == a + b[..|b|-1];
    }
  }

  // ---- The reference: which call belongs to which return ----

  function Sign(e: TraceEvent): int {
    if e.kind == Call then 1 else if Closes(e) then -1 else 0
  }

  /** Calls minus closes among the first n events. */
  function Level(es: seq<TraceEvent>, n: nat): int
    requires n <= |es|
  {
    if n == 0 then 0 else Level(es, n - 1) + Sign(es[n-1])
  }

  /** The call at p has not been closed by the first n events. */
  ghost predicate Open(es: seq<TraceEvent>, p: nat, n: nat) {
    p < n <= |es| && es[p].kind == Call && forall m :: p < m <= n ==> Level(es, m) > Level(es, p)
  }

  /** The close at q ends the call at p: everything in between is balanced. Defined for any event list whatever. */
  ghost predicate Match(es: seq<TraceEvent>, p: nat, q: nat) {
    && p < q < |es| && es[p].kind == Call && Closes(es[q])
    && Level(es, q + 1) == Level(es, p)
    && (forall m :: p < m <= q ==> Level(es, m) > Level(es, p))
  }

  /** The indices of a call and of the event that closes it. */
  datatype Pair = Pair(call: nat, close: nat)

  /** The indices of the open calls after n events, and the matched pairs so far in order of closing. */
  function Scan(es: seq<TraceEvent>, n: nat): (seq<nat>, seq<Pair>)
    requires n <= |es|
  {
    if n == 0 then ([], []) else Advance(es[n-1], n - 1, Scan(es, n - 1))
  }

  function Advance(e: TraceEvent, n: nat, at: (seq<nat>, seq<Pair>)): (seq<nat>, seq<Pair>) {
    var (stack, pairs) := at;
    if e.kind == Call then (stack + [n], pairs)
    else if Closes(e) && stack != [] then (stack[..|stack|-1], pairs + [Pair(stack[|stack|-1], n)])
    else at
  }

  ghost predicate StackExact(es: seq<TraceEvent>, n: nat, stack: seq<nat>)
    requires n <= |es|
  {
    && (forall k :: 0 <= k < |stack| ==> Open(es, stack[k], n) && Level(es, n) - Level(es, stack[k]) == |stack| - k)
    && (forall j, k :: 0 <= j < k < |stack| ==> stack[j] < stack[k])
    && (forall p: nat :: Open(es, p, n) ==> p in stack)
  }

  ghost predicate PairsExact(es: seq<TraceEvent>, n: nat, pairs: seq<Pair>)
    requires n <= |es|
  {
    && (forall k :: 0 <= k < |pairs| ==> Match(es, pairs[k].call, pairs[k].close) && pairs[k].close < n)
    && (forall j, k :: 0 <= j < k < |pairs| ==> pairs[j].close < pairs[k].close)
    && (forall p: nat, q: nat :: Match(es, p, q) && q < n ==> Pair(p, q) in pairs)
  }

  lemma OpenStep(es: seq<TraceEvent>, p: nat, n: nat)
    requires n < |es|
    ensures p < n ==> (Open(es, p, n + 1) <==> Open(es, p, n) && Level(es, n + 1) > Level(es, p))
    ensures Open(es, n, n + 1) <==> es[n].kind == Call
    ensures Level(es, n + 1) == Level(es, n) + Sign(es[n])
  {
  }

  lemma OpenInRange(es: seq<TraceEvent>, p: nat, n: nat)
    requires Open(es, p, n)
    ensures p < n <= |es|
  {
  }

  lemma StackPush(es: seq<TraceEvent>, n: nat, stack: seq<nat>)
    requires n < |es| && StackExact(es, n, stack) && es[n].kind == Call
    ensures StackExact(es, n + 1, stack + [n])
  {
  }

  lemma StackPop(es: seq<TraceEvent>, n: nat, stack: seq<nat>)
    requires n < |es| && StackExact(es, n, stack) && Closes(es[n])
    ensures StackExact(es, n + 1, if stack == [] then [] else stack[..|stack|-1])
  {
    hide Open;
    hide Level;
    OpenStep(es, n, n);
    forall k | 0 <= k < |stack| - 1 ensures Open(es, stack[k], n + 1) {
      OpenInRange(es, stack[k], n);
      OpenStep(es, stack[k], n);
    }
    var rest := if stack == [] then [] else stack[..|stack|-1];
    forall p: nat | Open(es, p, n + 1) ensures p in rest {
      OpenInRange(es, p, n + 1);
      OpenStep(es, p, n);
      var k :| 0 <= k < |stack| && stack[k] == p;
      assert rest[k] == p;
    }
  }

  lemma StackStays(es: seq<TraceEvent>, n: nat, stack: seq<nat>)
    requires n < |es| && StackExact(es, n, stack) && Sign(es[n]) == 0
    ensures StackExact(es, n + 1, stack)
  {
  }

  lemma StackStep(es: seq<TraceEvent>, n: nat)
    requires n < |es| && StackExact(es, n, Scan(es, n).0)
    ensures StackExact(es, n + 1, Scan(es, n + 1).0)
  {
    var stack := Scan(es, n).0;
    if es[n].kind == Call {
      StackPush(es, n, stack);
    } else if Closes(es[n]) {
      StackPop(es, n, stack);
    } else {
      StackStays(es, n, stack);
    }
    hide StackExact;
  }

  /** A close ends the top of the stack and nothing else. */
  lemma CloseMatchesTop(es: seq<TraceEvent>, n: nat, stack: seq<nat>)
    requires n < |es| && Closes(es[n]) && StackExact(es, n, stack)
    ensures forall p: nat :: Match(es, p, n) <==> stack != [] && p == stack[|stack|-1]
  {
    forall p: nat | Match(es, p, n) ensures stack != [] && p == stack[|stack|-1] {
      assert Open(es, p, n);
      var k :| 0 <= k < |stack| && stack[k] == p;
      assert Level(es, n) - Level(es, p) == 1;
    }
  }

  lemma PairsGrow(es: seq<TraceEvent>, n: nat, pairs: seq<Pair>, top: Pair)
    requires n < |es| && PairsExact(es, n, pairs) && top.close == n
    requires forall p: nat :: Match(es, p, n) <==> p == top.call
    ensures PairsExact(es, n + 1, pairs + [top])
  {
  }

  lemma PairsStay(es: seq<TraceEvent>, n: nat, pairs: seq<Pair>)
    requires n < |es| && PairsExact(es, n, pairs) && forall p: nat :: !Match(es, p, n)
    ensures PairsExact(es, n + 1, pairs)
  {
  }

  lemma MatchCloses(es: seq<TraceEvent>, n: nat)
    requires n < |es| && !Closes(es[n])
    ensures forall p: nat :: !Match(es, p, n)
  {
  }

  lemma PairsStep(es: seq<TraceEvent>, n: nat)
    requires n < |es| && StackExact(es, n, Scan(es, n).0) && PairsExact(es, n, Scan(es, n).1)
    ensures PairsExact(es, n + 1, Scan(es, n + 1).1)
  {
    hide StackExact;
    hide PairsExact;
    hide Match;
    var (stack, pairs) := Scan(es, n);
    if Closes(es[n]) {
      CloseMatchesTop(es, n, stack);
      if stack != [] {
        PairsGrow(es, n, pairs, Pair(stack[|stack|-1], n));
      } else {
        PairsStay(es, n, pairs);
      }
    } else {
      MatchCloses(es, n);
      PairsStay(es, n, pairs);
    }
  }

  lemma ScanStart(es: seq<TraceEvent>)
    ensures StackExact(es, 0, []) && PairsExact(es, 0, [])
  {
  }

  lemma {:induction false} ScanIsExact(es: seq<TraceEvent>, n: nat)
    requires n <= |es|
    ensures StackExact(es, n, Scan(es, n).0) && PairsExact(es, n, Scan(es, n).1)
  {
    hide StackExact;
    hide PairsExact;
    if n == 0 {
      ScanStart(es);
    } else {
      ScanIsExact(es, n - 1);
      StackStep(es, n - 1);
      PairsStep(es, n - 1);
    }
  }

  // ---- The fold computes the reference ----

  /** The node of a matched pair; hop is the number of calls open when it starts. */
  function NodeOf(es: seq<TraceEvent>, pair: Pair): CallNode
    requires pair.call < |es| && pair.close < |es|
  {
    var duration := es[pair.close].timestampMs - es[pair.call].timestampMs;
    CallNode(es[pair.call].fn, |Scan(es, pair.call).0|, 1.0, AtLeastZero(duration))
  }

  ghost predicate StackRepresents(es: seq<TraceEvent>, stack: seq<nat>, pending: seq<Pending>) {
    && |pending| == |stack|
    && (forall k :: 0 <= k < |stack| ==>
          && stack[k] < |es| && |Scan(es, stack[k]).0| == k
          && pending[k] == Pending(es[stack[k]].fn, k, es[stack[k]].timestampMs))
  }

  ghost predicate NodesRepresent(es: seq<TraceEvent>, pairs: seq<Pair>, nodes: seq<CallNode>) {
    && |nodes| == |pairs|
    && (forall k :: 0 <= k < |pairs| ==>
          && pairs[k].call < |es| && pairs[k].close < |es| && nodes[k] == NodeOf(es, pairs[k]))
  }

  lemma ConsumeRepresents(es: seq<TraceEvent>, n: nat, st: State)
    requires n < |es|
    requires StackRepresents(es, Scan(es, n).0, st.stack) && NodesRepresent(es, Scan(es, n).1, st.nodes)
    ensures var (stack, pairs), st' := Advance(es[n], n, Scan(es, n)), Consume(st, es[n]);
      StackRepresents(es, stack, st'.stack) && NodesRepresent(es, pairs, st'.nodes)
  {
    hide Scan;
  }

  lemma {:induction false} FoldRepresentsScan(es: seq<TraceEvent>, n: nat)
    requires n <= |es|
    ensures var st := Fold(State([], []), es[..n]);
      StackRepresents(es, Scan(es, n).0, st.stack) && NodesRepresent(es, Scan(es, n).1, st.nodes)
  {
    hide StackRepresents;
    hide NodesRepresent;
    if n > 0 {
      FoldRepresentsScan(es, n - 1);
      ConsumeRepresents(es, n - 1, Fold(State([], []), es[..n-1]));
      assert es[..n][..n-1] == es[..n-1];
    } else {
      NothingRepresents(es);
    }
  }

  lemma NothingRepresents(es: seq<TraceEvent>)
    ensures StackRepresents(es, [], []) && NodesRepresent(es, [], [])
  {
  }

  /** pairs lists the matches whose call and close lie in [i, j), in the order of the closes. */
  ghost predicate ListsMatches(es: seq<TraceEvent>, i: nat, j: nat, pairs: seq<Pair>) {
    OnlyMatches(es, i, j, pairs) && InOrder(pairs) && CoversMatches(es, i, j, pairs)
  }

  ghost predicate OnlyMatches(es: seq<TraceEvent>, i: nat, j: nat, pairs: seq<Pair>) {
    forall k :: 0 <= k < |pairs| ==>
      i <= pairs[k].call && pairs[k].close < j && Match(es, pairs[k].call, pairs[k].close)
  }

  ghost predicate InOrder(pairs: seq<Pair>) {
    forall k, l :: 0 <= k < l < |pairs| ==> pairs[k].close < pairs[l].close
  }

  ghost predicate CoversMatches(es: seq<TraceEvent>, i: nat, j: nat, pairs: seq<Pair>) {
    forall pair: Pair :: i <= pair.call && pair.close < j && Match(es, pair.call, pair.close) ==> pair in pairs
  }

  /** nodes are those of the given pairs, hops aside. */
  ghost predicate SameActivations(es: seq<TraceEvent>, pairs: seq<Pair>, nodes: seq<CallNode>) {
    && |nodes| == |pairs|
    && (forall k :: 0 <= k < |pairs| ==>
          && pairs[k].call < |es| && pairs[k].close < |es|
          && nodes[k].(hop := 0) == NodeOf(es, pairs[k]).(hop := 0))
  }

  /** A close ends at most one call and a call is ended at most once. */
  lemma MatchIsUnique(es: seq<TraceEvent>, p: nat, q: nat, p': nat, q': nat)
    requires Match(es, p, q) && Match(es, p', q')
    ensures p == p' <==> q == q'
  {
  }

  /** The calls that enclose event p, that is, those still open when it happens. */
  ghost function Enclosing(es: seq<TraceEvent>, p: nat): set<nat>
    requires p <= |es|
  {
    set r: nat | r < p && Open(es, r, p)
  }

  /** A node's hop counts the enclosing calls that the trace contains. */
  lemma HopCountsEnclosing(es: seq<TraceEvent>, p: nat)
    requires p <= |es|
    ensures |Scan(es, p).0| == |Enclosing(es, p)|
  {
    ScanIsExact(es, p);
    var stack := Scan(es, p).0;
    forall r ensures r in Enclosing(es, p) <==> r in stack {}
    DistinctSize(stack, Enclosing(es, p));
  }

  lemma {:induction false} DistinctSize(s: seq<nat>, S: set<nat>)
    requires forall j, k :: 0 <= j < k < |s| ==> s[j] < s[k]
    requires forall x :: x in S <==> x in s
    ensures |s| == |S|
  {
    if s != [] {
      var last := s[|s|-1];
      assert s == s[..|s|-1] + [last];
      DistinctSize(s[..|s|-1], S - {last});
    } else {
      assert S == {};
    }
  }

  /** The node of a matched pair: the call's name, the number of calls open around it, and its time, at least 0. */
  ghost predicate Describes(es: seq<TraceEvent>, pair: Pair, node: CallNode) {
    && pair.call < |es| && pair.close < |es|
    && var took := es[pair.close].timestampMs - es[pair.call].timestampMs;
       node == CallNode(es[pair.call].fn, |Enclosing(es, pair.call)|, 1.0, if took < 0.0 then 0.0 else took)
  }

  ghost predicate DescribesAll(es: seq<TraceEvent>, pairs: seq<Pair>, nodes: seq<CallNode>) {
    |nodes| == |pairs| && forall k :: 0 <= k < |pairs| ==> Describes(es, pairs[k], nodes[k])
  }

  /**
   On every event list, well nested or not, the result has exactly one node per matched call and close, in the order
   of the closes, named after the call, with the call's depth and the pair's duration.
   */
  lemma NodesAreMatches(es: seq<TraceEvent>) returns (pairs: seq<Pair>)
    ensures ListsMatches(es, 0, |es|, pairs)
    ensures NodesRepresent(es, pairs, Nodes(es)) && DescribesAll(es, pairs, Nodes(es))
  {
    FoldRepresentsScan(es, |es|);
    assert es[..|es|] == es;
    ScanIsExact(es, |es|);
    pairs := Scan(es, |es|).1;
    hide Scan;
    hide Match;
    hide StackExact;
    hide StackRepresents;
    RepresentedIsDescribed(es, pairs, Nodes(es));
  }

  lemma RepresentedIsDescribed(es: seq<TraceEvent>, pairs: seq<Pair>, nodes: seq<CallNode>)
    requires NodesRepresent(es, pairs, nodes)
    ensures DescribesAll(es, pairs, nodes)
  {
    hide Scan;
    hide Enclosing;
    forall k | 0 <= k < |pairs| ensures Describes(es, pairs[k], nodes[k]) {
      HopCountsEnclosing(es, pairs[k].call);
    }
  }

  // ---- Windows ----

  lemma {:induction false} WindowLevel(es: seq<TraceEvent>, i: nat, j: nat, n: nat)
    requires i <= j <= |es| && n <= j - i
    ensures Level(es[i..j], n) == Level(es, i + n) - Level(es, i)
  {
    if n > 0 {
      WindowLevel(es, i, j, n - 1);
    }
  }

  /** Cutting a window out of a trace neither makes nor breaks a match inside it. */
  lemma WindowMatch(es: seq<TraceEvent>, i: nat, j: nat, p: nat, q: nat)
    requires i <= j <= |es|
    ensures Match(es[i..j], p, q) <==> i + q < j && Match(es, i + p, i + q)
  {
    var w := es[i..j];
    if p < q < j - i {
      WindowLevel(es, i, j, p);
      WindowLevel(es, i, j, q + 1);
      forall m | p < m <= q ensures Level(w, m) == Level(es, i + m) - Level(es, i) {
        WindowLevel(es, i, j, m);
      }
      if Match(w, p, q) {
        forall m | i + p < m <= i + q ensures Level(es, m) > Level(es, i + p) {
          assert Level(w, m - i) > Level(w, p);
        }
      }
    }
  }

  lemma MatchInRange(es: seq<TraceEvent>, p: nat, q: nat)
    requires Match(es, p, q)
    ensures p < q < |es|
  {
  }

  function Shifted(i: nat, inner: seq<Pair>): (r: seq<Pair>)
    ensures |r| == |inner|
    ensures forall k :: 0 <= k < |r| ==> r[k] == Pair(i + inner[k].call, i + inner[k].close)
  {
    seq(|inner|, k requires 0 <= k < |inner| => Pair(i + inner[k].call, i + inner[k].close))
  }

  lemma ShiftKeepsOrder(i: nat, pairs: seq<Pair>)
    requires InOrder(pairs)
    ensures InOrder(Shifted(i, pairs))
  {
  }

  lemma ShiftKeepsOnly(es: seq<TraceEvent>, i: nat, j: nat, inner: seq<Pair>)
    requires i <= j <= |es| && OnlyMatches(es[i..j], 0, j - i, inner)
    ensures OnlyMatches(es, i, j, Shifted(i, inner))
  {
    hide Match;
    forall k | 0 <= k < |inner| ensures i + inner[k].close < j && Match(es, i + inner[k].call, i + inner[k].close) {
      WindowMatch(es, i, j, inner[k].call, inner[k].close);
    }
  }

  lemma WindowMatchOut(es: seq<TraceEvent>, i: nat, j: nat, inner: seq<Pair>, pair: Pair)
    requires i <= j <= |es| && CoversMatches(es[i..j], 0, j - i, inner)
    requires i <= pair.call && pair.close < j && Match(es, pair.call, pair.close)
    ensures pair in Shifted(i, inner)
  {
    MatchInRange(es, pair.call, pair.close);
    hide Match;
    var moved := Pair(pair.call - i, pair.close - i);
    WindowMatch(es, i, j, moved.call, moved.close);
    var k :| 0 <= k < |inner| && inner[k] == moved;
    assert Shifted(i, inner)[k] == pair;
  }

  lemma WindowMatches(es: seq<TraceEvent>, i: nat, j: nat, inner: seq<Pair>)
    requires i <= j <= |es| && ListsMatches(es[i..j], 0, j - i, inner)
    ensures ListsMatches(es, i, j, Shifted(i, inner))
  {
    hide OnlyMatches;
    hide InOrder;
    ShiftKeepsOrder(i, inner);
    ShiftKeepsOnly(es, i, j, inner);
    forall pair: Pair | i <= pair.call && pair.close < j && Match(es, pair.call, pair.close)
      ensures pair in Shifted(i, inner)
    {
      WindowMatchOut(es, i, j, inner, pair);
    }
    hide Match;
  }

  lemma WindowNodes(es: seq<TraceEvent>, i: nat, j: nat, inner: seq<Pair>, nodes: seq<CallNode>)
    requires i <= j <= |es| && NodesRepresent(es[i..j], inner, nodes)
    ensures SameActivations(es, Shifted(i, inner), nodes)
  {
  }

  /**
   Reconstruction of any contiguous window emits exactly the activations whose call and close both lie in it, each with
   its own name and true duration: losing the oldest or newest events never pairs survivors wrongly.
   */
  lemma WindowReconstruction(es: seq<TraceEvent>, i: nat, j: nat) returns (pairs: seq<Pair>)
    requires i <= j <= |es|
    ensures ListsMatches(es, i, j, pairs)
    ensures SameActivations(es, pairs, Nodes(es[i..j]))
  {
    hide ListsMatches;
    hide NodesRepresent;
    hide SameActivations;
    hide Nodes;
    var inner := NodesAreMatches(es[i..j]);
    pairs := Shifted(i, inner);
    WindowMatches(es, i, j, inner);
    WindowNodes(es, i, j, inner, Nodes(es[i..j]));
  }

  // ---- Tasks ----

  predicate IsAsync(e: TraceEvent) {
    e.kind == AsyncCall || e.kind == AsyncRet
  }

  function TaskOf(e: TraceEvent): int {
    if e.taskId.Some? then e.taskId.value else 0
  }

  ghost predicate Tagged(es: seq<TraceEvent>) {
    exists i :: 0 <= i < |es| && es[i].taskId.Some?
  }

  /** The synchronous events of one task, in order. */
  function Project(es: seq<TraceEvent>, task: int): seq<TraceEvent> {
    if es == [] then [] else
      var front, e := Project(es[..|es|-1], task), es[|es|-1];
      if !IsAsync(e) && TaskOf(e) == task then front + [e] else front
  }

  /** The task ids of the async_call events, in order. */
  function Links(es: seq<TraceEvent>): seq<int> {
    if es == [] then [] else
      var front, e := Links(es[..|es|-1]), es[|es|-1];
      if e.kind == AsyncCall then front + [TaskOf(e)] else front
  }

  function Chain(es: seq<TraceEvent>, links: seq<int>): seq<CallNode> {
    if links == [] then [] else Chain(es, links[..|links|-1]) + Nodes(Project(es, links[|links|-1]))
  }

  ghost function CallTree(es: seq<TraceEvent>): seq<CallNode> {
    if Tagged(es) then Nodes(Project(es, 0)) + Chain(es, Links(es)) else Nodes(es)
  }

  // ---- The tree as a list of segments ----

  const BLANK := TraceEvent(AsyncRet, "", "", 0.0, None)

  /** The trace with everything blanked but one task's calls, returns and exceptions; no task id means task 0. */
  function OnlyTask(es: seq<TraceEvent>, task: int): (r: seq<TraceEvent>)
    ensures |r| == |es|
    ensures forall i :: 0 <= i < |r| ==> r[i] == if BelongsTo(es[i], task) then es[i] else BLANK
  {
    seq(|es|, i requires 0 <= i < |es| => if BelongsTo(es[i], task) then es[i] else BLANK)
  }

  predicate BelongsTo(e: TraceEvent, task: int) {
    && (e.kind == Call || e.kind == Ret || e.kind == Exception)
    && (if e.taskId.Some? then e.taskId.value == task else task == 0)
  }

  /** nodes are those of exactly the matched pairs of one task's events, in the order of their closes. */
  ghost predicate IsSegment(es: seq<TraceEvent>, task: int, nodes: seq<CallNode>) {
    exists pairs ::
      ListsMatches(OnlyTask(es, task), 0, |es|, pairs) && DescribesAll(OnlyTask(es, task), pairs, nodes)
  }

  /** The positions of the async_call events, in order. */
  ghost predicate AreLinks(es: seq<TraceEvent>, idx: seq<nat>) {
    && (forall j, k :: 0 <= j < k < |idx| ==> idx[j] < idx[k])
    && (forall k :: 0 <= k < |idx| ==> idx[k] < |es| && es[idx[k]].kind == AsyncCall)
    && (forall i: nat :: i < |es| && es[i].kind == AsyncCall ==> i in idx)
  }

  function Concat(parts: seq<seq<CallNode>>): seq<CallNode> {
    if parts == [] then [] else Concat(parts[..|parts|-1]) + parts[|parts|-1]
  }

  /** First task 0, then for each async_call event in turn the task it names. */
  ghost predicate AreSegments(es: seq<TraceEvent>, idx: seq<nat>, parts: seq<seq<CallNode>>) {
    && AreLinks(es, idx) && |parts| == |idx| + 1 && IsSegment(es, 0, parts[0])
    && (forall k :: 0 <= k < |idx| ==>
          IsSegment(es, if es[idx[k]].taskId.Some? then es[idx[k]].taskId.value else 0, parts[k+1]))
  }

  ghost predicate IsSegmented(es: seq<TraceEvent>, nodes: seq<CallNode>) {
    exists idx, parts :: AreSegments(es, idx, parts) && nodes == Concat(parts)
  }

  lemma BlankIsSkipped(st: State)
    ensures Consume(st, BLANK) == st
  {
  }

  lemma {:induction false} FoldOfOnlyTask(st: State, es: seq<TraceEvent>, task: int)
    ensures Fold(st, OnlyTask(es, task)) == Fold(st, Project(es, task))
  {
    hide Consume;
    if es != [] {
      var front, e := es[..|es|-1], es[|es|-1];
      FoldOfOnlyTask(st, front, task);
      assert OnlyTask(es, task)[..|es|-1] == OnlyTask(front, task);
      if BelongsTo(e, task) {
        var kept := Project(front, task);
        assert Project(es, task) == kept + [e] && (kept + [e])[..|kept|] == kept;
      } else {
        BlankIsSkipped(Fold(st, OnlyTask(front, task)));
      }
    }
  }

  lemma ProjectIsSegment(es: seq<TraceEvent>, task: int)
    ensures IsSegment(es, task, Nodes(Project(es, task)))
  {
    FoldOfOnlyTask(State([], []), es, task);
    hide ListsMatches;
    hide DescribesAll;
    hide NodesRepresent;
    hide Fold;
    var pairs := NodesAreMatches(OnlyTask(es, task));
    assert Nodes(Project(es, task)) == Nodes(OnlyTask(es, task));
  }

  lemma {:induction false} LinksArePositions(es: seq<TraceEvent>) returns (idx: seq<nat>)
    ensures AreLinks(es, idx) && |Links(es)| == |idx|
    ensures forall k :: 0 <= k < |idx| ==>
      Links(es)[k] == if es[idx[k]].taskId.Some? then es[idx[k]].taskId.value else 0
  {
    if es == [] {
      idx := [];
    } else {
      var last := |es| - 1;
      var front := es[..last];
      idx := LinksArePositions(front);
      ghost var before := idx;
      if es[last].kind == AsyncCall {
        idx := idx + [last];
        assert idx[|before|] == last;
      }
      forall i: nat | i < |es| && es[i].kind == AsyncCall ensures i in idx {
        if i < last { assert front[i].kind == AsyncCall && i in before; }
      }
      forall k | 0 <= k < |before| ensures before[k] < last && front[before[k]] == es[before[k]] {
      }
    }
  }

  /** The parts that make up the tree: task 0's nodes and those of each linked task. */
  function Parts(es: seq<TraceEvent>, links: seq<int>): (r: seq<seq<CallNode>>)
    ensures |r| == |links| + 1 && r[0] == Nodes(Project(es, 0))
    ensures forall k :: 0 <= k < |links| ==> r[k+1] == Nodes(Project(es, links[k]))
  {
    [Nodes(Project(es, 0))] + seq(|links|, k requires 0 <= k < |links| => Nodes(Project(es, links[k])))
  }

  lemma {:induction false} ChainIsConcat(es: seq<TraceEvent>, links: seq<int>)
    ensures Concat(Parts(es, links)) == Nodes(Project(es, 0)) + Chain(es, links)
  {
    hide Nodes;
    hide Project;
    if links == [] {
      assert Parts(es, links)[..0] == [];
      assert [] + Nodes(Project(es, 0)) == Nodes(Project(es, 0)) + [];
    } else {
      var front, last := links[..|links|-1], links[|links|-1];
      ChainIsConcat(es, front);
      assert Parts(es, links)[..|links|] == Parts(es, front);
    }
  }

  /**
   The tree of a trace with task ids: task 0's activations, then those of the task of each async_call event in turn,
   each segment complete and in closing order, and nothing before, between or after.
   */
  lemma TreeIsSegments(es: seq<TraceEvent>)
    requires Tagged(es)
    ensures IsSegmented(es, CallTree(es))
  {
    hide Nodes;
    hide Project;
    hide IsSegment;
    hide AreLinks;
    hide Chain;
    var idx := LinksArePositions(es);
    var links := Links(es);
    var parts := Parts(es, links);
    ChainIsConcat(es, links);
    ProjectIsSegment(es, 0);
    forall k | 0 <= k < |idx| ensures IsSegment(es, links[k], parts[k+1]) {
      ProjectIsSegment(es, links[k]);
    }
    hide Links;
    assert AreSegments(es, idx, parts);
  }

  /** Without task ids the tree is the reconstruction of all events. */
  ghost predicate IsReconstruction(es: seq<TraceEvent>, nodes: seq<CallNode>) {
    exists pairs :: ListsMatches(es, 0, |es|, pairs) && DescribesAll(es, pairs, nodes)
  }

  lemma TreeIsReconstruction(es: seq<TraceEvent>)
    requires !Tagged(es)
    ensures IsReconstruction(es, CallTree(es))
  {
    hide ListsMatches;
    hide DescribesAll;
    hide NodesRepresent;
    hide Nodes;
    var pairs := NodesAreMatches(es);
  }

  function GetOrEmpty<T>(m: map<int, seq<T>>, k: int): seq<T> {
    if k in m then m[k] else []
  }

  lemma ProjectMore(es: seq<TraceEvent>, i: nat, task: int)
    requires i < |es|
    ensures Project(es[..i+1], task)
         == if !IsAsync(es[i]) && TaskOf(es[i]) == task then Project(es[..i], task) + [es[i]]
            else Project(es[..i], task)
  {
    assert es[..i+1][..i] == es[..i];
  }

  ghost predicate Partition(tasks: map<int, seq<TraceEvent>>, es: seq<TraceEvent>) {
    forall t :: GetOrEmpty(tasks, t) == Project(es, t)
  }

  lemma PartitionMore(tasks: map<int, seq<TraceEvent>>, es: seq<TraceEvent>, i: nat)
    requires i < |es| && Partition(tasks, es[..i])
    ensures var t := TaskOf(es[i]);
      Partition(if IsAsync(es[i]) then tasks else tasks[t := GetOrEmpty(tasks, t) + [es[i]]], es[..i+1])
  {
    var t0 := TaskOf(es[i]);
    var tasks' := if IsAsync(es[i]) then tasks else tasks[t0 := GetOrEmpty(tasks, t0) + [es[i]]];
    forall t ensures GetOrEmpty(tasks', t) == Project(es[..i+1], t) {
      ProjectMore(es, i, t);
      assert GetOrEmpty(tasks, t) == Project(es[..i], t);
    }
  }

  lemma LinksMore(es: seq<TraceEvent>, i: nat)
    requires i < |es|
    ensures Links(es[..i+1]) == if es[i].kind == AsyncCall then Links(es[..i]) + [TaskOf(es[i])] else Links(es[..i])
  {
    assert es[..i+1][..i] == es[..i];
  }

  lemma ChainMore(es: seq<TraceEvent>, links: seq<int>, i: nat)
    requires i < |links|
    ensures Chain(es, links[..i+1]) == Chain(es, links[..i]) + Nodes(Project(es, links[i]))
  {
    assert links[..i+1][..i] == links[..i];
  }

  ghost predicate Trees(trees: map<int, seq<CallNode>>, es: seq<TraceEvent>) {
    forall t :: GetOrEmpty(trees, t) == Nodes(Project(es, t))
  }

  lemma TreeAt(trees: map<int, seq<CallNode>>, es: seq<TraceEvent>, t: int)
    requires Trees(trees, es)
    ensures GetOrEmpty(trees, t) == Nodes(Project(es, t))
  {
  }

  lemma AllTrees(tasks: map<int, seq<TraceEvent>>, trees: map<int, seq<CallNode>>, es: seq<TraceEvent>)
    requires Partition(tasks, es) && trees.Keys == tasks.Keys
    requires forall t :: t in tasks ==> trees[t] == Nodes(tasks[t])
    ensures Trees(trees, es)
  {
    assert Nodes([]) == [];
    hide Nodes;
    hide Project;
    forall t ensures GetOrEmpty(trees, t) == Nodes(Project(es, t)) {
      assert GetOrEmpty(tasks, t) == Project(es, t);
    }
  }

  method PickAny<T(==)>(s: set<T>) returns (x: T)
    requires s != {}
    ensures x in s
  {
    x :| x in s;
  }

  method TaskTrees(tasks: map<int, seq<TraceEvent>>) returns (trees: map<int, seq<CallNode>>)
    ensures trees.Keys == tasks.Keys
    ensures forall t :: t in tasks ==> trees[t] == Nodes(tasks[t])
  {
    hide Nodes;
    trees := map[];
    var todo := tasks.Keys;
    while todo != {}
      invariant todo <= tasks.Keys && trees.Keys == tasks.Keys - todo
      invariant forall t :: t in trees ==> trees[t] == Nodes(tasks[t])
      decreases |todo|
    {
      var t := PickAny(todo);
      var tree := ReconstructSync(tasks[t]);
      trees := trees[t := tree];
      todo := todo - {t};
    }
  }

  method SplitTasks(events: seq<TraceEvent>) returns (tasks: map<int, seq<TraceEvent>>, links: seq<int>)
    ensures Partition(tasks, events) && links == Links(events)
  {
    tasks, links := map[], [];
    for i := 0 to |events|
      invariant links == Links(events[..i])
      invariant Partition(tasks, events[..i])
    {
      LinksMore(events, i);
      PartitionMore(tasks, events, i);
      var ev := events[i];
      var tid := TaskOf(ev);
      if ev.kind == AsyncCall {
        links := links + [tid];
      } else if ev.kind != AsyncRet {
        tasks := tasks[tid := GetOrEmpty(tasks, tid) + [ev]];
      }
    }
    assert events[..|events|] == events;
  }

  method JoinTrees(trees: map<int, seq<CallNode>>, links: seq<int>, ghost es: seq<TraceEvent>)
    returns (nodes: seq<CallNode>)
    requires Trees(trees, es)
    ensures nodes == Nodes(Project(es, 0)) + Chain(es, links)
  {
    hide Nodes;
    hide Project;
    TreeAt(trees, es, 0);
    nodes := GetOrEmpty(trees, 0);
    ChainOfNone(es);
    hide Chain;
    for i := 0 to |links|
      invariant nodes == Nodes(Project(es, 0)) + Chain(es, links[..i])
    {
      ChainMore(es, links, i);
      TreeAt(trees, es, links[i]);
      nodes := nodes + GetOrEmpty(trees, links[i]);
    }
    assert links[..|links|] == links;
  }

  /** Splits by task, reconstructs each, then strings the trees together: task 0, then linked tasks in order. */
  method ReconstructCallTree(events: seq<TraceEvent>) returns (nodes: seq<CallNode>)
    ensures nodes == CallTree(events)
    ensures if exists i :: 0 <= i < |events| && events[i].taskId.Some? then IsSegmented(events, nodes)
            else IsReconstruction(events, nodes)
  {
    hide IsSegmented;
    hide IsReconstruction;
    hide Nodes;
    hide Project;
    hide Links;
    hide Chain;
    hide Partition;
    hide Trees;
    if exists i :: 0 <= i < |events| && events[i].taskId.Some? {
      var tasks, links := SplitTasks(events);
      var trees := TaskTrees(tasks);
      AllTrees(tasks, trees, events);
      nodes := JoinTrees(trees, links, events);
      TreeIsSegments(events);
    } else {
      nodes := ReconstructSync(events);
      TreeIsReconstruction(events);
    }
  }

  lemma ChainOfNone(es: seq<TraceEvent>)
    ensures Chain(es, []) == []
  {
  }

  lemma {:induction false} ChainOfProjections(es: seq<TraceEvent>, es': seq<TraceEvent>, links: seq<int>)
    requires forall t :: Project(es, t) == Project(es', t)
    ensures Chain(es, links) == Chain(es', links)
  {
    if links != [] {
      ChainOfProjections(es, es', links[..|links|-1]);
    }
  }

  /** How events of different tasks interleave does not matter, only each one's order and that of the async calls. */
  lemma InterleavingDoesNotMatter(es: seq<TraceEvent>, es': seq<TraceEvent>)
    requires Tagged(es) && Tagged(es')
    requires forall t :: Project(es, t) == Project(es', t)
    requires Links(es) == Links(es')
    ensures CallTree(es) == CallTree(es')
  {
    ChainOfProjections(es, es', Links(es));
  }

  lemma {:induction false} SingleTask(es: seq<TraceEvent>, n: nat)
    requires n <= |es| && forall i :: 0 <= i < n ==> !IsAsync(es[i]) && TaskOf(es[i]) == 0
    ensures Project(es[..n], 0) == es[..n] && Links(es[..n]) == []
  {
    if n == 0 {
      assert es[..0] == [];
    } else {
      hide Project;
      hide Links;
      assert es[..n] == es[..n-1] + [es[n-1]];
      SingleTask(es, n - 1);
      ProjectMore(es, n - 1, 0);
      LinksMore(es, n - 1);
    }
  }

  /** A trace confined to task 0 comes out as if the events carried no task ids. */
  lemma TaskZeroIsSync(es: seq<TraceEvent>)
    requires forall i :: 0 <= i < |es| ==> !IsAsync(es[i]) && TaskOf(es[i]) == 0
    ensures CallTree(es) == Nodes(es)
  {
    SingleTask(es, |es|);
    assert es[..|es|] == es;
    ChainOfNone(es);
    assert Nodes(es) + [] == Nodes(es);
  }
}
