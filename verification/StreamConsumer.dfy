/**
 The stream consumer loop with its dead-letter queue, and the enricher that batches on top of it. Every await may
 fail, be cancelled, or take effect although its answer is lost.
 */
module StreamConsumer {
  import opened Options
  import P = Provenance

  // ---- Messages and records ----

  datatype PathNode = PathNode(id: P.Id, avgMs: real, ratio: real)

  datatype ExecutionPath = ExecutionPath(entrypoint: P.Id, calls: seq<PathNode>, dynamicOnly: seq<P.Ends>, p50: real)

  /** What a message holds: no event, undecodable or invalid text, or an execution path. */
  datatype Payload = Missing | Unreadable | Path(path: ExecutionPath)

  datatype Record = Record(id: P.Id, avgMs: real, coverage: real)

  datatype Records = Records(nodes: seq<Record>, dynamic: seq<P.Observed>, observed: seq<P.Id>)

  function CallIds(p: ExecutionPath): seq<P.Id> {
    seq(|p.calls|, i requires 0 <= i < |p.calls| => p.calls[i].id)
  }

  /** The entrypoint is always among the observed ids: first when the call sequence does not name it. */
  function ExtractRecords(p: ExecutionPath): Records {
    var nodes := seq(|p.calls|, i requires 0 <= i < |p.calls| =>
      Record(p.calls[i].id, p.calls[i].avgMs, p.calls[i].ratio));
    var dynamic := seq(|p.dynamicOnly|, i requires 0 <= i < |p.dynamicOnly| => P.Observed(p.dynamicOnly[i], 1));
    if p.entrypoint in CallIds(p) then Records(nodes, dynamic, CallIds(p))
    else Records(nodes + [Record(p.entrypoint, p.p50, 1.0)], dynamic, [p.entrypoint] + CallIds(p))
  }

  predicate IsCall(p: ExecutionPath, id: P.Id) {
    exists i :: 0 <= i < |p.calls| && p.calls[i].id == id
  }

  /** An id the path shows: its entrypoint or one of its calls. */
  predicate Shows(p: ExecutionPath, id: P.Id) {
    id == p.entrypoint || IsCall(p, id)
  }

  /**
   What a path adds to the three buffers: a record, and an observed id, for each call in order; the same for an
   entrypoint that is no call, its id coming first; and one sighting for each edge that only traces show.
   */
  ghost predicate Tells(p: ExecutionPath, nodes: seq<Record>, dynamic: seq<P.Observed>, observed: seq<P.Id>) {
    var extra := if IsCall(p, p.entrypoint) then 0 else 1;
    && |nodes| == |observed| == |p.calls| + extra && |dynamic| == |p.dynamicOnly|
    && (forall i :: 0 <= i < |p.calls| ==>
          && nodes[i] == Record(p.calls[i].id, p.calls[i].avgMs, p.calls[i].ratio)
          && observed[extra + i] == p.calls[i].id)
    && (extra == 1 ==> nodes[|p.calls|] == Record(p.entrypoint, p.p50, 1.0) && observed[0] == p.entrypoint)
    && (forall i :: 0 <= i < |dynamic| ==> dynamic[i] == P.Observed(p.dynamicOnly[i], 1))
  }

  lemma ExtractedTells(p: ExecutionPath)
    ensures var r := ExtractRecords(p); Tells(p, r.nodes, r.dynamic, r.observed)
  {
    if i :| 0 <= i < |p.calls| && p.calls[i].id == p.entrypoint { assert CallIds(p)[i] == p.entrypoint; }
  }

  function Join(a: Records, b: Records): Records {
    Records(a.nodes + b.nodes, a.dynamic + b.dynamic, a.observed + b.observed)
  }

  function RecordIds(rs: seq<Record>): seq<P.Id> {
    seq(|rs|, i requires 0 <= i < |rs| => rs[i].id)
  }

  // ---- What has happened ----

  datatype Event =
    | Handed(id: nat)
    | Handled(id: nat, path: ExecutionPath)
    | DeadLettered(id: nat)
    | Acked(id: nat)
    | FlushAttempted

  /** The records of the messages handled since the last flush attempt. */
  function Unflushed(log: seq<Event>): Records {
    if log == [] then Records([], [], []) else
      var e := log[|log|-1];
      if e.FlushAttempted? then Records([], [], [])
      else if e.Handled? then Join(Unflushed(log[..|log|-1]), ExtractRecords(e.path))
      else Unflushed(log[..|log|-1])
  }

  ghost predicate Settled(log: seq<Event>, n: nat, id: nat) {
    exists j :: 0 <= j < n && j < |log| && ((log[j].Handled? && log[j].id == id) || log[j] == DeadLettered(id))
  }

  /** Nothing is acknowledged before it was handled or dead-lettered. */
  ghost predicate AckSafe(log: seq<Event>) {
    forall k :: 0 <= k < |log| && log[k].Acked? ==> Settled(log, k, log[k].id)
  }

  /** No message is handed out twice, and only messages below bound were. */
  ghost predicate HandedOnce(log: seq<Event>, bound: nat) {
    && (forall k :: 0 <= k < |log| && log[k].Handed? ==> log[k].id < bound)
    && (forall j, k :: 0 <= j < k < |log| && log[j].Handed? && log[k].Handed? ==> log[j].id < log[k].id)
  }

  /** Unless nothing is pending, some observed id is; and sightings count once. */
  ghost predicate Telling(r: Records) {
    && (r.observed == [] ==> r.nodes == [] && r.dynamic == [])
    && (forall i :: 0 <= i < |r.dynamic| ==> r.dynamic[i].count >= 1)
  }

  lemma AckSafeMore(log: seq<Event>, e: Event)
    requires AckSafe(log) && (e.Acked? ==> Settled(log, |log|, e.id))
    ensures AckSafe(log + [e])
  {
    var more := log + [e];
    forall k | 0 <= k < |more| && more[k].Acked? ensures Settled(more, k, more[k].id) {
      if k < |log| {
        assert Settled(log, k, log[k].id);
        var j :| 0 <= j < k && j < |log|
          && ((log[j].Handled? && log[j].id == log[k].id) || log[j] == DeadLettered(log[k].id));
        assert more[j] == log[j];
      } else {
        var j :| 0 <= j < |log| && ((log[j].Handled? && log[j].id == e.id) || log[j] == DeadLettered(e.id));
        assert more[j] == log[j];
      }
    }
  }

  lemma HandedMore(log: seq<Event>, e: Event, low: nat, bound: nat)
    requires HandedOnce(log, low) && low <= bound && (e.Handed? ==> low <= e.id < bound)
    ensures HandedOnce(log + [e], bound)
  {
  }

  lemma HandedBelow(log: seq<Event>, low: nat, high: nat)
    requires HandedOnce(log, low) && low <= high
    ensures HandedOnce(log, high)
  {
  }

  lemma SettledByLast(log: seq<Event>, e: Event, id: nat)
    requires (e.Handled? && e.id == id) || e == DeadLettered(id)
    ensures Settled(log + [e], |log| + 1, id)
  {
    assert (log + [e])[|log|] == e;
  }

  lemma UnflushedMore(log: seq<Event>, e: Event)
    ensures Unflushed(log + [e])
         == if e.FlushAttempted? then Records([], [], [])
            else if e.Handled? then Join(Unflushed(log), ExtractRecords(e.path))
            else Unflushed(log)
  {
  }

  lemma ExtractedIsTelling(r: Records, p: ExecutionPath)
    requires Telling(r)
    ensures Telling(Join(r, ExtractRecords(p))) && Join(r, ExtractRecords(p)).observed != []
  {
  }

  // ---- Faults ----

  /** How a call ends: normally, with KeyError or ValueError, with another exception, or cancelled. */
  datatype Ending = Fine | BadMessage | Failed | Cancelled

  /** A Redis call may take effect although it ends badly. */
  datatype RedisCall = RedisCall(ending: Ending, took: bool) {
    predicate Happened() {
      ending.Fine? || took
    }
  }

  datatype MessageFaults = MessageFaults(handle: Ending, ack: RedisCall, deadLetter: RedisCall, deadAck: RedisCall)

  /**
   The batch's five queries run in order; the one numbered stage is the first that ends other than normally. It may take
   effect all the same: the answer to a commit can be lost, and a cancelled wait does not stop the thread behind it.
   */
  datatype FlushFaults = FlushFaults(stage: nat, ending: Ending, took: bool, tracedAt: real, confirmedAt: real) {
    /** How many of the five queries take effect. */
    function Effective(): nat
      ensures Effective() <= 5
    {
      if ending.Fine? || stage >= 5 then 5 else if took then stage + 1 else stage
    }
  }

  datatype Iteration = Iteration(read: RedisCall, count: nat, messages: nat -> MessageFaults, flush: FlushFaults)

  /** Where control goes after a message or an iteration: on, to the loop's error handler, or out. */
  datatype Next = Continue | LoopError | Stop

  const BATCH := 50

  function After(e: Ending): Next {
    match e
    case Fine => Continue
    case Cancelled => Stop
    case _ => LoopError
  }

  // ---- What a turn does, exactly ----

  function AfterHandle(payload: Payload, fault: Ending): Ending {
    if !fault.Fine? then fault else if payload.Path? then Fine else BadMessage
  }

  function IfHappened(c: RedisCall, e: Event): seq<Event> {
    if c.Happened() then [e] else []
  }

  /** How handling and acknowledging a message ends; only a bad message goes on to the dead-letter queue. */
  function Verdict(payload: Payload, f: MessageFaults): Ending {
    if AfterHandle(payload, f.handle).Fine? then f.ack.ending else AfterHandle(payload, f.handle)
  }

  function DeadLetterEvents(id: nat, f: MessageFaults): seq<Event> {
    IfHappened(f.deadLetter, DeadLettered(id))
    + if f.deadLetter.ending.Fine? then IfHappened(f.deadAck, Acked(id)) else []
  }

  function MessageEvents(id: nat, payload: Payload, f: MessageFaults): seq<Event> {
    [Handed(id)]
    + (if AfterHandle(payload, f.handle).Fine? then [Handled(id, payload.path)] + IfHappened(f.ack, Acked(id)) else [])
    + if Verdict(payload, f).BadMessage? then DeadLetterEvents(id, f) else []
  }

  /** A failed message is only logged; an exception from the dead-letter branch leaves the batch. */
  function MessageNext(payload: Payload, f: MessageFaults): Next {
    match Verdict(payload, f)
    case Cancelled => Stop
    case BadMessage => After(if f.deadLetter.ending.Fine? then f.deadAck.ending else f.deadLetter.ending)
    case _ => Continue
  }

  /** The first n messages from position first; nothing more happens once one of them ends the batch. */
  function BatchEvents(stream: seq<Payload>, first: nat, n: nat, messages: nat -> MessageFaults): (seq<Event>, Next)
    requires first + n <= |stream|
  {
    if n == 0 then ([], Continue) else
      var (events, next) := BatchEvents(stream, first, n - 1, messages);
      var id := first + n - 1;
      if next != Continue then (events, next)
      else (events + MessageEvents(id, stream[id], messages(id)), MessageNext(stream[id], messages(id)))
  }

  lemma {:induction false} EndedStaysEnded(
    stream: seq<Payload>, first: nat, k: nat, n: nat, messages: nat -> MessageFaults)
    requires k <= n && first + n <= |stream| && BatchEvents(stream, first, k, messages).1 != Continue
    ensures BatchEvents(stream, first, n, messages) == BatchEvents(stream, first, k, messages)
    decreases n
  {
    if k < n { EndedStaysEnded(stream, first, k, n - 1, messages); }
  }

  /** How many messages a read of at most it.count, and never more than 50, finds. */
  function Taken(it: Iteration, left: nat): nat {
    var n := if it.count < BATCH then it.count else BATCH;
    if n < left then n else left
  }

  function FlushSteps(r: Records, f: FlushFaults): seq<P.Step> {
    P.BatchSteps(RecordIds(r.nodes), r.dynamic, r.observed, f.tracedAt, f.confirmedAt)[..f.Effective()]
  }

  function FlushNext(f: FlushFaults): Next {
    if f.stage < 5 && f.ending.Cancelled? then Stop else Continue
  }

  /** The history and the graph after a turn, and where control goes. */
  datatype Outcome = Outcome(log: seq<Event>, graph: P.Graph, next: Next)

  function FlushOutcome(log: seq<Event>, g: P.Graph, f: FlushFaults): Outcome {
    if Unflushed(log).observed == [] then Outcome(log, g, Continue)
    else Outcome(log + [FlushAttempted], P.Run(g, FlushSteps(Unflushed(log), f)), FlushNext(f))
  }

  function TurnOutcome(stream: seq<Payload>, first: nat, log: seq<Event>, g: P.Graph, it: Iteration): Outcome
    requires first <= |stream|
  {
    var n := Taken(it, |stream| - first);
    if !it.read.ending.Fine? then Outcome(log, g, After(it.read.ending)) else
      var (events, next) := BatchEvents(stream, first, n, it.messages);
      if next != Continue || n == 0 then Outcome(log + events, g, next)
      else FlushOutcome(log + events, g, it.flush)
  }

  function CursorAfter(stream: seq<Payload>, first: nat, it: Iteration): (c: nat)
    requires first <= |stream|
    ensures first <= c <= |stream|
  {
    first + if it.read.Happened() then Taken(it, |stream| - first) else 0
  }

  /** Turn after turn; a loop error ends only its turn, a cancellation the run. */
  function RunOutcome(stream: seq<Payload>, first: nat, log: seq<Event>, g: P.Graph, turns: seq<Iteration>)
    : (r: (Outcome, nat))
    requires first <= |stream|
    ensures first <= r.1 <= |stream|
  {
    if turns == [] then (Outcome(log, g, Continue), first) else
      var (o, c) := RunOutcome(stream, first, log, g, turns[..|turns|-1]);
      if o.next == Stop then (o, c)
      else (TurnOutcome(stream, c, o.log, o.graph, turns[|turns|-1]), CursorAfter(stream, c, turns[|turns|-1]))
  }

  lemma {:induction false} StoppedStaysStopped(
    stream: seq<Payload>, first: nat, log: seq<Event>, g: P.Graph, turns: seq<Iteration>, k: nat)
    requires first <= |stream| && k <= |turns| && RunOutcome(stream, first, log, g, turns[..k]).0.next == Stop
    ensures RunOutcome(stream, first, log, g, turns) == RunOutcome(stream, first, log, g, turns[..k])
    decreases |turns|
  {
    hide TurnOutcome;
    if k < |turns| {
      var front := turns[..|turns|-1];
      assert front[..k] == turns[..k];
      StoppedStaysStopped(stream, first, log, g, front, k);
    } else {
      assert turns[..k] == turns;
    }
  }

  // ---- What the history says ----

  /** The message was handled at k, and no flush has been attempted since. */
  ghost predicate IsPending(log: seq<Event>, k: int) {
    0 <= k < |log| && log[k].Handled? && forall j :: k < j < |log| ==> !log[j].FlushAttempted?
  }

  ghost predicate ShownPending(log: seq<Event>, id: P.Id) {
    exists k :: IsPending(log, k) && Shows(log[k].path, id)
  }

  lemma ExtractedShows(p: ExecutionPath, id: P.Id)
    ensures id in ExtractRecords(p).observed <==> Shows(p, id)
  {
    if i :| 0 <= i < |p.calls| && p.calls[i].id == id { assert CallIds(p)[i] == id; }
  }

  lemma PendingMore(log: seq<Event>, k: int)
    requires log != [] && k < |log| - 1
    ensures IsPending(log, k) <==> IsPending(log[..|log|-1], k) && !log[|log|-1].FlushAttempted?
  {
    var front := log[..|log|-1];
    if IsPending(front, k) && !log[|log|-1].FlushAttempted? {
      forall j | k < j < |log| ensures !log[j].FlushAttempted? {
        if j < |front| { assert log[j] == front[j]; }
      }
    }
    if IsPending(log, k) {
      forall j | k < j < |front| ensures !front[j].FlushAttempted? { assert front[j] == log[j]; }
    }
  }

  /** A batch observes exactly the entrypoints and the calls of the messages handled since the last flush attempt. */
  lemma {:induction false} UnflushedShows(log: seq<Event>, id: P.Id)
    ensures id in Unflushed(log).observed <==> ShownPending(log, id)
  {
    if log != [] {
      var front, e := log[..|log|-1], log[|log|-1];
      UnflushedShows(front, id);
      hide Shows;
      forall k | 0 <= k < |front| ensures IsPending(log, k) <==> IsPending(front, k) && !e.FlushAttempted? {
        PendingMore(log, k);
      }
      if e.Handled? {
        assert IsPending(log, |front|);
        ExtractedShows(e.path, id);
        hide ExtractRecords;
      }
      if ShownPending(front, id) && !e.FlushAttempted? {
        var k :| IsPending(front, k) && Shows(front[k].path, id);
        assert IsPending(log, k);
      }
      if ShownPending(log, id) && !e.Handled? {
        var k :| IsPending(log, k) && Shows(log[k].path, id);
        assert IsPending(front, k);
      }
    }
  }

  /** All five queries take effect. */
  predicate IsComplete(f: FlushFaults) {
    f.ending.Fine? || f.stage >= 5 || (f.stage == 4 && f.took)
  }

  /**
   A completed flush disputes no call between two functions of one handled path, and confirms it when it was static
   and its caller was not indexed after the confirming time.
   */
  lemma HandledPathIsConfirmed(log: seq<Event>, k: nat, g: P.Graph, f: FlushFaults, e: P.Ends)
    requires IsPending(log, k) && Shows(log[k].path, e.caller) && Shows(log[k].path, e.callee)
    requires IsComplete(f) && e in g.edges
    ensures var g' := FlushOutcome(log, g, f).graph;
      && e in g'.edges && (g.edges[e].source != P.Conflict ==> g'.edges[e].source != P.Conflict)
      && (g.edges[e].source == P.Static && e.caller in g.nodes
          && (g.nodes[e.caller].updatedAt.Some? ==> g.nodes[e.caller].updatedAt.value <= f.confirmedAt) ==>
            g'.edges[e].source == P.Confirmed && g'.edges[e].confirmedAt == Some(f.confirmedAt))
  {
    var r := Unflushed(log);
    UnflushedShows(log, e.caller);
    UnflushedShows(log, e.callee);
    var traced := RecordIds(r.nodes);
    assert FlushSteps(r, f) == P.BatchSteps(traced, r.dynamic, r.observed, f.tracedAt, f.confirmedAt);
    hide P.Run;
    P.EdgesStay(g, traced, r.dynamic, r.observed, f.tracedAt, f.confirmedAt, e);
    if g.edges[e].source != P.Conflict {
      P.ObservedIsNotDisputed(g, traced, r.dynamic, r.observed, f.tracedAt, f.confirmedAt, e);
    }
    if g.edges[e].source == P.Static && e.caller in g.nodes
       && (g.nodes[e.caller].updatedAt.Some? ==> g.nodes[e.caller].updatedAt.value <= f.confirmedAt) {
      P.FreshConfirmationStands(g, traced, r.dynamic, r.observed, f.tracedAt, f.confirmedAt, e);
    }
  }

  /** What may follow the dead-letter write of a bad message, and where control goes then. */
  ghost predicate IsLettered(es: seq<Event>, next: Next, id: nat, f: MessageFaults) {
    var DeadEnd := (e: Ending) => if e.Cancelled? then Stop else LoopError;
    if !f.deadLetter.ending.Fine? then
      es == (if f.deadLetter.took then [DeadLettered(id)] else []) && next == DeadEnd(f.deadLetter.ending)
    else if !f.deadAck.ending.Fine? then
      es == [DeadLettered(id)] + (if f.deadAck.took then [Acked(id)] else []) && next == DeadEnd(f.deadAck.ending)
    else
      es == [DeadLettered(id), Acked(id)] && next == Continue
  }

  /**
   The fate of one message. A path that is handled and acknowledged is done; a bad message is dead-lettered and then
   acknowledged; any other failure leaves it as it is, and only a cancellation stops the loop.
   */
  lemma MessageFate(id: nat, payload: Payload, f: MessageFaults)
    ensures var es, next := MessageEvents(id, payload, f), MessageNext(payload, f);
      if !f.handle.Fine? && !f.handle.BadMessage? then
        es == [Handed(id)] && next == if f.handle.Cancelled? then Stop else Continue
      else if f.handle.BadMessage? || !payload.Path? then
        es[..1] == [Handed(id)] && IsLettered(es[1..], next, id, f)
      else if f.ack.ending.Fine? then
        es == [Handed(id), Handled(id, payload.path), Acked(id)] && next == Continue
      else
        var done := [Handed(id), Handled(id, payload.path)] + if f.ack.took then [Acked(id)] else [];
        if f.ack.ending.BadMessage? then
          |es| >= |done| && es[..|done|] == done && IsLettered(es[|done|..], next, id, f)
        else
          es == done && next == if f.ack.ending.Cancelled? then Stop else Continue
  {
  }

  /** The messages handed out, in order. */
  function HandedIds(log: seq<Event>): seq<nat> {
    if log == [] then [] else
      HandedIds(log[..|log|-1]) + if log[|log|-1].Handed? then [log[|log|-1].id] else []
  }

  function Interval(low: nat, high: nat): seq<nat>
    requires low <= high
  {
    seq(high - low, i requires 0 <= i < high - low => low + i)
  }

  lemma IntervalMore(low: nat, high: nat)
    requires low <= high
    ensures Interval(low, high + 1) == Interval(low, high) + [high]
  {
  }

  lemma IntervalsMeet(low: nat, mid: nat, high: nat)
    requires low <= mid <= high
    ensures Interval(low, mid) + Interval(mid, high) == Interval(low, high)
  {
  }

  lemma {:induction false} HandedIdsOfBoth(a: seq<Event>, b: seq<Event>)
    ensures HandedIds(a + b) == HandedIds(a) + HandedIds(b)
    decreases |b|
  {
    if b == [] {
      assert a + b == a;
    } else {
      HandedIdsOfBoth(a, b[..|b|-1]);
      assert (a + b)[..|a+b|-1] == a + b[..|b|-1];
    }
  }

  lemma NoneHanded(es: seq<Event>)
    requires forall k :: 0 <= k < |es| ==> !es[k].Handed?
    ensures HandedIds(es) == []
  {
  }

  lemma MessageHandsItself(id: nat, payload: Payload, f: MessageFaults)
    ensures HandedIds(MessageEvents(id, payload, f)) == [id]
  {
    var es := MessageEvents(id, payload, f);
    assert es == [Handed(id)] + es[1..];
    NoneHanded(es[1..]);
    HandedIdsOfBoth([Handed(id)], es[1..]);
  }

  lemma BatchMore(stream: seq<Payload>, first: nat, n: nat, messages: nat -> MessageFaults)
    requires 0 < n && first + n <= |stream|
    ensures var (events, next) := BatchEvents(stream, first, n - 1, messages);
      var id := first + n - 1;
      BatchEvents(stream, first, n, messages) ==
        if next != Continue then (events, next)
        else (events + MessageEvents(id, stream[id], messages(id)), MessageNext(stream[id], messages(id)))
  {
  }

  /** A batch hands its messages out in order, each once, up to the one that ends it. */
  lemma {:induction false} BatchHandsOut(stream: seq<Payload>, first: nat, n: nat, messages: nat -> MessageFaults)
    returns (m: nat)
    requires first + n <= |stream|
    ensures m <= n && HandedIds(BatchEvents(stream, first, n, messages).0) == Interval(first, first + m)
    ensures m < n ==> BatchEvents(stream, first, n, messages).1 != Continue
    decreases n
  {
    m := 0;
    if n == 0 {
      assert HandedIds([]) == Interval(first, first);
    } else {
      hide MessageEvents;
      hide MessageNext;
      hide HandedIds;
      hide Interval;
      m := BatchHandsOut(stream, first, n - 1, messages);
      BatchMore(stream, first, n, messages);
      hide BatchEvents;
      var (events, next) := BatchEvents(stream, first, n - 1, messages);
      if next == Continue {
        var id := first + n - 1;
        MessageHandsItself(id, stream[id], messages(id));
        HandedIdsOfBoth(events, MessageEvents(id, stream[id], messages(id)));
        IntervalMore(first, id);
        m := n;
      }
    }
  }

  predicate NoCancelIn(f: MessageFaults) {
    !f.handle.Cancelled? && !f.ack.ending.Cancelled? && !f.deadLetter.ending.Cancelled? && !f.deadAck.ending.Cancelled?
  }

  /** Nothing cancels the turn. */
  ghost predicate NoCancel(it: Iteration) {
    !it.read.ending.Cancelled? && !it.flush.ending.Cancelled? && forall id: nat :: NoCancelIn(it.messages(id))
  }

  /** No answer to a read is lost, and the dead-letter stream works. */
  ghost predicate NoLoss(it: Iteration) {
    && (it.read.took ==> it.read.ending.Fine?)
    && forall id: nat :: it.messages(id).deadLetter.ending.Fine? && it.messages(id).deadAck.ending.Fine?
  }

  lemma {:induction false} BatchNext(stream: seq<Payload>, first: nat, n: nat, it: Iteration)
    requires first + n <= |stream| && NoCancel(it)
    ensures var next := BatchEvents(stream, first, n, it.messages).1; next != Stop && (NoLoss(it) ==> next == Continue)
    decreases n
  {
    if n > 0 {
      BatchNext(stream, first, n - 1, it);
      assert NoCancelIn(it.messages(first + n - 1));
    }
  }

  lemma FlushHandsNothingOut(log: seq<Event>, g: P.Graph, f: FlushFaults)
    ensures var o := FlushOutcome(log, g, f);
      HandedIds(o.log) == HandedIds(log) && (!f.ending.Cancelled? ==> o.next == Continue)
  {
    hide HandedIds;
    NoneHanded([FlushAttempted]);
    HandedIdsOfBoth(log, [FlushAttempted]);
  }

  lemma TurnHandsOut(stream: seq<Payload>, first: nat, log: seq<Event>, g: P.Graph, it: Iteration)
    requires first <= |stream| && NoCancel(it)
    ensures var o, c := TurnOutcome(stream, first, log, g, it), CursorAfter(stream, first, it);
      o.next != Stop && (NoLoss(it) ==> HandedIds(o.log) == HandedIds(log) + Interval(first, c))
  {
    hide BatchEvents;
    var n := Taken(it, |stream| - first);
    BatchNext(stream, first, n, it);
    assert !it.read.ending.Cancelled? && !it.flush.ending.Cancelled?;
    assert NoLoss(it) && it.read.took ==> it.read.ending.Fine?;
    hide NoCancel;
    hide NoLoss;
    hide Taken;
    assert HandedIds(log) + Interval(first, first) == HandedIds(log);
    hide Interval;
    hide HandedIds;
    if it.read.ending.Fine? {
      var m := BatchHandsOut(stream, first, n, it.messages);
      var (events, next) := BatchEvents(stream, first, n, it.messages);
      HandedIdsOfBoth(log, events);
      FlushHandsNothingOut(log + events, g, it.flush);
      hide FlushOutcome;
    }
  }

  /** How many turns read successfully, asking for at least one message. */
  function Reads(turns: seq<Iteration>): nat {
    if turns == [] then 0 else
      Reads(turns[..|turns|-1])
      + if turns[|turns|-1].read.ending.Fine? && turns[|turns|-1].count > 0 then 1 else 0
  }

  /**
   Unless it is cancelled the loop goes on, whatever else fails: enough turns reach the end of the stream. When no
   answer to a read is lost and the dead-letter stream works, each message on the way is handed out, in order, once.
   */
  lemma {:induction false} TheLoopGoesOn(
    stream: seq<Payload>, first: nat, log: seq<Event>, g: P.Graph, turns: seq<Iteration>)
    requires first <= |stream| && forall i :: 0 <= i < |turns| ==> NoCancel(turns[i])
    ensures var (o, c) := RunOutcome(stream, first, log, g, turns);
      && o.next != Stop && (c == |stream| || c >= first + Reads(turns))
      && ((forall i :: 0 <= i < |turns| ==> NoLoss(turns[i])) ==>
            HandedIds(o.log) == HandedIds(log) + Interval(first, c))
  {
    hide TurnOutcome;
    hide NoCancel;
    hide NoLoss;
    hide HandedIds;
    if turns != [] {
      var front, it := turns[..|turns|-1], turns[|turns|-1];
      assert NoCancel(it) && forall i :: 0 <= i < |front| ==> NoCancel(front[i]) by {
        forall i | 0 <= i < |front| ensures NoCancel(front[i]) { assert front[i] == turns[i]; }
      }
      TheLoopGoesOn(stream, first, log, g, front);
      var (o, c) := RunOutcome(stream, first, log, g, front);
      TurnHandsOut(stream, c, o.log, o.graph, it);
      IntervalsMeet(first, c, CursorAfter(stream, c, it));
    }
  }

  /** A turn that hands anything out to its end leaves nothing unflushed; one that cannot read changes nothing. */
  lemma TurnFlushes(stream: seq<Payload>, first: nat, log: seq<Event>, g: P.Graph, it: Iteration)
    requires first <= |stream|
    ensures var o := TurnOutcome(stream, first, log, g, it);
      && (!it.read.ending.Fine? ==>
            o.log == log && o.graph == g && o.next == if it.read.ending.Cancelled? then Stop else LoopError)
      && (it.read.ending.Fine? && it.count > 0 && first < |stream| && NoCancel(it) && NoLoss(it) ==>
            Unflushed(o.log).observed == [] && o.next == Continue)
  {
    hide BatchEvents;
    if NoCancel(it) { BatchNext(stream, first, Taken(it, |stream| - first), it); }
  }

  class EnricherConsumer {
    const store: P.GraphStore
    var nodeRecords: seq<Record>
    var dynamicEdges: seq<P.Observed>
    var observedIds: seq<P.Id>
    /** The next message the group has never been given. */
    var cursor: nat
    ghost var log: seq<Event>

    function Buffers(): Records
      reads this
    {
      Records(nodeRecords, dynamicEdges, observedIds)
    }

    ghost predicate Inv(bound: nat)
      reads this, store
    {
      && AckSafe(log) && HandedOnce(log, bound)
      && Buffers() == Unflushed(log) && Telling(Buffers())
      && P.Inv(store.Value())
    }

    constructor (store: P.GraphStore)
      requires P.Inv(store.Value())
      ensures Inv(0) && cursor == 0 && log == [] && this.store == store
    {
      this.store := store;
      nodeRecords, dynamicEdges, observedIds, cursor, log := [], [], [], 0, [];
    }

    /** Extends the three buffers, or raises before touching them. */
    method Handle(payload: Payload, fault: Ending) returns (ending: Ending)
      modifies this`nodeRecords, this`dynamicEdges, this`observedIds
      ensures ending == AfterHandle(payload, fault)
      ensures ending == if !fault.Fine? then fault else if payload.Path? then Fine else BadMessage
      ensures ending.Fine? ==>
        && old(nodeRecords) <= nodeRecords && old(dynamicEdges) <= dynamicEdges && old(observedIds) <= observedIds
        && Tells(payload.path, nodeRecords[|old(nodeRecords)|..], dynamicEdges[|old(dynamicEdges)|..],
             observedIds[|old(observedIds)|..])
      ensures Buffers() == if ending.Fine? then Join(old(Buffers()), ExtractRecords(payload.path)) else old(Buffers())
    {
      if !fault.Fine? {
        return fault;
      }
      if !payload.Path? {
        return BadMessage;
      }
      var r := ExtractRecords(payload.path);
      ExtractedTells(payload.path);
      hide Tells;
      assert (nodeRecords + r.nodes)[|nodeRecords|..] == r.nodes;
      assert (dynamicEdges + r.dynamic)[|dynamicEdges|..] == r.dynamic;
      assert (observedIds + r.observed)[|observedIds|..] == r.observed;
      nodeRecords := nodeRecords + r.nodes;
      dynamicEdges := dynamicEdges + r.dynamic;
      observedIds := observedIds + r.observed;
      return Fine;
    }

    /** Notes an event that leaves the buffers alone. */
    ghost method Log(e: Event, bound: nat)
      requires e.Handed? || e.DeadLettered? || e.Acked?
      requires Inv(if e.Handed? then e.id else bound)
      requires e.Acked? ==> Settled(log, |log|, e.id)
      requires e.Handed? ==> bound == e.id + 1
      modifies this`log
      ensures log == old(log) + [e]
      ensures Inv(bound)
    {
      AckSafeMore(log, e);
      UnflushedMore(log, e);
      HandedMore(log, e, if e.Handed? then e.id else bound, bound);
      log := log + [e];
    }

    /** Notes that a message was handled, its records being in the buffers already. */
    ghost method LogHandled(id: nat, path: ExecutionPath, bound: nat, before: Records)
      requires AckSafe(log) && HandedOnce(log, bound) && P.Inv(store.Value())
      requires before == Unflushed(log) && Telling(before) && Buffers() == Join(before, ExtractRecords(path))
      modifies this`log
      ensures log == old(log) + [Handled(id, path)]
      ensures Inv(bound) && Settled(log, |log|, id)
    {
      var e := Handled(id, path);
      ExtractedIsTelling(before, path);
      AckSafeMore(log, e);
      UnflushedMore(log, e);
      HandedMore(log, e, bound, bound);
      SettledByLast(log, e, id);
      log := log + [e];
    }

    /** The handler for a bad message: dead-letter it, then acknowledge it. An exception here leaves the batch. */
    method DeadLetter(id: nat, f: MessageFaults, ghost bound: nat) returns (next: Next)
      requires Inv(bound)
      modifies this`log
      ensures Inv(bound) && log == old(log) + DeadLetterEvents(id, f)
      ensures next == After(if f.deadLetter.ending.Fine? then f.deadAck.ending else f.deadLetter.ending)
    {
      hide Inv;
      if f.deadLetter.Happened() {
        SettledByLast(log, DeadLettered(id), id);
        Log(DeadLettered(id), bound);
      }
      if !f.deadLetter.ending.Fine? {
        return After(f.deadLetter.ending);
      }
      if f.deadAck.Happened() {
        Log(Acked(id), bound);
      }
      return After(f.deadAck.ending);
    }

    /** One message: handle and acknowledge; a bad one goes to the dead-letter queue first. */
    method ConsumeOne(id: nat, payload: Payload, f: MessageFaults) returns (next: Next)
      requires Inv(id)
      modifies this
      ensures Inv(id + 1) && cursor == old(cursor) && store.Value() == old(store.Value())
      ensures log == old(log) + MessageEvents(id, payload, f) && next == MessageNext(payload, f)
    {
      hide AckSafe;
      hide HandedOnce;
      hide Settled;
      hide Unflushed;
      hide Telling;
      hide P.Inv;
      hide ExtractRecords;
      hide Join;
      Log(Handed(id), id + 1);
      ghost var before := Buffers();
      var ending := Handle(payload, f.handle);
      if ending.Fine? {
        LogHandled(id, payload.path, id + 1, before);
        if f.ack.Happened() {
          Log(Acked(id), id + 1);
        }
        ending := f.ack.ending;
      }
      match ending
      case Fine => return Continue;
      case Cancelled => return Stop;
      case Failed => return Continue;
      case BadMessage =>
        next := DeadLetter(id, f, id + 1);
    }

    /** Writes the batch; whatever happens, the buffers are empty afterwards. */
    method PostBatch(f: FlushFaults, ghost bound: nat) returns (next: Next)
      requires Inv(bound)
      modifies this, store
      ensures Inv(bound) && cursor == old(cursor)
      ensures Buffers() == Records([], [], [])
      ensures Outcome(log, store.Value(), next) == FlushOutcome(old(log), old(store.Value()), f)
      ensures old(observedIds) != [] ==>
        var done := if f.ending.Fine? || f.stage >= 5 then 5 else if f.took then f.stage + 1 else f.stage;
        store.Value() == P.Run(old(store.Value()), P.BatchSteps(
          RecordIds(old(nodeRecords)), old(dynamicEdges), old(observedIds), f.tracedAt, f.confirmedAt)[..done])
    {
      if observedIds == [] {
        return Continue;
      }
      ghost var steps := P.BatchSteps(RecordIds(nodeRecords), dynamicEdges, observedIds, f.tracedAt, f.confirmedAt);
      ghost var before := store.Value();
      var last := f.Effective();
      RunQueries(last, f.tracedAt, f.confirmedAt);
      PrefixKeepsInv(before, steps, last);
      AckSafeMore(log, FlushAttempted);
      UnflushedMore(log, FlushAttempted);
      HandedMore(log, FlushAttempted, bound, bound);
      log := log + [FlushAttempted];
      nodeRecords, dynamicEdges, observedIds := [], [], [];
      hide P.Inv;
      hide P.Run;
      return if f.stage < 5 && f.ending.Cancelled? then Stop else Continue;
    }

    /** The effects of the first last of the batch's five queries. */
    method RunQueries(last: nat, tracedAt: real, confirmedAt: real)
      requires last <= 5
      modifies store
      ensures store.Value() == P.Run(old(store.Value()),
        P.BatchSteps(RecordIds(nodeRecords), dynamicEdges, observedIds, tracedAt, confirmedAt)[..last])
    {
      ghost var steps := P.BatchSteps(RecordIds(nodeRecords), dynamicEdges, observedIds, tracedAt, confirmedAt);
      ghost var before := store.Value();
      hide P.Apply;
      hide P.Run;
      NoSteps(before, steps);
      if last > 0 { StepOn(before, steps, 0); store.UpdateNodeProps(RecordIds(nodeRecords), tracedAt); }
      if last > 1 { StepOn(before, steps, 1); store.UpsertDynamicEdges(dynamicEdges); }
      if last > 2 { StepOn(before, steps, 2); store.ConfirmStaticEdges(observedIds, confirmedAt); }
      if last > 3 { StepOn(before, steps, 3); store.RunConflictDetector(); }
      if last > 4 { StepOn(before, steps, 4); store.RunStalenessDowngrade(); }
    }

    /** One turn of the endless loop: read up to 50 new messages, consume them, flush. */
    method Turn(stream: seq<Payload>, it: Iteration) returns (next: Next)
      requires Inv(cursor) && cursor <= |stream|
      modifies this, store
      ensures Inv(cursor) && cursor <= |stream|
      ensures cursor == CursorAfter(stream, old(cursor), it)
      ensures var left := |stream| - old(cursor);
        cursor - old(cursor) ==
        if !it.read.ending.Fine? && !it.read.took then 0
        else if it.count <= 50 && it.count <= left then it.count
        else if left <= 50 then left else 50
      ensures Outcome(log, store.Value(), next) == TurnOutcome(stream, old(cursor), old(log), old(store.Value()), it)
    {
      hide AckSafe;
      hide HandedOnce;
      hide Telling;
      hide Unflushed;
      hide P.Inv;
      hide MessageEvents;
      hide MessageNext;
      hide FlushOutcome;
      var n := Taken(it, |stream| - cursor);
      var first := cursor;
      HandedBelow(log, first, first + n);
      if it.read.Happened() {
        cursor := cursor + n;
      }
      if !it.read.ending.Fine? {
        return After(it.read.ending);
      }
      var hadEvents := false;
      for i := 0 to n
        invariant cursor == first + n && first == old(cursor) && store.Value() == old(store.Value())
        invariant Inv(first + i) && hadEvents == (i > 0)
        invariant BatchEvents(stream, first, i, it.messages).1 == Continue
        invariant log == old(log) + BatchEvents(stream, first, i, it.messages).0
      {
        hadEvents := true;
        var r := ConsumeOne(first + i, stream[first + i], it.messages(first + i));
        if r != Continue {
          EndedStaysEnded(stream, first, i + 1, n, it.messages);
          HandedBelow(log, first + i + 1, cursor);
          return r;
        }
      }
      if hadEvents {
        next := PostBatch(it.flush, cursor);
      } else {
        next := Continue;
      }
    }

    /** Any number of turns from the start of the stream. */
    method Run(stream: seq<Payload>, turns: seq<Iteration>)
      requires Inv(cursor) && cursor <= |stream|
      modifies this, store
      ensures Inv(cursor) && cursor <= |stream|
      ensures var r := RunOutcome(stream, old(cursor), old(log), old(store.Value()), turns);
        log == r.0.log && store.Value() == r.0.graph && cursor == r.1
    {
      hide TurnOutcome;
      hide CursorAfter;
      hide Inv;
      ghost var first, before, graph := cursor, log, store.Value();
      var next := Continue;
      for i := 0 to |turns|
        invariant Inv(cursor) && cursor <= |stream| && next != Stop
        invariant RunOutcome(stream, first, before, graph, turns[..i]).1 == cursor
        invariant var o := RunOutcome(stream, first, before, graph, turns[..i]).0;
          o.log == log && o.graph == store.Value() && o.next == next
      {
        assert turns[..i+1][..i] == turns[..i];
        next := Turn(stream, turns[i]);
        if next == Stop {
          StoppedStaysStopped(stream, first, before, graph, turns, i + 1);
          return;
        }
      }
      assert turns[..|turns|] == turns;
    }
  }

  lemma NoSteps(g: P.Graph, steps: seq<P.Step>)
    ensures P.Run(g, steps[..0]) == g
  {
  }

  lemma StepOn(g: P.Graph, steps: seq<P.Step>, k: nat)
    requires k < |steps|
    ensures P.Run(g, steps[..k+1]) == P.Apply(P.Run(g, steps[..k]), steps[k])
  {
    assert steps[..k+1] == steps[..k] + [steps[k]];
    P.RunMore(g, steps[..k], steps[k]);
  }

  lemma {:induction false} PrefixKeepsInv(g: P.Graph, steps: seq<P.Step>, k: nat)
    requires P.Inv(g) && k <= |steps| && forall i :: 0 <= i < |steps| ==> P.Admissible(steps[i])
    ensures P.Inv(P.Run(g, steps[..k]))
  {
    hide P.Apply;
    hide P.Inv;
    if k > 0 {
      PrefixKeepsInv(g, steps, k - 1);
      assert steps[..k] == steps[..k-1] + [steps[k-1]];
      P.RunMore(g, steps[..k-1], steps[k-1]);
      P.StepKeepsInv(P.Run(g, steps[..k-1]), steps[k-1]);
    } else {
      assert steps[..0] == [];
    }
  }
}
