/**
 Where a CALLS edge is known from: a state machine driven by two services. The graph writer re-indexes statically, the
 enricher confirms, adds, disputes and downgrades from traces. A Cypher query is one step on the whole graph; a
 comparison with a missing property is false.
 */
module Provenance {
  import opened Options

  type Id = string

  datatype Source = Static | Dynamic | Confirmed | Conflict

  datatype NodeProps = NodeProps(observedCalls: Option<int>, lastTraced: Option<real>, updatedAt: Option<real>)

  datatype EdgeProps = EdgeProps(source: Source, observedCount: Option<int>, confirmedAt: Option<real>)

  /** A caller and a callee. */
  datatype Ends = Ends(caller: Id, callee: Id)

  datatype Observed = Observed(ends: Ends, count: int)

  datatype Graph = Graph(nodes: map<Id, NodeProps>, edges: map<Ends, EdgeProps>)

  function Coalesce(x: Option<int>): int {
    if x.Some? then x.value else 0
  }

  /** How often id occurs: a list unwinds into one row per occurrence. */
  function Rows(ids: seq<Id>, id: Id): nat {
    multiset(ids)[id]
  }

  predicate Later(a: Option<real>, b: Option<real>) {
    a.Some? && b.Some? && a.value > b.value
  }

  // ---- The graph writer's queries ----

  function UpsertNodes(g: Graph, ids: seq<Id>, at: real): Graph {
    if ids == [] then g else
      var front, id := UpsertNodes(g, ids[..|ids|-1], at), ids[|ids|-1];
      var props := if id in front.nodes then front.nodes[id] else NodeProps(None, None, None);
      front.(nodes := front.nodes[id := props.(updatedAt := Some(at))])
  }

  /** Re-indexing a call makes its edge static and keeps its other properties. */
  function UpsertEdges(g: Graph, rows: seq<Ends>): Graph {
    if rows == [] then g else
      var front, e := UpsertEdges(g, rows[..|rows|-1]), rows[|rows|-1];
      if e.caller !in front.nodes || e.callee !in front.nodes then front
      else
        var props := if e in front.edges then front.edges[e] else EdgeProps(Static, None, None);
        front.(edges := front.edges[e := props.(source := Static)])
  }

  // ---- The enricher's queries ----

  /** The node after count rows about it. */
  function Traced(props: NodeProps, count: int, at: real): NodeProps {
    props.(observedCalls := Some(Coalesce(props.observedCalls) + count), lastTraced := Some(at))
  }

  function TraceNodes(g: Graph, ids: seq<Id>, at: real): Graph {
    g.(nodes := map id | id in g.nodes ::
         if id !in ids then g.nodes[id] else Traced(g.nodes[id], Rows(ids, id), at))
  }

  function Sighted(props: EdgeProps, count: int): EdgeProps {
    props.(observedCount := Some(Coalesce(props.observedCount) + count))
  }

  /** A sighting counts on any edge, and creates a dynamic one where there was none. */
  function UpsertDynamic(g: Graph, rows: seq<Observed>): Graph {
    if rows == [] then g else
      var front, r := UpsertDynamic(g, rows[..|rows|-1]), rows[|rows|-1];
      var e := r.ends;
      if e.caller !in front.nodes || e.callee !in front.nodes then front
      else
        var props := if e in front.edges then front.edges[e] else EdgeProps(Dynamic, None, None);
        front.(edges := front.edges[e := Sighted(props, r.count)])
  }

  predicate IsConfirmable(e: Ends, props: EdgeProps, ids: seq<Id>) {
    props.source == Static && e.caller in ids && e.callee in ids
  }

  /** The edge after count rows confirmed it. */
  function AsConfirmed(props: EdgeProps, count: int, at: real): EdgeProps {
    Sighted(props, count).(source := Confirmed, confirmedAt := Some(at))
  }

  function Confirm(g: Graph, ids: seq<Id>, at: real): Graph {
    g.(edges := map e | e in g.edges ::
         if IsConfirmable(e, g.edges[e], ids)
         then AsConfirmed(g.edges[e], Rows(ids, e.caller), at)
         else g.edges[e])
  }

  predicate IsTraced(g: Graph, id: Id) {
    id in g.nodes && g.nodes[id].lastTraced.Some?
  }

  /** A static edge that no trace has ever shown although its caller was traced. */
  predicate IsDoubtful(g: Graph, e: Ends)
    requires e in g.edges
  {
    g.edges[e].source == Static && g.edges[e].observedCount == None && IsTraced(g, e.caller)
  }

  function DetectConflicts(g: Graph): Graph {
    g.(edges := map e | e in g.edges ::
         if IsDoubtful(g, e) then g.edges[e].(source := Conflict) else g.edges[e])
  }

  /** A confirmed edge whose caller was re-indexed after the confirmation. */
  predicate IsStale(g: Graph, e: Ends)
    requires e in g.edges
  {
    && g.edges[e].source == Confirmed && e.caller in g.nodes
    && Later(g.nodes[e.caller].updatedAt, g.edges[e].confirmedAt)
  }

  function Downgrade(g: Graph): Graph {
    g.(edges := map e | e in g.edges ::
         if IsStale(g, e) then EdgeProps(Static, None, None) else g.edges[e])
  }

  // ---- The machine ----

  datatype Step =
    | DoUpsertNodes(ids: seq<Id>, at: real)
    | DoUpsertEdges(rows: seq<Ends>)
    | DoTraceNodes(ids: seq<Id>, at: real)
    | DoUpsertDynamic(seen: seq<Observed>)
    | DoConfirm(ids: seq<Id>, at: real)
    | DoDetectConflicts
    | DoDowngrade
    | DoDeleteEdges(gone: set<Ends>)

  function Apply(g: Graph, s: Step): Graph {
    match s
    case DoUpsertNodes(ids, at) => UpsertNodes(g, ids, at)
    case DoUpsertEdges(rows) => UpsertEdges(g, rows)
    case DoTraceNodes(ids, at) => TraceNodes(g, ids, at)
    case DoUpsertDynamic(seen) => UpsertDynamic(g, seen)
    case DoConfirm(ids, at) => Confirm(g, ids, at)
    case DoDetectConflicts => DetectConflicts(g)
    case DoDowngrade => Downgrade(g)
    case DoDeleteEdges(gone) => g.(edges := g.edges - gone)
  }

  function Run(g: Graph, steps: seq<Step>): Graph {
    if steps == [] then g else Apply(Run(g, steps[..|steps|-1]), steps[|steps|-1])
  }

  /** Sightings carry positive counts; the enricher always passes 1. */
  ghost predicate Admissible(s: Step) {
    s.DoUpsertDynamic? ==> forall i :: 0 <= i < |s.seen| ==> s.seen[i].count >= 1
  }

  ghost predicate EdgeOk(g: Graph, e: Ends, props: EdgeProps) {
    && e.caller in g.nodes && e.callee in g.nodes
    && (props.observedCount.Some? ==> props.observedCount.value >= 1)
    && (props.source == Confirmed ==> props.confirmedAt.Some? && props.observedCount.Some?)
    && (props.source == Dynamic ==> props.observedCount.Some?)
    && (props.source == Conflict ==> IsTraced(g, e.caller))
  }

  ghost predicate Inv(g: Graph) {
    forall e :: e in g.edges ==> EdgeOk(g, e, g.edges[e])
  }

  /** Nodes are kept and stay traced. */
  ghost predicate KeepsNodes(g: Graph, g': Graph) {
    forall id :: id in g.nodes ==> id in g'.nodes && (IsTraced(g, id) ==> IsTraced(g', id))
  }

  lemma EdgeStaysOk(g: Graph, g': Graph, e: Ends, props: EdgeProps)
    requires KeepsNodes(g, g') && EdgeOk(g, e, props)
    ensures EdgeOk(g', e, props)
  {
  }

  lemma {:induction false} UpsertNodesKeeps(g: Graph, ids: seq<Id>, at: real)
    ensures KeepsNodes(g, UpsertNodes(g, ids, at)) && UpsertNodes(g, ids, at).edges == g.edges
  {
    if ids != [] { UpsertNodesKeeps(g, ids[..|ids|-1], at); }
  }

  lemma {:induction false} UpsertEdgesKeepsInv(g: Graph, rows: seq<Ends>)
    requires Inv(g)
    ensures Inv(UpsertEdges(g, rows)) && UpsertEdges(g, rows).nodes == g.nodes
  {
    if rows != [] { UpsertEdgesKeepsInv(g, rows[..|rows|-1]); }
  }

  lemma {:induction false} UpsertDynamicKeepsInv(g: Graph, seen: seq<Observed>)
    requires Inv(g) && forall i :: 0 <= i < |seen| ==> seen[i].count >= 1
    ensures Inv(UpsertDynamic(g, seen)) && UpsertDynamic(g, seen).nodes == g.nodes
  {
    if seen != [] { UpsertDynamicKeepsInv(g, seen[..|seen|-1]); }
  }

  lemma ConfirmKeepsInv(g: Graph, ids: seq<Id>, at: real)
    requires Inv(g)
    ensures Inv(Confirm(g, ids, at))
  {
  }

  lemma StepKeepsInv(g: Graph, s: Step)
    requires Inv(g) && Admissible(s)
    ensures Inv(Apply(g, s))
  {
    var g' := Apply(g, s);
    match s
    case DoUpsertNodes(ids, at) =>
      UpsertNodesKeeps(g, ids, at);
      forall e | e in g'.edges ensures EdgeOk(g', e, g'.edges[e]) { EdgeStaysOk(g, g', e, g.edges[e]); }
    case DoUpsertEdges(rows) => UpsertEdgesKeepsInv(g, rows);
    case DoTraceNodes(ids, at) =>
      forall e | e in g'.edges ensures EdgeOk(g', e, g'.edges[e]) { EdgeStaysOk(g, g', e, g.edges[e]); }
    case DoUpsertDynamic(seen) => UpsertDynamicKeepsInv(g, seen);
    case DoConfirm(ids, at) => ConfirmKeepsInv(g, ids, at);
    case DoDetectConflicts =>
      forall e | e in g'.edges ensures EdgeOk(g', e, g'.edges[e]) { assert EdgeOk(g, e, g.edges[e]); }
    case DoDowngrade =>
      forall e | e in g'.edges ensures EdgeOk(g', e, g'.edges[e]) { assert EdgeOk(g, e, g.edges[e]); }
    case DoDeleteEdges(gone) =>
  }

  /** Whatever the interleaving of both services' steps, edges only carry sources their other properties support. */
  lemma {:induction false} RunKeepsInv(steps: seq<Step>)
    requires forall i :: 0 <= i < |steps| ==> Admissible(steps[i])
    ensures Inv(Run(Graph(map[], map[]), steps))
  {
    if steps != [] {
      RunKeepsInv(steps[..|steps|-1]);
      StepKeepsInv(Run(Graph(map[], map[]), steps[..|steps|-1]), steps[|steps|-1]);
    }
  }

  // ---- What each query does, property by property ----

  function ValueOr0(x: Option<int>): int {
    match x
    case None => 0
    case Some(v) => v
  }

  /** Indexing creates missing nodes and stamps the listed ones; what traces wrote stays. */
  lemma {:induction false} IndexedNodes(g: Graph, ids: seq<Id>, at: real)
    ensures var g' := Apply(g, DoUpsertNodes(ids, at));
      && g'.edges == g.edges && (forall x :: x in g'.nodes <==> x in g.nodes || x in ids)
      && (forall x :: x in g.nodes && x !in ids ==> g'.nodes[x] == g.nodes[x])
      && (forall x :: x in ids ==>
            g'.nodes[x] ==
            if x in g.nodes then NodeProps(g.nodes[x].observedCalls, g.nodes[x].lastTraced, Some(at))
            else NodeProps(None, None, Some(at)))
  {
    if ids != [] {
      IndexedNodes(g, ids[..|ids|-1], at);
    }
  }

  /** Indexing calls makes the edges between existing nodes static, new or not, and touches nothing else. */
  lemma {:induction false} IndexedEdges(g: Graph, rows: seq<Ends>)
    ensures var g' := Apply(g, DoUpsertEdges(rows));
      && g'.nodes == g.nodes
      && (forall e :: e in g'.edges <==> e in g.edges || (e in rows && e.caller in g.nodes && e.callee in g.nodes))
      && (forall e :: e in g'.edges ==>
            g'.edges[e] ==
            if e !in rows || e.caller !in g.nodes || e.callee !in g.nodes then g.edges[e]
            else if e in g.edges then EdgeProps(Static, g.edges[e].observedCount, g.edges[e].confirmedAt)
            else EdgeProps(Static, None, None))
  {
    if rows != [] {
      IndexedEdges(g, rows[..|rows|-1]);
    }
  }

  /** A traced node that exists counts one call for each time it is listed, and is stamped; nothing else changes. */
  lemma TracedNodes(g: Graph, ids: seq<Id>, at: real)
    ensures var g' := Apply(g, DoTraceNodes(ids, at));
      && g'.edges == g.edges && g'.nodes.Keys == g.nodes.Keys
      && (forall x :: x in g.nodes && x !in ids ==> g'.nodes[x] == g.nodes[x])
      && (forall x :: x in g.nodes && x in ids ==>
            g'.nodes[x] ==
            NodeProps(Some(ValueOr0(g.nodes[x].observedCalls) + multiset(ids)[x]), Some(at), g.nodes[x].updatedAt))
  {
  }

  /** The sightings of one edge, added up. */
  function Sightings(seen: seq<Observed>, e: Ends): int {
    if seen == [] then 0 else
      Sightings(seen[..|seen|-1], e) + if seen[|seen|-1].ends == e then seen[|seen|-1].count else 0
  }

  predicate IsSeen(seen: seq<Observed>, e: Ends) {
    exists i :: 0 <= i < |seen| && seen[i].ends == e
  }

  lemma SeenMore(seen: seq<Observed>, e: Ends)
    requires seen != []
    ensures IsSeen(seen, e) <==> IsSeen(seen[..|seen|-1], e) || seen[|seen|-1].ends == e
  {
    var front := seen[..|seen|-1];
    if i :| 0 <= i < |front| && front[i].ends == e { assert seen[i].ends == e; }
  }

  /** Sightings add up on the edges between existing nodes; an edge first seen this way is dynamic. */
  lemma {:induction false} SeenEdge(g: Graph, seen: seq<Observed>, e: Ends)
    ensures var g' := Apply(g, DoUpsertDynamic(seen));
      && g'.nodes == g.nodes
      && (e in g'.edges <==> e in g.edges || (IsSeen(seen, e) && e.caller in g.nodes && e.callee in g.nodes))
      && (e in g'.edges ==>
            g'.edges[e] ==
            if !IsSeen(seen, e) || e.caller !in g.nodes || e.callee !in g.nodes then g.edges[e]
            else if e in g.edges then
              var EdgeProps(source, count, confirmed) := g.edges[e];
              EdgeProps(source, Some(ValueOr0(count) + Sightings(seen, e)), confirmed)
            else EdgeProps(Dynamic, Some(Sightings(seen, e)), None))
    decreases |seen|
  {
    if seen != [] {
      SeenEdge(g, seen[..|seen|-1], e);
      SeenMore(seen, e);
      if !IsSeen(seen[..|seen|-1], e) { UnseenCountsNothing(seen[..|seen|-1], e); }
      hide IsSeen;
    } else {
      assert !IsSeen(seen, e);
    }
  }

  lemma {:induction false} UnseenCountsNothing(seen: seq<Observed>, e: Ends)
    requires !IsSeen(seen, e)
    ensures Sightings(seen, e) == 0
  {
    if seen != [] {
      SeenMore(seen, e);
      UnseenCountsNothing(seen[..|seen|-1], e);
    }
  }

  /** Exactly the static edges with both ends observed are confirmed, with one sighting an occurrence of the caller. */
  lemma ConfirmedEdges(g: Graph, ids: seq<Id>, at: real)
    ensures var g' := Apply(g, DoConfirm(ids, at));
      && g'.nodes == g.nodes && g'.edges.Keys == g.edges.Keys
      && (forall e :: e in g.edges ==>
            g'.edges[e] ==
            if g.edges[e].source == Static && e.caller in ids && e.callee in ids
            then EdgeProps(Confirmed, Some(ValueOr0(g.edges[e].observedCount) + multiset(ids)[e.caller]), Some(at))
            else g.edges[e])
  {
  }

  /** Exactly the static edges without a sighting whose caller was traced become conflicts. */
  lemma DisputedEdges(g: Graph)
    ensures var g' := Apply(g, DoDetectConflicts);
      && g'.nodes == g.nodes && g'.edges.Keys == g.edges.Keys
      && (forall e :: e in g.edges ==>
            g'.edges[e] ==
            var EdgeProps(source, count, confirmed) := g.edges[e];
            if source == Static && count == None && e.caller in g.nodes && g.nodes[e.caller].lastTraced != None
            then EdgeProps(Conflict, None, confirmed) else g.edges[e])
  {
  }

  /** The caller was indexed after the edge was confirmed; a missing time never counts. */
  predicate IndexedSince(g: Graph, e: Ends)
    requires e in g.edges
  {
    && e.caller in g.nodes && g.nodes[e.caller].updatedAt.Some? && g.edges[e].confirmedAt.Some?
    && g.nodes[e.caller].updatedAt.value > g.edges[e].confirmedAt.value
  }

  /** Exactly the confirmed edges whose caller was indexed since lose their confirmation and their count. */
  lemma DowngradedEdges(g: Graph)
    ensures var g' := Apply(g, DoDowngrade);
      && g'.nodes == g.nodes && g'.edges.Keys == g.edges.Keys
      && (forall e :: e in g.edges ==>
            g'.edges[e] ==
            if g.edges[e].source == Confirmed && IndexedSince(g, e) then EdgeProps(Static, None, None) else g.edges[e])
      && (forall e :: e in g'.edges && g'.edges[e].source == Confirmed ==> !IndexedSince(g', e))
  {
  }

  // ---- Conflicts ----

  lemma {:induction false} UpsertEdgesElsewhere(g: Graph, rows: seq<Ends>, e: Ends)
    requires e in g.edges
    ensures e in UpsertEdges(g, rows).edges
    ensures UpsertEdges(g, rows).edges[e]
         == if e in rows && e.caller in g.nodes && e.callee in g.nodes then g.edges[e].(source := Static)
            else g.edges[e]
    ensures UpsertEdges(g, rows).nodes == g.nodes
  {
    if rows != [] { UpsertEdgesElsewhere(g, rows[..|rows|-1], e); }
  }

  lemma {:induction false} SightingKeepsSource(g: Graph, seen: seq<Observed>, e: Ends)
    requires e in g.edges
    ensures e in UpsertDynamic(g, seen).edges && UpsertDynamic(g, seen).edges[e].source == g.edges[e].source
    ensures UpsertDynamic(g, seen).edges[e].confirmedAt == g.edges[e].confirmedAt
    ensures UpsertDynamic(g, seen).nodes == g.nodes
  {
    if seen != [] { SightingKeepsSource(g, seen[..|seen|-1], e); }
  }

  /** A conflict ends only by re-indexing that very call or by deleting the edge; no observation lifts it. */
  lemma ConflictEndsOnlyStatically(g: Graph, s: Step, e: Ends)
    requires Inv(g) && e in g.edges && g.edges[e].source == Conflict
    ensures if e !in Apply(g, s).edges then s.DoDeleteEdges? && e in s.gone
            else Apply(g, s).edges[e].source == (if s.DoUpsertEdges? && e in s.rows then Static else Conflict)
  {
    assert EdgeOk(g, e, g.edges[e]);
    match s
    case DoUpsertNodes(ids, at) => UpsertNodesKeeps(g, ids, at);
    case DoUpsertEdges(rows) => UpsertEdgesElsewhere(g, rows, e);
    case DoTraceNodes(ids, at) =>
    case DoUpsertDynamic(seen) => SightingKeepsSource(g, seen, e);
    case DoConfirm(ids, at) =>
    case DoDetectConflicts =>
    case DoDowngrade =>
    case DoDeleteEdges(gone) =>
  }

  // ---- One batch of the enricher ----

  /** The five queries of a completed batch, in order. */
  function BatchSteps(traced: seq<Id>, seen: seq<Observed>, observed: seq<Id>, at: real, at': real): seq<Step> {
    [DoTraceNodes(traced, at), DoUpsertDynamic(seen), DoConfirm(observed, at'), DoDetectConflicts, DoDowngrade]
  }

  /** The graph when the batch's downgrade query starts. */
  function BeforeDowngrade(
    g: Graph, traced: seq<Id>, seen: seq<Observed>, observed: seq<Id>, at: real, at': real): Graph
  {
    DetectConflicts(Confirm(UpsertDynamic(TraceNodes(g, traced, at), seen), observed, at'))
  }

  lemma BatchIsItsSteps(g: Graph, traced: seq<Id>, seen: seq<Observed>, observed: seq<Id>, at: real, at': real)
    ensures Run(g, BatchSteps(traced, seen, observed, at, at'))
         == Downgrade(BeforeDowngrade(g, traced, seen, observed, at, at'))
  {
    hide Apply;
    var s0, s1, s2 := DoTraceNodes(traced, at), DoUpsertDynamic(seen), DoConfirm(observed, at');
    assert [] + [s0] == [s0] && [s0] + [s1] == [s0, s1] && [s0, s1] + [s2] == [s0, s1, s2];
    assert [s0, s1, s2] + [DoDetectConflicts] == [s0, s1, s2, DoDetectConflicts];
    assert [s0, s1, s2, DoDetectConflicts] + [DoDowngrade] == BatchSteps(traced, seen, observed, at, at');
    RunMore(g, [], s0);
    RunMore(g, [s0], s1);
    RunMore(g, [s0, s1], s2);
    RunMore(g, [s0, s1, s2], DoDetectConflicts);
    RunMore(g, [s0, s1, s2, DoDetectConflicts], DoDowngrade);
    ApplyBatch(g, traced, seen, observed, at, at');
  }

  lemma RunMore(g: Graph, ss: seq<Step>, s: Step)
    ensures Run(g, ss + [s]) == Apply(Run(g, ss), s)
  {
  }

  lemma ApplyBatch(g: Graph, traced: seq<Id>, seen: seq<Observed>, observed: seq<Id>, at: real, at': real)
    ensures var g1 := Apply(Run(g, []), DoTraceNodes(traced, at));
      var g2 := Apply(Apply(g1, DoUpsertDynamic(seen)), DoConfirm(observed, at'));
      Apply(Apply(g2, DoDetectConflicts), DoDowngrade) == Downgrade(BeforeDowngrade(g, traced, seen, observed, at, at'))
  {
  }

  /**
   After a completed batch, the doubtful edges (static, never observed, traced caller) are exactly those the batch
   itself has just downgraded from a stale confirmation.
   */
  lemma DoubtfulAfterBatchIsFreshlyStale(
    g: Graph, traced: seq<Id>, seen: seq<Observed>, observed: seq<Id>, at: real, at': real, e: Ends)
    requires Inv(g) && (forall i :: 0 <= i < |seen| ==> seen[i].count >= 1)
    ensures var mid := BeforeDowngrade(g, traced, seen, observed, at, at');
      var g' := Run(g, BatchSteps(traced, seen, observed, at, at'));
      e in g'.edges ==> e in mid.edges && (IsDoubtful(g', e) <==> IsStale(mid, e) && IsTraced(mid, e.caller))
  {
    BatchIsItsSteps(g, traced, seen, observed, at, at');
  }

  /** No batch removes an edge. */
  lemma EdgesStay(
    g: Graph, traced: seq<Id>, seen: seq<Observed>, observed: seq<Id>, at: real, at': real, e: Ends)
    requires e in g.edges
    ensures e in Run(g, BatchSteps(traced, seen, observed, at, at')).edges
  {
    BatchIsItsSteps(g, traced, seen, observed, at, at');
    BeforeDowngradeOf(g, traced, seen, observed, at, at', e);
  }

  /** No batch leaves a confirmation older than its caller's index time. */
  lemma NoStaleConfirmationLeft(
    g: Graph, traced: seq<Id>, seen: seq<Observed>, observed: seq<Id>, at: real, at': real, e: Ends)
    ensures var g' := Run(g, BatchSteps(traced, seen, observed, at, at'));
      e in g'.edges && g'.edges[e].source == Confirmed ==> !IndexedSince(g', e)
  {
    BatchIsItsSteps(g, traced, seen, observed, at, at');
    DowngradedEdges(BeforeDowngrade(g, traced, seen, observed, at, at'));
  }

  /** The edge just before the batch's downgrade, when it is not new. */
  lemma BeforeDowngradeOf(
    g: Graph, traced: seq<Id>, seen: seq<Observed>, observed: seq<Id>, at: real, at': real, e: Ends)
    requires e in g.edges
    ensures var mid := BeforeDowngrade(g, traced, seen, observed, at, at');
      && e in mid.edges && mid.nodes.Keys == g.nodes.Keys
      && (e.caller in g.nodes ==> mid.nodes[e.caller].updatedAt == g.nodes[e.caller].updatedAt)
      && (g.edges[e].source == Confirmed ==>
            mid.edges[e].source == Confirmed && mid.edges[e].confirmedAt == g.edges[e].confirmedAt)
      && (g.edges[e].source == Static && e.caller in observed && e.callee in observed ==>
            mid.edges[e].source == Confirmed && mid.edges[e].confirmedAt == Some(at'))
  {
    SightingKeepsSource(TraceNodes(g, traced, at), seen, e);
  }

  /** A static edge that a batch observes is confirmed after it unless its caller was indexed after that time. */
  lemma FreshConfirmationStands(
    g: Graph, traced: seq<Id>, seen: seq<Observed>, observed: seq<Id>, at: real, at': real, e: Ends)
    requires e in g.edges && g.edges[e].source == Static && e.caller in observed && e.callee in observed
    requires e.caller in g.nodes && g.nodes[e.caller].updatedAt.Some? ==> g.nodes[e.caller].updatedAt.value <= at'
    ensures var g' := Run(g, BatchSteps(traced, seen, observed, at, at'));
      e in g'.edges && g'.edges[e].source == Confirmed && g'.edges[e].confirmedAt == Some(at')
  {
    BatchIsItsSteps(g, traced, seen, observed, at, at');
    BeforeDowngradeOf(g, traced, seen, observed, at, at', e);
    DowngradedEdges(BeforeDowngrade(g, traced, seen, observed, at, at'));
  }

  /** Once its caller is indexed again, a confirmed edge is plainly static after the next batch, observed or not. */
  lemma ReindexingUndoesConfirmation(
    g: Graph, ids: seq<Id>, indexed: real, traced: seq<Id>, seen: seq<Observed>, observed: seq<Id>,
    at: real, at': real, e: Ends)
    requires e in g.edges && g.edges[e].source == Confirmed && g.edges[e].confirmedAt.Some?
    requires e.caller in ids && indexed > g.edges[e].confirmedAt.value
    ensures var g' := Run(Apply(g, DoUpsertNodes(ids, indexed)), BatchSteps(traced, seen, observed, at, at'));
      e in g'.edges && g'.edges[e] == EdgeProps(Static, None, None)
  {
    var g1 := Apply(g, DoUpsertNodes(ids, indexed));
    IndexedNodes(g, ids, indexed);
    BatchIsItsSteps(g1, traced, seen, observed, at, at');
    BeforeDowngradeOf(g1, traced, seen, observed, at, at', e);
    hide Apply;
    DowngradedEdges(BeforeDowngrade(g1, traced, seen, observed, at, at'));
    ApplyDowngrade(BeforeDowngrade(g1, traced, seen, observed, at, at'));
  }

  lemma ApplyDowngrade(g: Graph)
    ensures Apply(g, DoDowngrade) == Downgrade(g)
  {
  }

  /** An edge both of whose ends a batch observed is never disputed by that batch. */
  lemma ObservedIsNotDisputed(
    g: Graph, traced: seq<Id>, seen: seq<Observed>, observed: seq<Id>, at: real, at': real, e: Ends)
    requires e in g.edges && e.caller in observed && e.callee in observed && g.edges[e].source != Conflict
    ensures var g' := Run(g, BatchSteps(traced, seen, observed, at, at'));
      e in g'.edges && g'.edges[e].source != Conflict
  {
    BatchIsItsSteps(g, traced, seen, observed, at, at');
    SightingKeepsSource(TraceNodes(g, traced, at), seen, e);
  }

  // ---- Row by row ----

  lemma TraceNone(g: Graph, at: real)
    ensures TraceNodes(g, [], at) == g
  {
    assert TraceNodes(g, [], at).nodes == g.nodes;
  }

  lemma TraceNodeMore(g: Graph, ids: seq<Id>, i: nat, at: real, x: Id)
    requires i < |ids| && x in g.nodes
    ensures var before := TraceNodes(g, ids[..i], at).nodes[x];
      TraceNodes(g, ids[..i+1], at).nodes[x] == if x == ids[i] then Traced(before, 1, at) else before
  {
    RowsMore(ids, i, x);
    assert ids[..i+1] == ids[..i] + [ids[i]];
    assert x in ids[..i+1] <==> x in ids[..i] || x == ids[i];
    assert x in ids[..i] <==> Rows(ids[..i], x) > 0;
    hide Rows;
  }

  lemma TraceOneMore(g: Graph, ids: seq<Id>, i: nat, at: real)
    requires i < |ids|
    ensures var front, id := TraceNodes(g, ids[..i], at), ids[i];
      TraceNodes(g, ids[..i+1], at) ==
        if id !in front.nodes then front else front.(nodes := front.nodes[id := Traced(front.nodes[id], 1, at)])
  {
    var front, next, id := TraceNodes(g, ids[..i], at), TraceNodes(g, ids[..i+1], at), ids[i];
    assert front.nodes.Keys == next.nodes.Keys == g.nodes.Keys && front.edges == next.edges;
    hide TraceNodes;
    hide Traced;
    forall x | x in g.nodes
      ensures next.nodes[x] == if x == id then Traced(front.nodes[x], 1, at) else front.nodes[x]
    {
      TraceNodeMore(g, ids, i, at, x);
    }
    assert next.nodes == if id in front.nodes then front.nodes[id := Traced(front.nodes[id], 1, at)] else front.nodes;
  }

  predicate IsDue(g: Graph, ids: seq<Id>, e: Ends) {
    e in g.edges && IsConfirmable(e, g.edges[e], ids)
  }

  /** The rows for one id: each edge to confirm that it calls, once. */
  ghost predicate RowsOfId(g: Graph, ids: seq<Id>, id: Id, rows: seq<Ends>) {
    forall e :: multiset(rows)[e] == if e.caller == id && IsDue(g, ids, e) then 1 else 0
  }

  /** The rows for the first n ids: one for each edge to confirm and each occurrence of its caller. */
  ghost predicate RowsOfFirst(g: Graph, ids: seq<Id>, n: nat, rows: seq<Ends>)
    requires n <= |ids|
  {
    forall e :: multiset(rows)[e] == if IsDue(g, ids, e) then Rows(ids[..n], e.caller) else 0
  }

  ghost predicate ConfirmationRows(g: Graph, ids: seq<Id>, rows: seq<Ends>) {
    RowsOfFirst(g, ids, |ids|, rows)
  }

  lemma RowsOfNone(g: Graph, ids: seq<Id>)
    ensures RowsOfFirst(g, ids, 0, [])
  {
  }

  lemma RowsOfOneMore(g: Graph, ids: seq<Id>, i: nat, rows: seq<Ends>, more: seq<Ends>)
    requires i < |ids| && RowsOfFirst(g, ids, i, rows) && RowsOfId(g, ids, ids[i], more)
    ensures RowsOfFirst(g, ids, i + 1, rows + more)
  {
    hide IsDue;
    forall e ensures multiset(rows + more)[e] == if IsDue(g, ids, e) then Rows(ids[..i+1], e.caller) else 0 {
      assert multiset(rows + more)[e] == multiset(rows)[e] + multiset(more)[e];
      RowsMore(ids, i, e.caller);
    }
  }

  lemma RowsMore(ids: seq<Id>, i: nat, id: Id)
    requires i < |ids|
    ensures Rows(ids[..i+1], id) == Rows(ids[..i], id) + if ids[i] == id then 1 else 0
  {
    assert ids[..i+1] == ids[..i] + [ids[i]];
  }

  /** The graph when the given rows have been written. */
  ghost function ConfirmedBy(g: Graph, rows: seq<Ends>, at: real): Graph {
    g.(edges := map e | e in g.edges ::
         if e !in rows then g.edges[e]
         else AsConfirmed(g.edges[e], multiset(rows)[e], at))
  }

  lemma ConfirmedByNone(g: Graph, at: real)
    ensures ConfirmedBy(g, [], at) == g
  {
    assert ConfirmedBy(g, [], at).edges == g.edges;
  }

  lemma ConfirmedByOneMore(g: Graph, ids: seq<Id>, rows: seq<Ends>, i: nat, at: real)
    requires ConfirmationRows(g, ids, rows) && i < |rows|
    ensures var before, e := ConfirmedBy(g, rows[..i], at), rows[i];
      && e in before.edges
      && ConfirmedBy(g, rows[..i+1], at)
         == before.(edges := before.edges[e := AsConfirmed(before.edges[e], 1, at)])
  {
    var before, e := ConfirmedBy(g, rows[..i], at), rows[i];
    assert e in multiset(rows);
    assert IsDue(g, ids, e) && Rows(ids, e.caller) > 0 by { assert ids[..|ids|] == ids; }
    assert rows[..i+1] == rows[..i] + [e];
    assert multiset(rows[..i+1]) == multiset(rows[..i]) + multiset{e};
    if e !in rows[..i] { assert multiset(rows[..i])[e] == 0; }
    var next := before.edges[e := AsConfirmed(before.edges[e], 1, at)];
    assert ConfirmedBy(g, rows[..i+1], at).edges == next;
  }

  lemma AllConfirmed(g: Graph, ids: seq<Id>, rows: seq<Ends>, at: real)
    requires ConfirmationRows(g, ids, rows)
    ensures ConfirmedBy(g, rows, at) == Confirm(g, ids, at)
  {
    assert ids[..|ids|] == ids;
    forall e | e in g.edges ensures ConfirmedBy(g, rows, at).edges[e] == Confirm(g, ids, at).edges[e] {
      assert e in rows <==> multiset(rows)[e] > 0;
      assert e.caller in ids <==> Rows(ids, e.caller) > 0;
    }
    assert ConfirmedBy(g, rows, at).edges == Confirm(g, ids, at).edges;
  }

  /** The edges are matched in any order. */
  method RowsFor(g: Graph, ids: seq<Id>, id: Id) returns (rows: seq<Ends>)
    requires id in ids
    ensures RowsOfId(g, ids, id, rows)
  {
    rows := [];
    var todo := g.edges.Keys;
    while todo != {}
      invariant todo <= g.edges.Keys
      invariant forall e :: multiset(rows)[e] == if e.caller == id && e !in todo && IsDue(g, ids, e) then 1 else 0
      decreases |todo|
    {
      var e :| e in todo;
      if g.edges[e].source == Static && e.caller == id && e.callee in ids {
        rows := rows + [e];
      }
      todo := todo - {e};
    }
  }

  /** All rows are matched before the first is written. */
  method ConfirmRows(g: Graph, ids: seq<Id>) returns (rows: seq<Ends>)
    ensures ConfirmationRows(g, ids, rows)
  {
    hide RowsOfFirst;
    hide RowsOfId;
    rows := [];
    RowsOfNone(g, ids);
    for i := 0 to |ids|
      invariant RowsOfFirst(g, ids, i, rows)
    {
      var more := RowsFor(g, ids, ids[i]);
      RowsOfOneMore(g, ids, i, rows, more);
      rows := rows + more;
    }
  }

  // ---- The stored graph ----

  class GraphStore {
    var nodes: map<Id, NodeProps>
    var edges: map<Ends, EdgeProps>

    function Value(): Graph
      reads this
    {
      Graph(nodes, edges)
    }

    constructor ()
      ensures Value() == Graph(map[], map[])
    {
      nodes, edges := map[], map[];
    }

    method UpsertNodeRecords(ids: seq<Id>, at: real)
      modifies this
      ensures Value() == Apply(old(Value()), DoUpsertNodes(ids, at))
    {
      for i := 0 to |ids|
        invariant Value() == UpsertNodes(old(Value()), ids[..i], at)
      {
        assert ids[..i+1][..i] == ids[..i];
        var props := if ids[i] in nodes then nodes[ids[i]] else NodeProps(None, None, None);
        nodes := nodes[ids[i] := props.(updatedAt := Some(at))];
      }
      assert ids[..|ids|] == ids;
    }

    method UpsertStaticEdges(rows: seq<Ends>)
      modifies this
      ensures Value() == Apply(old(Value()), DoUpsertEdges(rows))
    {
      for i := 0 to |rows|
        invariant Value() == UpsertEdges(old(Value()), rows[..i])
      {
        assert rows[..i+1][..i] == rows[..i];
        var e := rows[i];
        if e.caller in nodes && e.callee in nodes {
          var props := if e in edges then edges[e] else EdgeProps(Static, None, None);
          edges := edges[e := props.(source := Static)];
        }
      }
      assert rows[..|rows|] == rows;
    }

    /** One row an id: each counts one call, so an id that occurs twice counts two. */
    method UpdateNodeProps(ids: seq<Id>, at: real)
      modifies this
      ensures Value() == Apply(old(Value()), DoTraceNodes(ids, at))
    {
      TraceNone(Value(), at);
      for i := 0 to |ids|
        invariant Value() == TraceNodes(old(Value()), ids[..i], at)
      {
        TraceOneMore(old(Value()), ids, i, at);
        var id := ids[i];
        if id in nodes {
          nodes := nodes[id := Traced(nodes[id], 1, at)];
        }
      }
      assert ids[..|ids|] == ids;
    }

    method UpsertDynamicEdges(seen: seq<Observed>)
      modifies this
      ensures Value() == Apply(old(Value()), DoUpsertDynamic(seen))
    {
      for i := 0 to |seen|
        invariant Value() == UpsertDynamic(old(Value()), seen[..i])
      {
        assert seen[..i+1][..i] == seen[..i];
        var e := seen[i].ends;
        if e.caller in nodes && e.callee in nodes {
          var props := if e in edges then edges[e] else EdgeProps(Dynamic, None, None);
          edges := edges[e := Sighted(props, seen[i].count)];
        }
      }
      assert seen[..|seen|] == seen;
    }

    method ConfirmStaticEdges(ids: seq<Id>, at: real)
      modifies this
      ensures Value() == Apply(old(Value()), DoConfirm(ids, at))
    {
      hide ConfirmedBy;
      hide Confirm;
      var rows := ConfirmRows(Value(), ids);
      ConfirmedByNone(Value(), at);
      assert rows[..0] == [];
      for i := 0 to |rows|
        invariant Value() == ConfirmedBy(old(Value()), rows[..i], at)
      {
        ConfirmedByOneMore(old(Value()), ids, rows, i, at);
        var e := rows[i];
        edges := edges[e := AsConfirmed(edges[e], 1, at)];
      }
      assert rows[..|rows|] == rows;
      AllConfirmed(old(Value()), ids, rows, at);
    }

    /** Visits the edges in any order; a row only writes to its own edge. */
    method RunConflictDetector()
      modifies this
      ensures Value() == Apply(old(Value()), DoDetectConflicts)
    {
      var todo := edges.Keys;
      while todo != {}
        invariant nodes == old(nodes) && edges.Keys == old(edges).Keys && todo <= edges.Keys
        invariant forall e :: e in edges ==>
          edges[e] == if e in todo then old(edges)[e] else DetectConflicts(old(Value())).edges[e]
        decreases |todo|
      {
        var e :| e in todo;
        if edges[e].source == Static && edges[e].observedCount == None && e.caller in nodes
           && nodes[e.caller].lastTraced.Some?
        {
          edges := edges[e := edges[e].(source := Conflict)];
        }
        todo := todo - {e};
      }
    }

    /** Likewise: stale confirmations become static again and forget what was observed. */
    method RunStalenessDowngrade()
      modifies this
      ensures Value() == Apply(old(Value()), DoDowngrade)
    {
      var todo := edges.Keys;
      while todo != {}
        invariant nodes == old(nodes) && edges.Keys == old(edges).Keys && todo <= edges.Keys
        invariant forall e :: e in edges ==>
          edges[e] == if e in todo then old(edges)[e] else Downgrade(old(Value())).edges[e]
        decreases |todo|
      {
        var e :| e in todo;
        if edges[e].source == Confirmed && e.caller in nodes && Later(nodes[e.caller].updatedAt, edges[e].confirmedAt) {
          edges := edges[e := EdgeProps(Static, None, None)];
        }
        todo := todo - {e};
      }
    }
  }
}
