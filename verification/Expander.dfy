/** Expand: seed set-up, traversal, pruning and the budget total, with what the composition promises. */
module Expander {
  import opened Walks
  import opened Bfs
  import opened Budget
  import opened Sorting

  datatype Requested = Requested(id: Id, name: string)

  datatype Failure = InvalidQueryType | TraversalFailed | CollectEdgesFailed | CollectConflictsFailed

  /** A node as answered, with the text of its behaviour spec if one was found for it. */
  datatype SubgraphNode = SubgraphNode(state: BFSState, behaviorSpec: string)

  datatype Response = Response(
    nodes: seq<SubgraphNode>, edges: seq<string>, warnings: seq<string>, budgetUsed: int, totalCandidates: int)

  datatype Outcome = Answered(response: Response) | Refused(failure: Failure)

  /**
   What the collaborators answer; conflicts come as edges and warnings. details and specs fall back to nothing when
   their lookup fails.
   */
  datatype Stores = Stores(
    graph: set<Edge>,
    outage: int -> bool,
    details: Result<map<Id, string>>,
    specs: Result<Specs>,
    edges: Result<seq<string>>,
    conflicts: Result<(seq<string>, seq<string>)>)

  const QUERY_TYPES: set<string> := {"flow", "lookup", "impact"}

  /** A seed at hop 0 with score 1, carrying its stored details or, failing that, what the request named. */
  function SeedState(r: Requested, details: map<Id, string>): BFSState {
    BFSState(r.id, if r.id in details then details[r.id] else r.name, 1.0, 0, "", "", "")
  }

  function SeedStates(requested: seq<Requested>, details: map<Id, string>): (r: seq<BFSState>)
    ensures |r| == |requested|
    ensures forall i :: 0 <= i < |r| ==> r[i] == SeedState(requested[i], details)
  {
    seq(|requested|, i requires 0 <= i < |requested| => SeedState(requested[i], details))
  }

  function OrEmpty<V>(r: Result<map<Id, V>>): map<Id, V> {
    if r.Ok? then r.value else map[]
  }

  /** Survivors as answered: in order, each with its spec text or none. */
  function Answers(surviving: seq<BFSState>, specs: Specs): (r: seq<SubgraphNode>)
    ensures |r| == |surviving|
    ensures forall i :: 0 <= i < |r| ==>
      r[i] == SubgraphNode(surviving[i], if surviving[i].id in specs then specs[surviving[i].id] else "")
  {
    seq(|surviving|, i requires 0 <= i < |surviving| =>
      SubgraphNode(surviving[i], if surviving[i].id in specs then specs[surviving[i].id] else ""))
  }

  method BuildNodes(surviving: seq<BFSState>, specs: Specs) returns (nodes: seq<SubgraphNode>)
    ensures nodes == Answers(surviving, specs)
  {
    nodes := [];
    for i := 0 to |surviving|
      invariant nodes == Answers(surviving[..i], specs)
    {
      var n := surviving[i];
      nodes := nodes + [SubgraphNode(n, if n.id in specs then specs[n.id] else "")];
    }
    assert surviving[..|surviving|] == surviving;
  }

  /** The nodes of a visited map as a list, in any order. */
  method VisitedToSlice(v: Visited) returns (nodes: seq<BFSState>)
    requires Keyed(v)
    ensures Distinct(nodes) && Members(nodes) == v.Values && |nodes| == |v|
  {
    nodes := [];
    var todo := v.Keys;
    while todo != {}
      invariant todo <= v.Keys && |nodes| == |v| - |todo|
      invariant forall n :: n in nodes <==> n in v.Values && n.id !in todo
      invariant Distinct(nodes)
      decreases |todo|
    {
      var id :| id in todo;
      nodes := nodes + [v[id]];
      todo := todo - {id};
    }
  }

  lemma ConsistentIsTraced(g: set<Edge>, decay: real, v0: Visited, v: Visited)
    requires Consistent(g, decay, v0, v)
    ensures Keyed(v) && Traced(g, decay, v0, v)
  {
  }

  // ---- Parent chains ----

  /** A path from a node to a seed, each step going to the node it was last reached from. */
  ghost predicate ParentChain(v: Visited, id: Id, c: seq<Id>) {
    && c != [] && c[0] == id
    && (forall i :: 0 <= i < |c| ==> c[i] in v)
    && (forall i :: 0 <= i < |c| - 1 ==> v[c[i]].hop != 0 && c[i+1] == v[c[i]].parent)
    && v[c[|c|-1]].hop == 0
  }

  ghost predicate ParentsStronger(v: Visited) {
    forall id :: id in v && v[id].hop != 0 ==> v[id].parent in v && v[v[id].parent].score > v[id].score
  }

  lemma TracedParentsStronger(g: set<Edge>, decay: real, v0: Visited, v: Visited)
    requires 0.0 < decay < 1.0 && Traced(g, decay, v0, v)
    ensures ParentsStronger(v)
    ensures forall id :: id in v && v[id].hop != 0 ==> v[id].score > 0.0
  {
    forall id | id in v && v[id].hop != 0
      ensures v[id].score > 0.0 && v[id].parent in v && v[v[id].parent].score > v[id].score
    {
      hide Along;
      var e :| ReachedBy(g, decay, v, id, e);
      AlongShrinks(decay, v[e.parent].score, e);
    }
  }

  ghost function Above(v: Visited, s: real): set<Id> {
    set id | id in v && v[id].score > s
  }

  /** Scores rise along parents, so following them must end, and it ends at a seed. */
  lemma {:induction false} ChainEndsAtSeed(v: Visited, id: Id) returns (c: seq<Id>)
    requires ParentsStronger(v) && id in v
    ensures ParentChain(v, id, c)
    decreases |Above(v, v[id].score)|
  {
    if v[id].hop == 0 {
      c := [id];
    } else {
      var p := v[id].parent;
      assert p in Above(v, v[id].score) && p !in Above(v, v[p].score);
      assert Above(v, v[p].score) <= Above(v, v[id].score) - {p};
      SmallerSet(Above(v, v[p].score), Above(v, v[id].score), p);
      var rest := ChainEndsAtSeed(v, p);
      c := [id] + rest;
    }
  }

  lemma SmallerSet(A: set<Id>, B: set<Id>, x: Id)
    requires A <= B && x in B && x !in A
    ensures |A| < |B|
  {
    assert |B| == |A| + |B - A| by { assert B == A + (B - A); }
  }

  /** No chain visits a node twice. */
  lemma {:induction false} ChainIsAcyclic(v: Visited, id: Id, c: seq<Id>, i: nat, j: nat)
    requires ParentsStronger(v) && ParentChain(v, id, c) && i < j < |c|
    ensures v[c[i]].score < v[c[j]].score && c[i] != c[j]
    decreases j
  {
    if i < j - 1 {
      ChainIsAcyclic(v, id, c, i, j - 1);
    }
  }

  /** A survivor's whole chain survives with it. */
  lemma {:induction false} ChainSurvives(v: Visited, kept: set<BFSState>, id: Id, c: seq<Id>, i: nat)
    requires ParentsStronger(v) && ParentChain(v, id, c) && i < |c| && v[id] in kept
    requires forall a, b :: a in kept && a.hop != 0 && b in v.Values && b.score > a.score ==> b in kept
    ensures v[c[i]] in kept
  {
    if i > 0 {
      ChainSurvives(v, kept, id, c, i - 1);
      assert v[c[i]] in v.Values;
    }
  }

  // ---- The promise of Expand ----

  /** A traversal outcome that some order of store answers can produce. */
  ghost predicate Traversal(g: set<Edge>, decay: real, v0: Visited, v: Visited, hopDepth: int) {
    && Consistent(g, decay, v0, v)
    && HopsWithin(v, Max(0, hopDepth))
    && BestUpTo(g, decay, Base(v0), v, hopDepth)
    && ((forall id :: id in v ==> v[id].hop < hopDepth) ==> Best(g, decay, Base(v0), v))
  }

  ghost predicate UnitSeeds(v0: Visited) {
    forall id :: id in v0 ==> v0[id].score == 1.0 && v0[id].hop == 0
  }

  lemma AtMostOne(g: set<Edge>, decay: real, v0: Visited, v: Visited, id: Id)
    requires 0.0 < decay < 1.0 && UnitSeeds(v0) && Consistent(g, decay, v0, v) && id in v
    ensures v[id].score <= 1.0
  {
    hide Consistent;
    hide WalkScore;
    hide IsWalk;
    if v[id].hop == 0 {
      SeedsStay(g, decay, v0, v, id);
    } else {
      var r, w := WalkBehind(g, decay, v0, v, id);
      WalkShrinks(decay, 1.0, w);
    }
  }

  lemma SeedOrFound(g: set<Edge>, decay: real, v0: Visited, v: Visited, id: Id)
    requires 0.0 < decay < 1.0 && UnitSeeds(v0) && Consistent(g, decay, v0, v) && id in v
    ensures if v[id].hop == 0 then id in v0 && v[id] == v0[id] else id !in v0 && 0.0 < v[id].score < 1.0
  {
    hide Consistent;
    hide Traced;
    SeedsStay(g, decay, v0, v, id);
    if v[id].hop != 0 {
      ConsistentIsTraced(g, decay, v0, v);
      TracedParentsStronger(g, decay, v0, v);
      AtMostOne(g, decay, v0, v, v[id].parent);
    }
  }

  /** Seeds start with the top score and nothing reaches it, so they keep it; everything found scores below 1. */
  lemma SeedsKeepTopScore(g: set<Edge>, decay: real, v0: Visited, v: Visited)
    requires 0.0 < decay < 1.0 && UnitSeeds(v0) && Consistent(g, decay, v0, v)
    ensures forall id :: id in v ==>
      if v[id].hop == 0 then id in v0 && v[id] == v0[id] else id !in v0 && 0.0 < v[id].score < 1.0
    ensures v0.Keys <= v.Keys
  {
    hide Consistent;
    forall id | id in v
      ensures if v[id].hop == 0 then id in v0 && v[id] == v0[id] else id !in v0 && 0.0 < v[id].score < 1.0
    {
      SeedOrFound(g, decay, v0, v, id);
    }
    forall id | id in v0 ensures id in v {
      SeedsStay(g, decay, v0, v, id);
    }
  }

  lemma TraversalLeadsWithSeeds(g: set<Edge>, decay: real, v0: Visited, v: Visited, sorted: seq<BFSState>)
    requires 0.0 < decay < 1.0 && UnitSeeds(v0) && Consistent(g, decay, v0, v)
    requires Distinct(sorted) && Members(sorted) == v.Values
    ensures SeedsLead(sorted)
  {
    hide Consistent;
    SeedsKeepTopScore(g, decay, v0, v);
    forall n | n in sorted ensures n.score >= 0.0 && (n.hop == 0 ==> n.score == 1.0) && (n.hop != 0 ==> n.score < 1.0) {
      assert n in Members(sorted);
      var id :| id in v && v[id] == n;
    }
  }

  lemma SeedMapOfRequest(requested: seq<Requested>, details: map<Id, string>)
    ensures var v0 := SeedMap(SeedStates(requested, details));
      UnitSeeds(v0) && AtHopZero(SeedStates(requested, details))
      && forall id :: id in v0 <==> exists i :: 0 <= i < |requested| && requested[i].id == id
  {
    var seeds := SeedStates(requested, details);
    SeedsAreKeyed(seeds);
    SeedMapKeys(seeds);
    forall id | id in SeedMap(seeds) ensures SeedMap(seeds)[id].score == 1.0 {
      assert SeedMap(seeds)[id] in seeds;
    }
    forall id ensures id in SeedMap(seeds) <==> exists i :: 0 <= i < |requested| && requested[i].id == id {
      if i :| 0 <= i < |requested| && requested[i].id == id {
        assert seeds[i].id == id;
      }
    }
  }

  predicate IsLast(requested: seq<Requested>, i: nat) {
    i < |requested| && forall j :: i < j < |requested| ==> requested[j].id != requested[i].id
  }

  /**
   What a traversal starts from: each requested id, as it is named last, at hop 0 with score 1, with its stored details
   or, if the lookup failed or does not know it, its requested name.
   */
  ghost predicate IsStart(details: Result<map<Id, string>>, requested: seq<Requested>, v0: Visited) {
    && (forall id :: id in v0 <==> exists i :: 0 <= i < |requested| && requested[i].id == id)
    && (forall i: nat :: IsLast(requested, i) ==>
          var id := requested[i].id;
          var name := if details.Ok? && id in details.value then details.value[id] else requested[i].name;
          id in v0 && v0[id] == BFSState(id, name, 1.0, 0, "", "", ""))
  }

  lemma RequestIsStart(details: Result<map<Id, string>>, requested: seq<Requested>)
    ensures IsStart(details, requested, SeedMap(SeedStates(requested, OrEmpty(details))))
  {
    SeedMapOfRequest(requested, OrEmpty(details));
    var seeds := SeedStates(requested, OrEmpty(details));
    hide SeedMap;
    forall i: nat | IsLast(requested, i)
      ensures seeds[i].id in SeedMap(seeds) && SeedMap(seeds)[seeds[i].id] == seeds[i]
    {
      LastSeedWins(seeds, i);
    }
  }

  lemma {:induction false} SeedMapKeys(seeds: seq<BFSState>)
    ensures forall id :: id in SeedMap(seeds) <==> exists i :: 0 <= i < |seeds| && seeds[i].id == id
  {
    if seeds != [] {
      var front := seeds[..|seeds|-1];
      SeedMapKeys(front);
      forall id ensures id in SeedMap(seeds) <==> exists i :: 0 <= i < |seeds| && seeds[i].id == id {
        if id in SeedMap(front) {
          var i :| 0 <= i < |front| && front[i].id == id;
          assert seeds[i].id == id;
        }
        if i :| 0 <= i < |seeds| && seeds[i].id == id {
          if i < |front| { assert front[i].id == id; }
        }
      }
    }
  }

  /**
   Everything a caller may rely on in an answer: its nodes are the pruned outcome of a complete traversal, the best
   within the budget, by falling score, and none of the seeds is missing.
   */
  ghost predicate Explained(
    g: set<Edge>, v0: Visited, v: Visited, specs: Specs, maxTokens: int, hopDepth: int, decay: real,
    kept: seq<BFSState>)
  {
    && Traversal(g, decay, v0, v, hopDepth)
    && BestWithinBudget(specs, v.Values, Members(kept), Price(specs, Members(kept)), maxTokens)
    && Descending(ByScore, kept) && Distinct(kept)
    && (forall id :: id in v0 ==> v0[id] in kept)
  }

  ghost predicate ChainsKept(v: Visited, nodes: seq<BFSState>) {
    forall id, c, i :: id in v && v[id] in nodes && ParentChain(v, id, c) && 0 <= i < |c| ==> v[c[i]] in nodes
  }

  /** The survivors in order with their spec texts, all edges and warnings, and a budget of 15 a conflict edge more. */
  ghost predicate IsResponse(stores: Stores, kept: seq<BFSState>, candidates: nat, r: Response) {
    var specs := if stores.specs.Ok? then stores.specs.value else map[];
    && stores.edges.Ok? && stores.conflicts.Ok? && |r.nodes| == |kept| && r.totalCandidates == candidates
    && (forall i :: 0 <= i < |kept| ==>
          r.nodes[i] == SubgraphNode(kept[i], if kept[i].id in specs then specs[kept[i].id] else ""))
    && r.edges == stores.edges.value + stores.conflicts.value.0 && r.warnings == stores.conflicts.value.1
    && r.budgetUsed == ListPrice(specs, kept) + 15 * |stores.conflicts.value.0|
  }

  /** The greedy pass over all visited states, each once, by falling score. */
  ghost predicate IsPruned(v: Visited, specs: Specs, maxTokens: int, kept: seq<BFSState>) {
    exists sorted :: Distinct(sorted) && Members(sorted) == v.Values && Descending(ByScore, sorted)
      && kept == Greedy(specs, sorted, maxTokens).0
  }

  lemma PrunedListing(v: Visited, specs: Specs, maxTokens: int, all: seq<BFSState>, kept: seq<BFSState>, used: int)
    requires Distinct(all) && Members(all) == v.Values
    requires exists sorted :: SortedListing(all, sorted) && (kept, used) == Greedy(specs, sorted, maxTokens)
    ensures IsPruned(v, specs, maxTokens, kept)
  {
    hide Greedy;
    var sorted :| SortedListing(all, sorted) && (kept, used) == Greedy(specs, sorted, maxTokens);
    PermutationStaysDistinct(all, sorted);
  }

  method Expand(
    stores: Stores, requested: seq<Requested>, queryType: string, maxTokens: int, hopDepth: int, decay: real)
    returns (outcome: Outcome, ghost start: Visited, ghost visited: Visited, ghost kept: seq<BFSState>,
             ghost answers: seq<seq<Edge>>)
    ensures requested == [] ==> outcome == Answered(Response([], [], [], 0, 0))
    ensures requested != [] && queryType != "flow" && queryType != "lookup" && queryType != "impact"
       <==> outcome == Refused(InvalidQueryType)
    ensures outcome == Refused(TraversalFailed) ==> exists h :: 0 <= h < hopDepth && stores.outage(h)
    ensures outcome == Refused(CollectEdgesFailed) ==> stores.edges.Err?
    ensures outcome == Refused(CollectConflictsFailed) ==> stores.edges.Ok? && stores.conflicts.Err?
    ensures requested != [] && outcome.Answered? ==>
      && IsStart(stores.details, requested, start)
      && Complete(stores.graph, start, decay, hopDepth, answers, stores.outage, visited)
      && IsResponse(stores, kept, |visited|, outcome.response)
      && IsPruned(visited, if stores.specs.Ok? then stores.specs.value else map[], maxTokens, kept)
    ensures requested != [] && outcome.Answered? && 0.0 < decay < 1.0 ==>
      var specs := if stores.specs.Ok? then stores.specs.value else map[];
      && Explained(stores.graph, start, visited, specs, maxTokens, hopDepth, decay, kept) && ChainsKept(visited, kept)
  {
    hide Explained;
    hide ChainsKept;
    hide Greedy;
    hide Complete;
    hide IsStart;
    hide SeedMap;
    hide ListPrice;
    hide Members;
    hide Distinct;
    hide Keyed;
    hide IsResponse;
    hide IsPruned;
    hide Consistent;
    hide BestUpTo;
    hide Best;
    hide HopsWithin;
    start, visited, kept, answers := map[], map[], [], [];
    if |requested| == 0 {
      outcome := Answered(Response([], [], [], 0, 0));
      return;
    }
    if queryType !in QUERY_TYPES {
      outcome := Refused(InvalidQueryType);
      return;
    }
    var seeds := SeedStates(requested, OrEmpty(stores.details));
    var specs := OrEmpty(stores.specs);
    SeedMapOfRequest(requested, OrEmpty(stores.details));
    RequestIsStart(stores.details, requested);
    start := SeedMap(seeds);
    var found;
    found, answers := RunBFS(stores.graph, seeds, hopDepth, decay, stores.outage);
    if found.Err? {
      outcome := Refused(TraversalFailed);
      return;
    }
    visited := found.value;
    var all := VisitedToSlice(found.value);
    var surviving, used := Prune(all, specs, maxTokens);
    kept := surviving;
    PrunedListing(visited, specs, maxTokens, all, kept, used);
    if 0.0 < decay < 1.0 {
      PrunedAnswer(stores.graph, start, visited, specs, maxTokens, hopDepth, decay, all, kept, used);
    }
    if stores.edges.Err? {
      outcome := Refused(CollectEdgesFailed);
      return;
    }
    if stores.conflicts.Err? {
      outcome := Refused(CollectConflictsFailed);
      return;
    }
    var response := Respond(surviving, specs, used, stores.edges.value, stores.conflicts.value, |all|);
    ResponseIs(stores, kept, |visited|, response);
    outcome := Answered(response);
  }

  method Respond(surviving: seq<BFSState>, specs: Specs, used: int, standard: seq<string>,
                 conflicts: (seq<string>, seq<string>), candidates: int)
    returns (r: Response)
    ensures r.nodes == Answers(surviving, specs)
    ensures r.edges == standard + conflicts.0 && r.warnings == conflicts.1 && r.totalCandidates == candidates
    ensures r.budgetUsed == used + 15 * |conflicts.0|
  {
    var edges := standard + conflicts.0;
    var budgetUsed := used + |conflicts.0| * TOKENS_CONFLICT_EDGE;
    var nodes := BuildNodes(surviving, specs);
    r := Response(nodes, edges, conflicts.1, budgetUsed, candidates);
  }

  lemma ResponseIs(stores: Stores, kept: seq<BFSState>, candidates: nat, r: Response)
    requires stores.edges.Ok? && stores.conflicts.Ok? && r.totalCandidates == candidates
    requires r.nodes == Answers(kept, OrEmpty(stores.specs)) && r.warnings == stores.conflicts.value.1
    requires r.edges == stores.edges.value + stores.conflicts.value.0
    requires r.budgetUsed == ListPrice(OrEmpty(stores.specs), kept) + 15 * |stores.conflicts.value.0|
    ensures IsResponse(stores, kept, candidates, r)
  {
  }

  /** What pruning makes of a traversal, whichever sorted listing it used. */
  lemma PrunedAnswer(
    g: set<Edge>, v0: Visited, v: Visited, specs: Specs, maxTokens: int, hopDepth: int, decay: real,
    all: seq<BFSState>, kept: seq<BFSState>, used: int)
    requires 0.0 < decay < 1.0 && UnitSeeds(v0) && Traversal(g, decay, v0, v, hopDepth)
    requires Distinct(all) && Members(all) == v.Values
    requires exists sorted :: SortedListing(all, sorted) && (kept, used) == Greedy(specs, sorted, maxTokens)
    ensures Explained(g, v0, v, specs, maxTokens, hopDepth, decay, kept) && ChainsKept(v, kept)
  {
    hide Traversal;
    hide Explained;
    hide ChainsKept;
    hide Greedy;
    var sorted :| SortedListing(all, sorted) && (kept, used) == Greedy(specs, sorted, maxTokens);
    PermutationStaysDistinct(all, sorted);
    PrunedTraversal(g, v0, v, specs, maxTokens, hopDepth, decay, sorted, kept, used);
  }

  lemma PrunedTraversal(
    g: set<Edge>, v0: Visited, v: Visited, specs: Specs, maxTokens: int, hopDepth: int, decay: real,
    sorted: seq<BFSState>, kept: seq<BFSState>, used: int)
    requires 0.0 < decay < 1.0 && UnitSeeds(v0) && Traversal(g, decay, v0, v, hopDepth)
    requires Distinct(sorted) && Members(sorted) == v.Values && Descending(ByScore, sorted)
    requires (kept, used) == Greedy(specs, sorted, maxTokens)
    ensures used == Price(specs, Members(kept))
    ensures Explained(g, v0, v, specs, maxTokens, hopDepth, decay, kept) && ChainsKept(v, kept)
  {
    hide BestUpTo;
    hide Best;
    hide Consistent;
    hide Price;
    hide Greedy;
    TraversalLeadsWithSeeds(g, decay, v0, v, sorted);
    PrunedIsBest(specs, sorted, maxTokens);
    SeedsKeepTopScore(g, decay, v0, v);
    forall id | id in v0 ensures v0[id] in kept {
      SeedsStay(g, decay, v0, v, id);
      assert v[id] in v.Values && v[id] in Seeds(v.Values);
      assert v[id] in Members(kept);
    }
    ChainsSurviveAll(g, decay, v0, v, kept);
  }

  lemma ChainsSurviveAll(g: set<Edge>, decay: real, v0: Visited, v: Visited, nodes: seq<BFSState>)
    requires 0.0 < decay < 1.0 && Consistent(g, decay, v0, v)
    requires forall a, b ::
      a in Members(nodes) && a.hop != 0 && b in v.Values && b.score > a.score ==> b in Members(nodes)
    ensures ChainsKept(v, nodes)
  {
    hide Consistent;
    hide Traced;
    ConsistentIsTraced(g, decay, v0, v);
    TracedParentsStronger(g, decay, v0, v);
    hide ParentsStronger;
    forall id, c, i | id in v && v[id] in nodes && ParentChain(v, id, c) && 0 <= i < |c| ensures v[c[i]] in nodes {
      ChainSurvives(v, Members(nodes), id, c, i);
    }
  }
}
