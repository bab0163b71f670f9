/**
 The hop loop of the subgraph expander. It relaxes scores in place: a node found again with a better score
 takes a new hop and is expanded again, and a parent's score may rise in the middle of a round.
 */
module Bfs {
  import opened Scoring
  import opened Walks

  datatype Result<+T> = Ok(value: T) | Err

  datatype BFSState = BFSState(
    id: Id, details: string, score: real, hop: int, parent: Id, edgeType: string, provenance: string)

  type Visited = map<Id, BFSState>

  // ---- One relaxation, one round ----

  /** Reading an absent key of a Go map gives the zero state, whose score is 0. */
  function ParentScore(v: Visited, parent: Id): real {
    if parent in v then v[parent].score else 0.0
  }

  function Found(e: Edge, score: real, hop: int): BFSState {
    BFSState(e.child, e.details, score, hop, e.parent, e.edgeType, e.provenance)
  }

  function Relax(v: Visited, e: Edge, hop: int, decay: real): Visited {
    var score := Along(decay, ParentScore(v, e.parent), e);
    if score <= 0.0 then v
    else if e.child in v && score <= v[e.child].score then v
    else v[e.child := Found(e, score, hop + 1)]
  }

  function RelaxAll(v: Visited, rows: seq<Edge>, hop: int, decay: real): Visited {
    if rows == [] then v else Relax(RelaxAll(v, rows[..|rows|-1], hop, decay), rows[|rows|-1], hop, decay)
  }

  function SeedMap(seeds: seq<BFSState>): Visited {
    if seeds == [] then map[] else SeedMap(seeds[..|seeds|-1])[seeds[|seeds|-1].id := seeds[|seeds|-1]]
  }

  /** The scores the walks start from. */
  function Base(v0: Visited): map<Id, real> {
    map id | id in v0 :: v0[id].score
  }

  // ---- What every relaxation keeps ----

  ghost predicate Keyed(v: Visited) {
    forall id :: id in v ==> v[id].id == id
  }

  /** e is the edge id was last reached by, from a visited parent that still accounts for id's score. */
  ghost predicate ReachedBy(g: set<Edge>, decay: real, v: Visited, id: Id, e: Edge)
    requires id in v
  {
    && e in g && e.child == id && e.parent in v
    && v[id] == BFSState(id, e.details, v[id].score, v[id].hop, e.parent, e.edgeType, e.provenance)
    && 0.0 < v[id].score <= Along(decay, v[e.parent].score, e)
  }

  /** A node is either an untouched seed at hop 0, or was reached by an edge. */
  ghost predicate Traced(g: set<Edge>, decay: real, v0: Visited, v: Visited) {
    forall id :: id in v ==>
      if v[id].hop == 0 then id in v0 && v[id] == v0[id] else exists e :: ReachedBy(g, decay, v, id, e)
  }

  /** Every score is the product along a walk that starts at a seed. */
  ghost predicate Sound(g: set<Edge>, decay: real, v0: Visited, v: Visited) {
    forall id :: id in v ==> Carried(g, decay, Base(v0), id, v[id].score)
  }

  ghost predicate Consistent(g: set<Edge>, decay: real, v0: Visited, v: Visited) {
    && Keyed(v) && Traced(g, decay, v0, v) && Sound(g, decay, v0, v)
    && (forall id :: id in v0 ==> id in v && v[id].score >= v0[id].score)
  }

  /** Scores only rise, and whatever a round changes it moves to the next hop. */
  ghost predicate Improves(v: Visited, v': Visited, hop: int) {
    && (forall id :: id in v ==> id in v' && v'[id].score >= v[id].score)
    && (forall id :: id in v' ==> (id in v && v'[id] == v[id]) || v'[id].hop == hop + 1)
  }

  /** The branch Relax takes, and what follows from it. */
  lemma RelaxCases(v: Visited, e: Edge, hop: int, decay: real) returns (updated: bool, score: real)
    requires 0.0 < decay < 1.0
    ensures score == Along(decay, ParentScore(v, e.parent), e)
    ensures !updated ==> Relax(v, e, hop, decay) == v && (score > 0.0 ==> e.child in v && score <= v[e.child].score)
    ensures updated ==>
      && Relax(v, e, hop, decay) == v[e.child := Found(e, score, hop + 1)]
      && e.parent in v && e.parent != e.child && 0.0 < score < v[e.parent].score
      && (e.child in v ==> v[e.child].score < score)
  {
    hide Along;
    score := Along(decay, ParentScore(v, e.parent), e);
    updated := score > 0.0 && (e.child in v ==> v[e.child].score < score);
    AlongShrinks(decay, ParentScore(v, e.parent), e);
  }

  lemma RelaxImproves(v: Visited, e: Edge, hop: int, decay: real)
    requires 0.0 < decay < 1.0
    ensures Improves(v, Relax(v, e, hop, decay), hop)
  {
  }

  /** An entry that is not replaced stays accounted for, because its parent's score can only rise. */
  lemma ReachedByPersists(g: set<Edge>, decay: real, v: Visited, v': Visited, id: Id, f: Edge)
    requires 0.0 < decay < 1.0
    requires id in v && id in v' && v'[id] == v[id] && ReachedBy(g, decay, v, id, f)
    requires f.parent in v' && v[f.parent].score <= v'[f.parent].score
    ensures ReachedBy(g, decay, v', id, f)
  {
  }

  lemma UpdateIsReached(g: set<Edge>, decay: real, v: Visited, e: Edge, score: real, hop: int)
    requires e in g && e.parent in v && e.parent != e.child
    requires 0.0 < score == Along(decay, v[e.parent].score, e)
    ensures ReachedBy(g, decay, v[e.child := Found(e, score, hop + 1)], e.child, e)
  {
  }

  lemma RelaxKeepsTraced(g: set<Edge>, decay: real, v0: Visited, v: Visited, e: Edge, hop: int)
    requires 0.0 < decay < 1.0 && 0 <= hop && e in g
    requires Traced(g, decay, v0, v)
    ensures Traced(g, decay, v0, Relax(v, e, hop, decay))
  {
    hide Along;
    hide Relax;
    hide ReachedBy;
    var updated, score := RelaxCases(v, e, hop, decay);
    var v' := Relax(v, e, hop, decay);
    if updated {
      UpdateIsReached(g, decay, v, e, score, hop);
      forall id | id in v && id != e.child && v[id].hop != 0
        ensures exists f :: ReachedBy(g, decay, v', id, f)
      {
        UntouchedStaysReached(g, decay, v, v', id);
      }
    }
  }

  lemma UntouchedStaysReached(g: set<Edge>, decay: real, v: Visited, v': Visited, id: Id)
    requires 0.0 < decay < 1.0
    requires forall x :: x in v ==> x in v' && v[x].score <= v'[x].score
    requires id in v && v'[id] == v[id] && exists f :: ReachedBy(g, decay, v, id, f)
    ensures exists f :: ReachedBy(g, decay, v', id, f)
  {
    hide ReachedBy;
    var f :| ReachedBy(g, decay, v, id, f);
    ReachedByParent(g, decay, v, id, f);
    ReachedByPersists(g, decay, v, v', id, f);
  }

  lemma ReachedByParent(g: set<Edge>, decay: real, v: Visited, id: Id, f: Edge)
    requires id in v && ReachedBy(g, decay, v, id, f)
    ensures f.parent in v && v[id].parent == f.parent && v[id].score > 0.0
  {
  }

  lemma RelaxKeepsSound(g: set<Edge>, decay: real, v0: Visited, v: Visited, e: Edge, hop: int)
    requires 0.0 < decay < 1.0 && e in g
    requires Sound(g, decay, v0, v)
    ensures Sound(g, decay, v0, Relax(v, e, hop, decay))
  {
    hide Along;
    hide Relax;
    var updated, score := RelaxCases(v, e, hop, decay);
    if updated {
      var base := Base(v0);
      assert Carried(g, decay, base, e.parent, v[e.parent].score);
      var r, w :| r in base && IsWalk(g, r, w, e.parent) && v[e.parent].score == WalkScore(decay, base[r], w);
      ExtendWalk(g, decay, base[r], r, w, e);
      assert Carried(g, decay, base, e.child, score);
    }
  }

  lemma RelaxKeeps(g: set<Edge>, decay: real, v0: Visited, v: Visited, e: Edge, hop: int)
    requires 0.0 < decay < 1.0 && 0 <= hop && e in g
    requires Consistent(g, decay, v0, v)
    ensures Consistent(g, decay, v0, Relax(v, e, hop, decay))
  {
    hide Traced;
    hide Sound;
    hide Relax;
    RelaxKeepsTraced(g, decay, v0, v, e, hop);
    RelaxKeepsSound(g, decay, v0, v, e, hop);
    RelaxImproves(v, e, hop, decay);
    var updated, score := RelaxCases(v, e, hop, decay);
  }

  lemma {:induction false} RoundImproves(v: Visited, rows: seq<Edge>, hop: int, decay: real)
    requires 0.0 < decay < 1.0
    ensures Improves(v, RelaxAll(v, rows, hop, decay), hop)
  {
    hide Relax;
    if rows != [] {
      RoundImproves(v, rows[..|rows|-1], hop, decay);
      RelaxImproves(RelaxAll(v, rows[..|rows|-1], hop, decay), rows[|rows|-1], hop, decay);
    }
  }

  lemma {:induction false} RoundKeeps(g: set<Edge>, decay: real, v0: Visited, v: Visited, rows: seq<Edge>, hop: int)
    requires 0.0 < decay < 1.0 && 0 <= hop
    requires forall e :: e in rows ==> e in g
    requires Consistent(g, decay, v0, v)
    ensures Consistent(g, decay, v0, RelaxAll(v, rows, hop, decay))
  {
    hide Relax;
    hide Consistent;
    if rows != [] {
      RoundKeeps(g, decay, v0, v, rows[..|rows|-1], hop);
      RelaxKeeps(g, decay, v0, RelaxAll(v, rows[..|rows|-1], hop, decay), rows[|rows|-1], hop);
    }
  }

  // ---- What the loop gains round by round ----

  /** to already accounts for everything the edge e could bring it from the scores of from. */
  ghost predicate Served(decay: real, from: Visited, to: Visited, e: Edge) {
    e.parent in from && Along(decay, from[e.parent].score, e) > 0.0 ==>
      e.child in to && to[e.child].score >= Along(decay, from[e.parent].score, e)
  }

  /** However the rows are ordered, and although parents may rise meanwhile, each row is served. */
  lemma {:induction false} RowServed(v: Visited, rows: seq<Edge>, k: nat, hop: int, decay: real)
    requires 0.0 < decay < 1.0 && k < |rows|
    ensures Served(decay, v, RelaxAll(v, rows, hop, decay), rows[k])
  {
    hide Along;
    hide Relax;
    var front, e := RelaxAll(v, rows[..|rows|-1], hop, decay), rows[|rows|-1];
    RelaxImproves(front, e, hop, decay);
    if k < |rows| - 1 {
      RowServed(v, rows[..|rows|-1], k, hop, decay);
    } else if e.parent in v {
      RoundImproves(v, rows[..|rows|-1], hop, decay);
      var updated, score := RelaxCases(front, e, hop, decay);
      AlongMonotone(decay, v[e.parent].score, front[e.parent].score, e);
    }
  }

  ghost predicate Settled(g: set<Edge>, decay: real, v: Visited, h: int) {
    forall e :: e in g && e.parent in v && v[e.parent].hop < h ==> Served(decay, v, v, e)
  }

  ghost predicate HopsWithin(v: Visited, h: int) {
    forall id :: id in v ==> 0 <= v[id].hop <= h
  }

  /** No walk of at most n edges from a seed carries a better score to any node than v records. */
  ghost predicate BestUpTo(g: set<Edge>, decay: real, base: map<Id, real>, v: Visited, n: int) {
    forall s, w, t :: s in base && IsWalk(g, s, w, t) && |w| <= n && (w == [] || WalkScore(decay, base[s], w) > 0.0) ==>
      t in v && v[t].score >= WalkScore(decay, base[s], w)
  }

  ghost predicate Best(g: set<Edge>, decay: real, base: map<Id, real>, v: Visited) {
    forall s, w, t :: s in base && IsWalk(g, s, w, t) && (w == [] || WalkScore(decay, base[s], w) > 0.0) ==>
      t in v && v[t].score >= WalkScore(decay, base[s], w)
  }

  ghost predicate RoundInv(g: set<Edge>, decay: real, v0: Visited, v: Visited, h: int) {
    && Consistent(g, decay, v0, v) && HopsWithin(v, h) && Settled(g, decay, v, h)
    && BestUpTo(g, decay, Base(v0), v, h)
  }

  /** The rows of one query: exactly the edges that leave the nodes at hop h, in any order, possibly repeated. */
  ghost predicate RowsOf(g: set<Edge>, v: Visited, h: int, rows: seq<Edge>) {
    forall e :: e in rows <==> e in g && e.parent in v && v[e.parent].hop == h
  }

  ghost predicate Waiting(v: Visited, h: int) {
    exists id :: id in v && v[id].hop == h
  }

  /** The visited map after the given answers, one a hop. */
  ghost function Rounds(v0: Visited, answers: seq<seq<Edge>>, decay: real): Visited {
    if answers == [] then v0
    else RelaxAll(Rounds(v0, answers[..|answers|-1], decay), answers[|answers|-1], |answers| - 1, decay)
  }

  /** Each hop found nodes to ask about, the store was up, and it answered with exactly their edges. */
  ghost predicate LegalRun(g: set<Edge>, v0: Visited, answers: seq<seq<Edge>>, decay: real, outage: int -> bool) {
    forall h :: 0 <= h < |answers| ==> LegalRound(g, Rounds(v0, answers[..h], decay), h, answers[h], outage)
  }

  ghost predicate LegalRound(g: set<Edge>, v: Visited, h: int, rows: seq<Edge>, outage: int -> bool) {
    Waiting(v, h) && !outage(h) && RowsOf(g, v, h, rows)
  }

  /** The answers lead to v and stop only where a traversal of at most n hops may: at the limit or with nothing left. */
  ghost predicate Complete(g: set<Edge>, v0: Visited, decay: real, n: int, answers: seq<seq<Edge>>, outage: int -> bool,
                           v: Visited)
  {
    && LegalRun(g, v0, answers, decay, outage) && (answers != [] ==> |answers| <= n)
    && v == Rounds(v0, answers, decay) && (|answers| >= n || !Waiting(v, |answers|))
  }

  lemma NoRoundYet(g: set<Edge>, v0: Visited, decay: real, outage: int -> bool)
    ensures Rounds(v0, [], decay) == v0 && LegalRun(g, v0, [], decay, outage)
  {
  }

  lemma OneMoreRound(g: set<Edge>, v0: Visited, answers: seq<seq<Edge>>, rows: seq<Edge>, decay: real,
                     outage: int -> bool)
    requires LegalRun(g, v0, answers, decay, outage)
    requires LegalRound(g, Rounds(v0, answers, decay), |answers|, rows, outage)
    ensures LegalRun(g, v0, answers + [rows], decay, outage)
    ensures Rounds(v0, answers + [rows], decay) == RelaxAll(Rounds(v0, answers, decay), rows, |answers|, decay)
  {
    hide LegalRound;
    hide RelaxAll;
    var more := answers + [rows];
    assert more[..|answers|] == answers;
    forall h | 0 <= h < |more| ensures LegalRound(g, Rounds(v0, more[..h], decay), h, more[h], outage) {
      if h < |answers| { assert more[..h] == answers[..h]; }
    }
  }

  lemma RoundServes(g: set<Edge>, decay: real, v: Visited, rows: seq<Edge>, h: int, e: Edge)
    requires 0.0 < decay < 1.0
    requires HopsWithin(v, h) && Settled(g, decay, v, h) && RowsOf(g, v, h, rows) && e in g
    ensures Served(decay, v, RelaxAll(v, rows, h, decay), e)
  {
    hide Along;
    RoundImproves(v, rows, h, decay);
    if e.parent in v && v[e.parent].hop == h {
      assert e in rows;
      var k :| 0 <= k < |rows| && rows[k] == e;
      RowServed(v, rows, k, h, decay);
    }
  }

  /** The last step of a walk: its front, and how its score splits. */
  lemma LastStep(g: set<Edge>, decay: real, base: real, s: Id, w: seq<Edge>, t: Id)
    requires 0.0 < decay < 1.0
    requires IsWalk(g, s, w, t) && w != [] && WalkScore(decay, base, w) > 0.0
    ensures var front, e := w[..|w|-1], w[|w|-1];
      && e in g && e.child == t && IsWalk(g, s, front, e.parent)
      && WalkScore(decay, base, w) == Along(decay, WalkScore(decay, base, front), e)
      && WalkScore(decay, base, front) > 0.0
  {
  }

  lemma RoundExtends(g: set<Edge>, decay: real, v0: Visited, v: Visited, v': Visited, h: int, s: Id,
                      w: seq<Edge>, t: Id)
    requires 0.0 < decay < 1.0 && 0 <= h
    requires BestUpTo(g, decay, Base(v0), v, h)
    requires forall e :: e in g ==> Served(decay, v, v', e)
    requires s in Base(v0) && IsWalk(g, s, w, t) && |w| == h + 1 && WalkScore(decay, Base(v0)[s], w) > 0.0
    ensures t in v' && v'[t].score >= WalkScore(decay, Base(v0)[s], w)
  {
    hide Along;
    hide WalkScore;
    hide IsWalk;
    var front, e := w[..|w|-1], w[|w|-1];
    LastStep(g, decay, Base(v0)[s], s, w, t);
    AlongMonotone(decay, WalkScore(decay, Base(v0)[s], front), v[e.parent].score, e);
    assert Served(decay, v, v', e);
  }

  lemma RoundExtendsAll(g: set<Edge>, decay: real, v0: Visited, v: Visited, v': Visited, h: int)
    requires 0.0 < decay < 1.0 && 0 <= h
    requires BestUpTo(g, decay, Base(v0), v, h) && Improves(v, v', h)
    requires forall e :: e in g ==> Served(decay, v, v', e)
    ensures BestUpTo(g, decay, Base(v0), v', h + 1)
  {
    hide Along;
    hide Served;
    hide IsWalk;
    hide WalkScore;
    var base := Base(v0);
    forall s, w, t | s in base && IsWalk(g, s, w, t) && |w| <= h + 1 && (w == [] || WalkScore(decay, base[s], w) > 0.0)
      ensures t in v' && v'[t].score >= WalkScore(decay, base[s], w)
    {
      if |w| == h + 1 {
        RoundExtends(g, decay, v0, v, v', h, s, w, t);
      }
    }
  }

  lemma RoundSettles(g: set<Edge>, decay: real, v: Visited, v': Visited, h: int)
    requires HopsWithin(v, h) && Improves(v, v', h) && 0 <= h
    requires forall e :: e in g ==> Served(decay, v, v', e)
    ensures HopsWithin(v', h + 1) && Settled(g, decay, v', h + 1)
  {
  }

  lemma RoundStep(g: set<Edge>, decay: real, v0: Visited, v: Visited, rows: seq<Edge>, h: int)
    requires 0.0 < decay < 1.0 && 0 <= h
    requires RoundInv(g, decay, v0, v, h) && RowsOf(g, v, h, rows)
    ensures RoundInv(g, decay, v0, RelaxAll(v, rows, h, decay), h + 1)
  {
    hide Along;
    hide RelaxAll;
    hide Consistent;
    hide HopsWithin;
    hide Settled;
    hide BestUpTo;
    hide Improves;
    hide Served;
    var v' := RelaxAll(v, rows, h, decay);
    RoundKeeps(g, decay, v0, v, rows, h);
    RoundImproves(v, rows, h, decay);
    forall e | e in g ensures Served(decay, v, v', e) {
      RoundServes(g, decay, v, rows, h, e);
    }
    RoundExtendsAll(g, decay, v0, v, v', h);
    RoundSettles(g, decay, v, v', h);
  }

  /** Once no node waits at the frontier, no walk of any length does better. */
  lemma {:induction false} SettledCovers(
    g: set<Edge>, decay: real, base: map<Id, real>, v: Visited, s: Id, w: seq<Edge>, t: Id)
    requires 0.0 < decay < 1.0
    requires forall e :: e in g ==> Served(decay, v, v, e)
    requires forall id :: id in base ==> id in v && v[id].score >= base[id]
    requires s in base && IsWalk(g, s, w, t) && (w == [] || WalkScore(decay, base[s], w) > 0.0)
    ensures t in v && v[t].score >= WalkScore(decay, base[s], w)
    decreases |w|
  {
    hide Along;
    if w != [] {
      hide IsWalk;
      var front, e := w[..|w|-1], w[|w|-1];
      LastStep(g, decay, base[s], s, w, t);
      SettledCovers(g, decay, base, v, s, front, e.parent);
      AlongMonotone(decay, WalkScore(decay, base[s], front), v[e.parent].score, e);
      assert Served(decay, v, v, e);
    }
  }

  lemma EmptyFrontierIsBest(g: set<Edge>, decay: real, v0: Visited, v: Visited, h: int)
    requires 0.0 < decay < 1.0
    requires RoundInv(g, decay, v0, v, h) && (forall id :: id in v ==> v[id].hop < h)
    ensures Best(g, decay, Base(v0), v)
  {
    hide Along;
    hide Traced;
    hide Sound;
    hide BestUpTo;
    hide IsWalk;
    hide WalkScore;
    forall e | e in g ensures Served(decay, v, v, e) {
    }
    hide Served;
    var base := Base(v0);
    forall s, w, t | s in base && IsWalk(g, s, w, t) && (w == [] || WalkScore(decay, base[s], w) > 0.0)
      ensures t in v && v[t].score >= WalkScore(decay, base[s], w)
    {
      SettledCovers(g, decay, base, v, s, w, t);
    }
  }

  // ---- The methods ----

  /** The ids at the given hop; the loop over a Go map visits them in any order. */
  method CollectAtHop(v: Visited, hop: int) returns (current: seq<Id>)
    ensures forall id :: id in current <==> id in v && v[id].hop == hop
  {
    current := [];
    var todo := v.Keys;
    while todo != {}
      invariant todo <= v.Keys
      invariant forall id :: id in current <==> id in v && id !in todo && v[id].hop == hop
      decreases |todo|
    {
      var id :| id in todo;
      if v[id].hop == hop {
        current := current + [id];
      }
      todo := todo - {id};
    }
  }

  /** The store answers with exactly the edges that leave the given nodes, in an order of its own, or fails. */
  method FetchNeighbors(g: set<Edge>, current: seq<Id>, down: bool) returns (r: Result<seq<Edge>>)
    ensures r.Err? <==> down
    ensures r.Ok? ==> forall e :: e in r.value <==> e in g && e.parent in current
  {
    if down {
      return Err;
    }
    var rows: seq<Edge> := [];
    var todo := g;
    while todo != {}
      invariant todo <= g
      invariant forall e :: e in rows <==> e in g && e !in todo && e.parent in current
      decreases |todo|
    {
      var e :| e in todo;
      if e.parent in current {
        rows := rows + [e];
      }
      todo := todo - {e};
    }
    r := Ok(rows);
  }

  /** One row: scored by what its parent scores now, dropped at score 0, kept when new or better. */
  method Visit(v: Visited, n: Edge, hop: int, decay: real) returns (visited: Visited)
    ensures visited == Relax(v, n, hop, decay)
  {
    visited := v;
    var parentScore := if n.parent in v then v[n.parent].score else 0.0;
    var score := ComputeScore(parentScore, decay, n.edgeType, n.provenance);
    if score <= 0.0 {
      return;
    }
    if n.child in v {
      if score <= v[n.child].score {
        return;
      }
    }
    visited := visited[n.child := BFSState(n.child, n.details, score, hop + 1, n.parent, n.edgeType, n.provenance)];
  }

  lemma {:induction false} RoundKeyed(v: Visited, rows: seq<Edge>, hop: int, decay: real)
    requires Keyed(v)
    ensures Keyed(RelaxAll(v, rows, hop, decay))
  {
    hide Along;
    if rows != [] {
      RoundKeyed(v, rows[..|rows|-1], hop, decay);
    }
  }

  ghost predicate AtHopZero(seeds: seq<BFSState>) {
    forall i :: 0 <= i < |seeds| ==> seeds[i].hop == 0
  }

  lemma {:induction false} SeedsAreKeyed(seeds: seq<BFSState>)
    requires AtHopZero(seeds)
    ensures Keyed(SeedMap(seeds))
    ensures forall id :: id in SeedMap(seeds) ==> SeedMap(seeds)[id] in seeds && SeedMap(seeds)[id].hop == 0
  {
    if seeds != [] {
      SeedsAreKeyed(seeds[..|seeds|-1]);
    }
  }

  /** A repeated seed counts as it is named last. */
  lemma {:induction false} LastSeedWins(seeds: seq<BFSState>, i: nat)
    requires i < |seeds| && forall j :: i < j < |seeds| ==> seeds[j].id != seeds[i].id
    ensures seeds[i].id in SeedMap(seeds) && SeedMap(seeds)[seeds[i].id] == seeds[i]
  {
    if i < |seeds| - 1 {
      LastSeedWins(seeds[..|seeds|-1], i);
    }
  }

  lemma SeedsAreConsistent(g: set<Edge>, decay: real, seeds: seq<BFSState>)
    requires AtHopZero(seeds)
    ensures Consistent(g, decay, SeedMap(seeds), SeedMap(seeds))
  {
    hide SeedMap;
    hide ReachedBy;
    SeedsAreKeyed(seeds);
    var v0 := SeedMap(seeds);
    forall id | id in v0 ensures Carried(g, decay, Base(v0), id, v0[id].score) {
      assert IsWalk(g, id, [], id) && WalkScore(decay, Base(v0)[id], []) == v0[id].score;
    }
  }

  lemma SeedsAreRoundZero(g: set<Edge>, decay: real, seeds: seq<BFSState>)
    requires AtHopZero(seeds)
    ensures RoundInv(g, decay, SeedMap(seeds), SeedMap(seeds), 0)
  {
    SeedsAreKeyed(seeds);
    SeedsAreConsistent(g, decay, seeds);
  }

  /**
   For every graph and every order in which the store answers. outage says at which hop the store would fail. answers
   are the store's answers: the loop stops only at the hop limit, at an outage, or when no node waits.
   */
  method RunBFS(g: set<Edge>, seeds: seq<BFSState>, hopDepth: int, decay: real, outage: int -> bool)
    returns (r: Result<Visited>, ghost answers: seq<seq<Edge>>)
    requires AtHopZero(seeds)
    ensures LegalRun(g, SeedMap(seeds), answers, decay, outage)
    ensures r.Err? <==>
      |answers| < hopDepth && Waiting(Rounds(SeedMap(seeds), answers, decay), |answers|) && outage(|answers|)
    ensures r.Ok? ==> Keyed(r.value) && Complete(g, SeedMap(seeds), decay, hopDepth, answers, outage, r.value)
    ensures r.Ok? && 0.0 < decay < 1.0 ==>
      var v0, v := SeedMap(seeds), r.value;
      && Consistent(g, decay, v0, v)
      && HopsWithin(v, if hopDepth < 0 then 0 else hopDepth)
      && BestUpTo(g, decay, Base(v0), v, hopDepth)
      && ((forall id :: id in v ==> v[id].hop < hopDepth) ==> Best(g, decay, Base(v0), v))
  {
    hide Consistent;
    hide Settled;
    hide Best;
    hide BestUpTo;
    hide Relax;
    hide LegalRun;
    hide Rounds;
    var visited: Visited := map[];
    for i := 0 to |seeds|
      invariant visited == SeedMap(seeds[..i])
    {
      assert seeds[..i+1][..i] == seeds[..i];
      visited := visited[seeds[i].id := seeds[i]];
    }
    assert seeds[..|seeds|] == seeds;
    ghost var v0 := visited;
    SeedsAreKeyed(seeds);
    SeedsAreRoundZero(g, decay, seeds);
    answers := [];
    NoRoundYet(g, v0, decay, outage);
    var hop := 0;
    while hop < hopDepth
      invariant hop == |answers| && visited == Rounds(v0, answers, decay) && LegalRun(g, v0, answers, decay, outage)
      invariant 0 <= hop && (hop <= hopDepth || hop == 0)
      invariant Keyed(visited) && (0.0 < decay < 1.0 ==> RoundInv(g, decay, v0, visited, hop))
    {
      var current := CollectAtHop(visited, hop);
      if |current| == 0 {
        if 0.0 < decay < 1.0 {
          NothingLeft(g, decay, v0, visited, hop, hopDepth);
        }
        return Ok(visited), answers;
      }
      assert current[0] in current;
      var answer := FetchNeighbors(g, current, outage(hop));
      if answer.Err? {
        return Err, answers;
      }
      var rows := answer.value;
      OneMoreRound(g, v0, answers, rows, decay, outage);
      ghost var before := visited;
      for i := 0 to |rows|
        invariant visited == RelaxAll(before, rows[..i], hop, decay)
      {
        assert rows[..i+1][..i] == rows[..i];
        visited := Visit(visited, rows[i], hop, decay);
      }
      assert rows[..|rows|] == rows;
      RoundKeyed(before, rows, hop, decay);
      if 0.0 < decay < 1.0 {
        RoundStep(g, decay, v0, before, rows, hop);
      }
      answers := answers + [rows];
      hop := hop + 1;
    }
    if 0.0 < decay < 1.0 {
      LimitReached(g, decay, v0, visited, hop, hopDepth);
    }
    return Ok(visited), answers;
  }

  lemma NothingLeft(g: set<Edge>, decay: real, v0: Visited, v: Visited, h: int, hopDepth: int)
    requires 0.0 < decay < 1.0
    requires RoundInv(g, decay, v0, v, h) && (forall id :: id in v ==> v[id].hop != h)
    ensures Best(g, decay, Base(v0), v) && BestUpTo(g, decay, Base(v0), v, hopDepth)
  {
    hide Consistent;
    hide Settled;
    hide Best;
    hide BestUpTo;
    EmptyFrontierIsBest(g, decay, v0, v, h);
    BestBoundsAnyLength(g, decay, Base(v0), v, hopDepth);
  }

  lemma LimitReached(g: set<Edge>, decay: real, v0: Visited, v: Visited, h: int, hopDepth: int)
    requires 0.0 < decay < 1.0 && RoundInv(g, decay, v0, v, h) && hopDepth <= h
    ensures BestUpTo(g, decay, Base(v0), v, hopDepth)
    ensures (forall id :: id in v ==> v[id].hop < hopDepth) ==> Best(g, decay, Base(v0), v)
  {
    hide Consistent;
    hide Settled;
    hide HopsWithin;
    hide Best;
    hide BestUpTo;
    FewerEdges(g, decay, Base(v0), v, hopDepth, h);
    if forall id :: id in v ==> v[id].hop < hopDepth {
      EmptyFrontierIsBest(g, decay, v0, v, h);
    }
  }

  lemma FewerEdges(g: set<Edge>, decay: real, base: map<Id, real>, v: Visited, m: int, n: int)
    requires m <= n && BestUpTo(g, decay, base, v, n)
    ensures BestUpTo(g, decay, base, v, m)
  {
  }

  lemma BestBoundsAnyLength(g: set<Edge>, decay: real, base: map<Id, real>, v: Visited, n: int)
    requires Best(g, decay, base, v)
    ensures BestUpTo(g, decay, base, v, n)
  {
  }

  // ---- Results about any outcome of the loop ----

  /** With as many hops as there are other nodes, the cut-off hides nothing: cycles never help a walk. */
  lemma DeepEnoughIsBest(g: set<Edge>, decay: real, base: map<Id, real>, v: Visited, V: set<Id>, hopDepth: int)
    requires 0.0 < decay < 1.0 && Spans(V, base, g) && |V| - 1 <= hopDepth
    requires BestUpTo(g, decay, base, v, hopDepth)
    ensures Best(g, decay, base, v)
  {
    hide Along;
    forall s, w, t | s in base && IsWalk(g, s, w, t) && (w == [] || WalkScore(decay, base[s], w) > 0.0)
      ensures t in v && v[t].score >= WalkScore(decay, base[s], w)
    {
      if w == [] {
        assert s in V && |V - {s}| == |V| - 1;
      } else {
        WalkShrinks(decay, base[s], w);
        var w' := ShortWalkSuffices(g, decay, base[s], V, s, w, t);
        assert |w'| <= hopDepth;
      }
    }
  }

  /** Two complete outcomes agree on which nodes are found and on every score, whatever the orders were. */
  lemma OrderDoesNotMatter(g: set<Edge>, decay: real, v0: Visited, v: Visited, v': Visited)
    requires 0.0 < decay < 1.0
    requires Consistent(g, decay, v0, v) && Best(g, decay, Base(v0), v)
    requires Consistent(g, decay, v0, v') && Best(g, decay, Base(v0), v')
    ensures v.Keys == v'.Keys
    ensures forall id :: id in v ==> v[id].score == v'[id].score
  {
    hide Consistent;
    hide Best;
    forall id | id in v ensures id in v' && v[id].score <= v'[id].score {
      BestDominates(g, decay, v0, v, v', id);
    }
    forall id | id in v' ensures id in v && v'[id].score <= v[id].score {
      BestDominates(g, decay, v0, v', v, id);
    }
  }

  lemma BestDominates(g: set<Edge>, decay: real, v0: Visited, v: Visited, v': Visited, id: Id)
    requires 0.0 < decay < 1.0
    requires Consistent(g, decay, v0, v) && Consistent(g, decay, v0, v') && Best(g, decay, Base(v0), v')
    requires id in v
    ensures id in v' && v[id].score <= v'[id].score
  {
    hide Consistent;
    hide WalkScore;
    hide IsWalk;
    if v[id].hop == 0 {
      SeedsStay(g, decay, v0, v, id);
      SeedsStay(g, decay, v0, v', id);
    } else {
      var r, w := WalkBehind(g, decay, v0, v, id);
    }
  }

  lemma SeedsStay(g: set<Edge>, decay: real, v0: Visited, v: Visited, id: Id)
    requires Consistent(g, decay, v0, v)
    ensures id in v0 ==> id in v && v[id].score >= v0[id].score
    ensures id in v && v[id].hop == 0 ==> id in v0 && v[id] == v0[id]
  {
  }

  /** The walk a recorded score comes from. */
  lemma WalkBehind(g: set<Edge>, decay: real, v0: Visited, v: Visited, id: Id) returns (r: Id, w: seq<Edge>)
    requires Consistent(g, decay, v0, v) && id in v && v[id].hop != 0
    ensures r in Base(v0) && IsWalk(g, r, w, id) && v[id].score == WalkScore(decay, Base(v0)[r], w) > 0.0
  {
    hide WalkScore;
    hide IsWalk;
    hide Consistent;
    FoundIsPositive(g, decay, v0, v, id);
    ScoreIsCarried(g, decay, v0, v, id);
    r, w :| r in Base(v0) && IsWalk(g, r, w, id) && v[id].score == WalkScore(decay, Base(v0)[r], w);
  }

  lemma ScoreIsCarried(g: set<Edge>, decay: real, v0: Visited, v: Visited, id: Id)
    requires Consistent(g, decay, v0, v) && id in v
    ensures Carried(g, decay, Base(v0), id, v[id].score)
  {
    hide Traced;
    hide Carried;
  }

  lemma FoundIsPositive(g: set<Edge>, decay: real, v0: Visited, v: Visited, id: Id)
    requires Consistent(g, decay, v0, v) && id in v && v[id].hop != 0
    ensures v[id].score > 0.0
  {
    hide Sound;
    hide ReachedBy;
    var e :| ReachedBy(g, decay, v, id, e);
    ReachedByParent(g, decay, v, id, e);
  }
}
