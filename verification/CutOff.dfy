/**
 What the hop limit does to scores. Every traversal scores at least the best walk within the limit; the slowest one
 scores exactly that; others may score more, because a parent's score may rise within a round.
 */
module CutOff {
  import opened Scoring
  import opened Walks
  import opened Bfs

  /** v is an outcome of a traversal of at most n hops, for some order of every answer. */
  ghost predicate Reachable(g: set<Edge>, v0: Visited, decay: real, n: nat, v: Visited) {
    exists answers, outage: int -> bool :: Complete(g, v0, decay, n, answers, outage, v)
  }

  /** Some walk of at most n edges from a seed carries at least s to id. */
  ghost predicate CarriedWithin(g: set<Edge>, decay: real, base: map<Id, real>, id: Id, s: real, n: nat) {
    exists r, w :: r in base && IsWalk(g, r, w, id) && |w| <= n && s <= WalkScore(decay, base[r], w)
  }

  /** No score exceeds the best over walks of at most n edges. */
  ghost predicate Within(g: set<Edge>, decay: real, base: map<Id, real>, v: Visited, n: nat) {
    forall id :: id in v ==> CarriedWithin(g, decay, base, id, v[id].score, n)
  }

  ghost predicate SameScores(v: Visited, v': Visited) {
    v.Keys == v'.Keys && forall id :: id in v ==> v[id].score == v'[id].score
  }

  // ---- Reading rows in ascending order of their parents' scores ----

  ghost predicate Ascending(v: Visited, rows: seq<Edge>) {
    forall i, j :: 0 <= i < j < |rows| ==> ParentScore(v, rows[i].parent) <= ParentScore(v, rows[j].parent)
  }

  ghost predicate FromVisited(v: Visited, rows: seq<Edge>) {
    forall i :: 0 <= i < |rows| ==> rows[i].parent in v
  }

  /** A node that scores at least as much as every row's parent is left alone by all rows. */
  lemma {:induction false} StrongestUntouched(v: Visited, rows: seq<Edge>, hop: int, decay: real, id: Id)
    requires 0.0 < decay < 1.0 && Ascending(v, rows) && FromVisited(v, rows) && id in v
    requires forall i :: 0 <= i < |rows| ==> ParentScore(v, rows[i].parent) <= v[id].score
    ensures var v' := RelaxAll(v, rows, hop, decay); id in v' && v'[id] == v[id]
    decreases |rows|
  {
    hide Relax;
    if rows != [] {
      var rest, e := rows[..|rows|-1], rows[|rows|-1];
      StrongestUntouched(v, rest, hop, decay, id);
      StrongestUntouched(v, rest, hop, decay, e.parent);
      var updated, score := RelaxCases(RelaxAll(v, rest, hop, decay), e, hop, decay);
    }
  }

  lemma StrongerParent(g: set<Edge>, decay: real, base: map<Id, real>, s: real, e: Edge, h: nat)
    requires 0.0 < decay < 1.0 && e in g && CarriedWithin(g, decay, base, e.parent, s, h)
    ensures CarriedWithin(g, decay, base, e.child, Along(decay, s, e), h + 1)
  {
    hide Along;
    hide WalkScore;
    hide IsWalk;
    var r, w :| r in base && IsWalk(g, r, w, e.parent) && |w| <= h && s <= WalkScore(decay, base[r], w);
    ExtendWalk(g, decay, base[r], r, w, e);
    AlongMonotone(decay, s, WalkScore(decay, base[r], w), e);
    assert |w + [e]| <= h + 1;
  }

  lemma LongerLimit(g: set<Edge>, decay: real, base: map<Id, real>, v: Visited, m: nat, n: nat)
    requires m <= n && Within(g, decay, base, v, m)
    ensures Within(g, decay, base, v, n)
  {
  }

  /** In ascending order no row sees a parent that rose in the round, so a round adds one edge and no more. */
  lemma {:induction false} AscendingAddsOneEdge(
    g: set<Edge>, decay: real, base: map<Id, real>, v: Visited, rows: seq<Edge>, h: nat)
    requires 0.0 < decay < 1.0 && Ascending(v, rows) && FromVisited(v, rows) && Within(g, decay, base, v, h)
    requires forall i :: 0 <= i < |rows| ==> rows[i] in g
    ensures Within(g, decay, base, RelaxAll(v, rows, h, decay), h + 1)
    decreases |rows|
  {
    hide Relax;
    hide Along;
    hide CarriedWithin;
    if rows == [] {
      LongerLimit(g, decay, base, v, h, h + 1);
    } else {
      var rest, e := rows[..|rows|-1], rows[|rows|-1];
      AscendingAddsOneEdge(g, decay, base, v, rest, h);
      StrongestUntouched(v, rest, h, decay, e.parent);
      StrongerParent(g, decay, base, v[e.parent].score, e, h);
      var updated, score := RelaxCases(RelaxAll(v, rest, h, decay), e, h, decay);
    }
  }

  lemma {:induction false} StrongestParent(v: Visited, S: set<Edge>) returns (e: Edge)
    requires S != {}
    ensures e in S && forall f :: f in S ==> ParentScore(v, f.parent) <= ParentScore(v, e.parent)
    decreases |S|
  {
    e :| e in S;
    if S != {e} {
      var f := StrongestParent(v, S - {e});
      if ParentScore(v, e.parent) < ParentScore(v, f.parent) { e := f; }
    }
  }

  lemma AscendingAppend(v: Visited, rows: seq<Edge>, e: Edge)
    requires Ascending(v, rows) && forall f :: f in rows ==> ParentScore(v, f.parent) <= ParentScore(v, e.parent)
    ensures Ascending(v, rows + [e])
  {
  }

  lemma {:induction false} AscendingListing(v: Visited, S: set<Edge>) returns (rows: seq<Edge>)
    ensures Ascending(v, rows) && forall e :: e in rows <==> e in S
    decreases |S|
  {
    if S == {} {
      rows := [];
    } else {
      var e := StrongestParent(v, S);
      var rest := AscendingListing(v, S - {e});
      AscendingAppend(v, rest, e);
      rows := rest + [e];
    }
  }

  // ---- The slowest traversal ----

  function NoOutage(h: int): bool {
    false
  }

  lemma StartIsWithin(g: set<Edge>, decay: real, v0: Visited)
    ensures Within(g, decay, Base(v0), v0, 0)
  {
    forall id | id in v0 ensures CarriedWithin(g, decay, Base(v0), id, v0[id].score, 0) {
      assert IsWalk(g, id, [], id) && WalkScore(decay, Base(v0)[id], []) == v0[id].score;
    }
  }

  lemma SlowRound(g: set<Edge>, decay: real, v0: Visited, v: Visited, h: nat) returns (rows: seq<Edge>)
    requires 0.0 < decay < 1.0 && Waiting(v, h) && Within(g, decay, Base(v0), v, h)
    ensures LegalRound(g, v, h, rows, NoOutage) && Within(g, decay, Base(v0), RelaxAll(v, rows, h, decay), h + 1)
  {
    hide CarriedWithin;
    rows := AscendingListing(v, set e | e in g && e.parent in v && v[e.parent].hop == h);
    forall i | 0 <= i < |rows| ensures rows[i] in g && rows[i].parent in v { assert rows[i] in rows; }
    AscendingAddsOneEdge(g, decay, Base(v0), v, rows, h);
  }

  lemma {:induction false} SlowRun(g: set<Edge>, decay: real, v0: Visited, n: nat) returns (answers: seq<seq<Edge>>)
    requires 0.0 < decay < 1.0
    ensures Complete(g, v0, decay, n, answers, NoOutage, Rounds(v0, answers, decay))
    ensures Within(g, decay, Base(v0), Rounds(v0, answers, decay), |answers|)
  {
    hide LegalRun;
    hide Within;
    hide RelaxAll;
    hide Rounds;
    if n == 0 {
      answers := [];
      NoRoundYet(g, v0, decay, NoOutage);
      StartIsWithin(g, decay, v0);
    } else {
      answers := SlowRun(g, decay, v0, n - 1);
      var v := Rounds(v0, answers, decay);
      if |answers| == n - 1 && Waiting(v, n - 1) {
        var rows := SlowRound(g, decay, v0, v, n - 1);
        hide LegalRound;
        OneMoreRound(g, v0, answers, rows, decay, NoOutage);
        answers := answers + [rows];
      }
    }
  }

  // ---- Every traversal ----

  lemma {:induction false} RunKeepsInv(
    g: set<Edge>, decay: real, v0: Visited, answers: seq<seq<Edge>>, outage: int -> bool)
    requires 0.0 < decay < 1.0 && RoundInv(g, decay, v0, v0, 0) && LegalRun(g, v0, answers, decay, outage)
    ensures RoundInv(g, decay, v0, Rounds(v0, answers, decay), |answers|)
    decreases |answers|
  {
    hide RoundInv;
    hide RelaxAll;
    hide RowsOf;
    hide LegalRun;
    if answers != [] {
      var front, last := answers[..|answers|-1], answers[|answers|-1];
      LegalFront(g, decay, v0, answers, outage);
      RunKeepsInv(g, decay, v0, front, outage);
      RoundStep(g, decay, v0, Rounds(v0, front, decay), last, |front|);
    }
  }

  lemma LegalFront(g: set<Edge>, decay: real, v0: Visited, answers: seq<seq<Edge>>, outage: int -> bool)
    requires answers != [] && LegalRun(g, v0, answers, decay, outage)
    ensures var front := answers[..|answers|-1];
      LegalRun(g, v0, front, decay, outage)
      && LegalRound(g, Rounds(v0, front, decay), |front|, answers[|front|], outage)
  {
    hide LegalRound;
    hide Rounds;
    var front := answers[..|answers|-1];
    assert forall h :: 0 <= h < |front| ==> front[..h] == answers[..h];
  }

  lemma ReachableIsBest(g: set<Edge>, decay: real, seeds: seq<BFSState>, n: nat, v: Visited)
    requires 0.0 < decay < 1.0 && AtHopZero(seeds) && Reachable(g, SeedMap(seeds), decay, n, v)
    ensures Consistent(g, decay, SeedMap(seeds), v) && BestUpTo(g, decay, Base(SeedMap(seeds)), v, n)
  {
    hide Consistent;
    hide Best;
    hide BestUpTo;
    hide LegalRun;
    hide Rounds;
    hide Settled;
    var v0 := SeedMap(seeds);
    hide SeedMap;
    SeedsAreRoundZero(g, decay, seeds);
    var answers, outage: int -> bool :| Complete(g, v0, decay, n, answers, outage, v);
    RunKeepsInv(g, decay, v0, answers, outage);
    if |answers| >= n {
      LimitReached(g, decay, v0, v, |answers|, n);
    } else {
      NothingLeft(g, decay, v0, v, |answers|, n);
    }
  }

  /** The lower bound is attained: in some traversal every score is exactly the best over walks of at most n edges. */
  lemma CutOffIsAttained(g: set<Edge>, decay: real, seeds: seq<BFSState>, n: nat) returns (v: Visited)
    requires 0.0 < decay < 1.0 && AtHopZero(seeds)
    ensures Reachable(g, SeedMap(seeds), decay, n, v)
    ensures BestUpTo(g, decay, Base(SeedMap(seeds)), v, n) && Within(g, decay, Base(SeedMap(seeds)), v, n)
  {
    var v0 := SeedMap(seeds);
    hide SeedMap;
    hide BestUpTo;
    hide Within;
    hide LegalRun;
    hide Rounds;
    var answers := SlowRun(g, decay, v0, n);
    v := Rounds(v0, answers, decay);
    LongerLimit(g, decay, Base(v0), v, |answers|, n);
    ReachableIsBest(g, decay, seeds, n, v);
  }

  /** An outcome within the bound scores no more than any other outcome. */
  lemma WithinIsDominated(g: set<Edge>, decay: real, v0: Visited, n: nat, v: Visited, v': Visited, id: Id)
    requires 0.0 < decay < 1.0 && id in v
    requires Consistent(g, decay, v0, v) && Within(g, decay, Base(v0), v, n)
    requires Consistent(g, decay, v0, v') && BestUpTo(g, decay, Base(v0), v', n)
    ensures id in v' && v[id].score <= v'[id].score
  {
    hide Consistent;
    hide WalkScore;
    hide IsWalk;
    if v[id].hop == 0 {
      SeedsStay(g, decay, v0, v, id);
      SeedsStay(g, decay, v0, v', id);
    } else {
      FoundIsPositive(g, decay, v0, v, id);
      assert CarriedWithin(g, decay, Base(v0), id, v[id].score, n);
      var r, w :| r in Base(v0) && IsWalk(g, r, w, id) && |w| <= n && v[id].score <= WalkScore(decay, Base(v0)[r], w);
    }
  }

  lemma WithinAgree(g: set<Edge>, decay: real, v0: Visited, n: nat, v: Visited, v': Visited)
    requires 0.0 < decay < 1.0
    requires Consistent(g, decay, v0, v) && Within(g, decay, Base(v0), v, n) && BestUpTo(g, decay, Base(v0), v, n)
    requires Consistent(g, decay, v0, v') && Within(g, decay, Base(v0), v', n) && BestUpTo(g, decay, Base(v0), v', n)
    ensures SameScores(v, v')
  {
    hide Consistent;
    hide Within;
    hide BestUpTo;
    forall id | id in v ensures id in v' && v[id].score <= v'[id].score {
      WithinIsDominated(g, decay, v0, n, v, v', id);
    }
    forall id | id in v' ensures id in v && v'[id].score <= v[id].score {
      WithinIsDominated(g, decay, v0, n, v', v, id);
    }
  }

  lemma SameScoresWithin(g: set<Edge>, decay: real, base: map<Id, real>, v: Visited, v': Visited, n: nat)
    requires SameScores(v, v') && Within(g, decay, base, v, n)
    ensures Within(g, decay, base, v', n)
  {
  }

  ghost predicate OrderIsImmaterial(g: set<Edge>, decay: real, seeds: seq<BFSState>, n: nat) {
    forall v, v' ::
      Reachable(g, SeedMap(seeds), decay, n, v) && Reachable(g, SeedMap(seeds), decay, n, v') ==> SameScores(v, v')
  }

  ghost predicate NoneExceeds(g: set<Edge>, decay: real, seeds: seq<BFSState>, n: nat) {
    forall v :: Reachable(g, SeedMap(seeds), decay, n, v) ==> Within(g, decay, Base(SeedMap(seeds)), v, n)
  }

  /** The orders of the answers matter exactly when some traversal scores above the best walk within the limit. */
  lemma OrderMattersIff(g: set<Edge>, decay: real, seeds: seq<BFSState>, n: nat)
    requires 0.0 < decay < 1.0 && AtHopZero(seeds)
    ensures OrderIsImmaterial(g, decay, seeds, n) <==> NoneExceeds(g, decay, seeds, n)
  {
    var v0 := SeedMap(seeds);
    hide SeedMap;
    hide Within;
    hide BestUpTo;
    hide Consistent;
    hide Reachable;
    hide SameScores;
    var slow := CutOffIsAttained(g, decay, seeds, n);
    if OrderIsImmaterial(g, decay, seeds, n) {
      forall v | Reachable(g, v0, decay, n, v) ensures Within(g, decay, Base(v0), v, n) {
        SameScoresWithin(g, decay, Base(v0), slow, v, n);
      }
    }
    if NoneExceeds(g, decay, seeds, n) {
      forall v, v' | Reachable(g, v0, decay, n, v) && Reachable(g, v0, decay, n, v') ensures SameScores(v, v') {
        ReachableIsBest(g, decay, seeds, n, v);
        ReachableIsBest(g, decay, seeds, n, v');
        WithinAgree(g, decay, v0, n, v, v');
      }
    }
  }

  // ---- Graphs on which the limit hides nothing ----

  /** A condition on the graph alone: no longer walk beats the best one within n edges. */
  ghost predicate NoLongWalkBeats(g: set<Edge>, decay: real, base: map<Id, real>, n: nat) {
    forall s, w, t :: s in base && IsWalk(g, s, w, t) && WalkScore(decay, base[s], w) > 0.0 ==>
      CarriedWithin(g, decay, base, t, WalkScore(decay, base[s], w), n)
  }

  lemma CarriedIsWithin(g: set<Edge>, decay: real, v0: Visited, v: Visited, n: nat, id: Id)
    requires 0.0 < decay < 1.0 && Consistent(g, decay, v0, v) && NoLongWalkBeats(g, decay, Base(v0), n) && id in v
    ensures CarriedWithin(g, decay, Base(v0), id, v[id].score, n)
  {
    hide Consistent;
    if v[id].hop == 0 {
      SeedsStay(g, decay, v0, v, id);
      assert IsWalk(g, id, [], id) && WalkScore(decay, Base(v0)[id], []) == v[id].score;
    } else {
      hide WalkScore;
      hide IsWalk;
      hide CarriedWithin;
      var r, w := WalkBehind(g, decay, v0, v, id);
    }
  }

  /** Then every order gives the same scores, and they are the best over all walks. */
  lemma LimitHidesNothing(g: set<Edge>, decay: real, seeds: seq<BFSState>, n: nat)
    requires 0.0 < decay < 1.0 && AtHopZero(seeds) && NoLongWalkBeats(g, decay, Base(SeedMap(seeds)), n)
    ensures OrderIsImmaterial(g, decay, seeds, n)
    ensures forall v :: Reachable(g, SeedMap(seeds), decay, n, v) ==> Best(g, decay, Base(SeedMap(seeds)), v)
  {
    var v0 := SeedMap(seeds);
    hide SeedMap;
    hide Reachable;
    hide Consistent;
    hide BestUpTo;
    hide Best;
    hide CarriedWithin;
    hide NoLongWalkBeats;
    hide OrderIsImmaterial;
    forall v: Visited | Reachable(g, v0, decay, n, v)
      ensures Within(g, decay, Base(v0), v, n) && Best(g, decay, Base(v0), v)
    {
      ReachableIsBest(g, decay, seeds, n, v);
      forall id | id in v ensures CarriedWithin(g, decay, Base(v0), id, v[id].score, n) {
        CarriedIsWithin(g, decay, v0, v, n, id);
      }
      BestFromLimit(g, decay, v0, v, n);
    }
    OrderMattersIff(g, decay, seeds, n);
  }

  lemma BestFromLimit(g: set<Edge>, decay: real, v0: Visited, v: Visited, n: nat)
    requires NoLongWalkBeats(g, decay, Base(v0), n) && BestUpTo(g, decay, Base(v0), v, n)
    ensures Best(g, decay, Base(v0), v)
  {
  }

  /** As many hops as other nodes are enough for every graph. */
  lemma DeepEnoughHasNoLongWalk(g: set<Edge>, decay: real, base: map<Id, real>, V: set<Id>, n: nat)
    requires 0.0 < decay < 1.0 && Spans(V, base, g) && |V| - 1 <= n
    ensures NoLongWalkBeats(g, decay, base, n)
  {
    forall s, w, t | s in base && IsWalk(g, s, w, t) && WalkScore(decay, base[s], w) > 0.0
      ensures CarriedWithin(g, decay, base, t, WalkScore(decay, base[s], w), n)
    {
      hide IsWalk;
      WalkShrinks(decay, base[s], w);
      hide WalkScore;
      var w' := ShortWalkSuffices(g, decay, base[s], V, s, w, t);
      assert |w'| <= n;
    }
  }

  // ---- A graph on which order matters ----

  const A_TO_X := Edge("A", "X", "CALLS", "confirmed", "")
  const A_TO_Y := Edge("A", "Y", "CALLS", "conflict", "")
  const X_TO_Y := Edge("X", "Y", "CALLS", "confirmed", "")
  const Y_TO_Z := Edge("Y", "Z", "CALLS", "confirmed", "")
  const DIAMOND: set<Edge> := {A_TO_X, A_TO_Y, X_TO_Y, Y_TO_Z}
  const SEED_A := BFSState("A", "", 1.0, 0, "", "", "")
  const FIRST: seq<Edge> := [A_TO_X, A_TO_Y]
  const SLOW: seq<Edge> := [Y_TO_Z, X_TO_Y]
  const FAST: seq<Edge> := [X_TO_Y, Y_TO_Z]

  function AfterFirst(): Visited {
    map["A" := SEED_A, "X" := Found(A_TO_X, 0.9, 1), "Y" := Found(A_TO_Y, 0.54, 1)]
  }

  lemma FirstHop()
    ensures RelaxAll(map["A" := SEED_A], FIRST, 0, 0.9) == AfterFirst()
  {
    var v0 := map["A" := SEED_A];
    assert FIRST[..1] == [A_TO_X] && [A_TO_X][..0] == [];
    assert RelaxAll(v0, [A_TO_X], 0, 0.9) == v0["X" := Found(A_TO_X, 0.9, 1)];
  }

  lemma SlowScore()
    ensures var v := RelaxAll(AfterFirst(), SLOW, 1, 0.9); "Z" in v && v["Z"].score == 0.486
  {
    assert SLOW[..1] == [Y_TO_Z] && [Y_TO_Z][..0] == [];
    assert RelaxAll(AfterFirst(), [Y_TO_Z], 1, 0.9) == AfterFirst()["Z" := Found(Y_TO_Z, 0.486, 2)];
  }

  lemma FastScore()
    ensures var v := RelaxAll(AfterFirst(), FAST, 1, 0.9); "Z" in v && v["Z"].score == 0.729
  {
    assert FAST[..1] == [X_TO_Y] && [X_TO_Y][..0] == [];
    assert RelaxAll(AfterFirst(), [X_TO_Y], 1, 0.9) == AfterFirst()["Y" := Found(X_TO_Y, 0.81, 2)];
  }

  lemma ThreeEdgeWalk()
    ensures WalkScore(0.9, 1.0, [A_TO_X, X_TO_Y, Y_TO_Z]) == 0.729
  {
    assert [A_TO_X, X_TO_Y, Y_TO_Z][..2] == [A_TO_X, X_TO_Y];
    assert [A_TO_X, X_TO_Y][..1] == [A_TO_X] && [A_TO_X][..0] == [];
    assert WalkScore(0.9, 1.0, [A_TO_X]) == 0.9;
    assert WalkScore(0.9, 1.0, [A_TO_X, X_TO_Y]) == 0.81;
  }

  lemma SeedAlone()
    ensures SeedMap([SEED_A]) == map["A" := SEED_A] && AtHopZero([SEED_A])
  {
  }

  lemma FirstRound()
    ensures LegalRound(DIAMOND, map["A" := SEED_A], 0, FIRST, NoOutage)
  {
    var v0 := map["A" := SEED_A];
    assert "A" in v0 && v0["A"].hop == 0;
    assert FIRST[0] == A_TO_X && FIRST[1] == A_TO_Y;
    assert forall e :: e in FIRST <==> e == A_TO_X || e == A_TO_Y;
  }

  lemma SecondRound(last: seq<Edge>)
    requires last == SLOW || last == FAST
    ensures LegalRound(DIAMOND, AfterFirst(), 1, last, NoOutage)
  {
    assert AfterFirst()["X"].hop == 1 && AfterFirst()["Y"].hop == 1 && AfterFirst()["A"].hop == 0;
    assert last[0] in last && last[1] in last;
    assert forall e :: e in last <==> e == X_TO_Y || e == Y_TO_Z;
  }

  lemma TwoHops(last: seq<Edge>)
    requires last == SLOW || last == FAST
    ensures Complete(DIAMOND, SeedMap([SEED_A]), 0.9, 2, [FIRST, last], NoOutage, RelaxAll(AfterFirst(), last, 1, 0.9))
  {
    hide SeedMap;
    hide LegalRound;
    hide LegalRun;
    hide RelaxAll;
    hide Rounds;
    hide AfterFirst;
    var v0 := SeedMap([SEED_A]);
    SeedAlone();
    FirstRound();
    SecondRound(last);
    FirstHop();
    NoRoundYet(DIAMOND, v0, 0.9, NoOutage);
    OneMoreRound(DIAMOND, v0, [], FIRST, 0.9, NoOutage);
    assert [] + [FIRST] == [FIRST] && [FIRST] + [last] == [FIRST, last];
    OneMoreRound(DIAMOND, v0, [FIRST], last, 0.9, NoOutage);
  }

  ghost predicate CanScore(id: Id, s: real) {
    exists v: Visited :: Reachable(DIAMOND, SeedMap([SEED_A]), 0.9, 2, v) && id in v && v[id].score == s
  }

  /**
   Two traversals of two hops from A: if the answer to the second query names X -> Y first, Y's new score is already
   used by Y -> Z, and Z scores along a walk of three edges.
   */
  lemma CutOffDependsOnOrder()
    ensures AtHopZero([SEED_A]) && !OrderIsImmaterial(DIAMOND, 0.9, [SEED_A], 2)
    ensures CanScore("Z", 0.486) && CanScore("Z", 0.729)
    ensures WalkScore(0.9, 1.0, [A_TO_X, X_TO_Y, Y_TO_Z]) == 0.729
  {
    hide RelaxAll;
    hide SeedMap;
    hide AfterFirst;
    hide WalkScore;
    hide Complete;
    var slow, fast := RelaxAll(AfterFirst(), SLOW, 1, 0.9), RelaxAll(AfterFirst(), FAST, 1, 0.9);
    SeedAlone();
    SlowScore();
    FastScore();
    ThreeEdgeWalk();
    TwoHops(SLOW);
    TwoHops(FAST);
    assert Reachable(DIAMOND, SeedMap([SEED_A]), 0.9, 2, slow) && Reachable(DIAMOND, SeedMap([SEED_A]), 0.9, 2, fast);
    hide Reachable;
    assert !SameScores(slow, fast);
  }
}
