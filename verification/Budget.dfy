/** Pruning the traversal's nodes to a token budget. */
module Budget {
  import opened Walks
  import opened Bfs
  import opened Sorting

  const TOKENS_SEED_WITH_SPEC := 60
  const TOKENS_SEED_WITHOUT_SPEC := 120
  const TOKENS_PERIPHERAL := 20
  const TOKENS_CONFLICT_EDGE := 15

  type Specs = map<Id, string>

  function EstimateTokens(n: BFSState, hasSpec: bool): int {
    if n.hop == 0 then (if hasSpec then TOKENS_SEED_WITH_SPEC else TOKENS_SEED_WITHOUT_SPEC) else TOKENS_PERIPHERAL
  }

  function Cost(specs: Specs, n: BFSState): int {
    EstimateTokens(n, n.id in specs)
  }

  function ByScore(n: BFSState): real {
    n.score
  }

  /** The greedy pass over an already sorted list. */
  function Greedy(specs: Specs, sorted: seq<BFSState>, maxTokens: int): (seq<BFSState>, int) {
    if sorted == [] then ([], 0) else
      var (kept, used) := Greedy(specs, sorted[..|sorted|-1], maxTokens);
      var n := sorted[|sorted|-1];
      if n.hop == 0 || used + Cost(specs, n) <= maxTokens then (kept + [n], used + Cost(specs, n)) else (kept, used)
  }

  ghost predicate SortedListing(nodes: seq<BFSState>, sorted: seq<BFSState>) {
    multiset(sorted) == multiset(nodes) && Descending(ByScore, sorted)
  }

  method Prune(nodes: seq<BFSState>, specs: Specs, maxTokens: int) returns (surviving: seq<BFSState>, used: int)
    ensures exists sorted :: SortedListing(nodes, sorted) && (surviving, used) == Greedy(specs, sorted, maxTokens)
    ensures used == ListPrice(specs, surviving)
  {
    var order := SortDescending(ByScore, nodes);
    surviving, used := [], 0;
    for i := 0 to |order|
      invariant (surviving, used) == Greedy(specs, order[..i], maxTokens)
    {
      assert order[..i+1][..i] == order[..i];
      var n := order[i];
      var cost := EstimateTokens(n, n.id in specs);
      if n.hop == 0 || used + cost <= maxTokens {
        surviving := surviving + [n];
        used := used + cost;
      }
    }
    assert order[..|order|] == order;
    assert SortedListing(nodes, order);
    GreedyIsPriced(specs, order, maxTokens);
  }

  // ---- What nodes cost, in numbers ----

  /** 60 tokens for a seed with a spec, 120 for one without, 20 for any other node. */
  function ListPrice(specs: Specs, s: seq<BFSState>): int {
    if s == [] then 0 else
      var n := s[|s|-1];
      ListPrice(specs, s[..|s|-1]) + if n.hop == 0 && n.id in specs then 60 else if n.hop == 0 then 120 else 20
  }

  lemma {:induction false} GreedyIsPriced(specs: Specs, sorted: seq<BFSState>, maxTokens: int)
    ensures var (kept, used) := Greedy(specs, sorted, maxTokens); used == ListPrice(specs, kept)
  {
    if sorted != [] {
      var (kept, used) := Greedy(specs, sorted[..|sorted|-1], maxTokens);
      GreedyIsPriced(specs, sorted[..|sorted|-1], maxTokens);
      assert (kept + [sorted[|sorted|-1]])[..|kept|] == kept;
    }
  }

  /** Each node in turn is kept if it is a seed or still fits, and otherwise passed over without ending the pass. */
  lemma GreedyDecides(specs: Specs, sorted: seq<BFSState>, maxTokens: int, i: nat)
    requires i < |sorted|
    ensures var kept := Greedy(specs, sorted[..i], maxTokens).0;
      Greedy(specs, sorted[..i+1], maxTokens).0
      == if sorted[i].hop == 0 || ListPrice(specs, kept) + 20 <= maxTokens then kept + [sorted[i]] else kept
  {
    GreedyIsPriced(specs, sorted[..i], maxTokens);
    assert sorted[..i+1][..i] == sorted[..i];
  }

  ghost function SpecSeeds(specs: Specs, S: set<BFSState>): set<BFSState> {
    set n | n in S && n.hop == 0 && n.id in specs
  }

  ghost function PlainSeeds(specs: Specs, S: set<BFSState>): set<BFSState> {
    set n | n in S && n.hop == 0 && n.id !in specs
  }

  ghost function Others(S: set<BFSState>): set<BFSState> {
    set n | n in S && n.hop != 0
  }

  /** The same for a selection. */
  ghost function Price(specs: Specs, S: set<BFSState>): int {
    60 * |SpecSeeds(specs, S)| + 120 * |PlainSeeds(specs, S)| + 20 * |Others(S)|
  }

  lemma KindsWithout(specs: Specs, S: set<BFSState>, n: BFSState)
    ensures SpecSeeds(specs, S - {n}) == SpecSeeds(specs, S) - {n}
    ensures PlainSeeds(specs, S - {n}) == PlainSeeds(specs, S) - {n}
    ensures Others(S - {n}) == Others(S) - {n}
  {
  }

  lemma PriceWithout(specs: Specs, S: set<BFSState>, n: BFSState)
    requires n in S
    ensures Price(specs, S) == Price(specs, S - {n})
         + if n.hop == 0 && n.id in specs then 60 else if n.hop == 0 then 120 else 20
  {
    KindsWithout(specs, S, n);
    assert n in SpecSeeds(specs, S) <==> n.hop == 0 && n.id in specs;
    assert n in PlainSeeds(specs, S) <==> n.hop == 0 && n.id !in specs;
    assert n in Others(S) <==> n.hop != 0;
    hide SpecSeeds;
    hide PlainSeeds;
    hide Others;
  }

  // ---- Sums over selections ----

  ghost function TotalScore(S: set<BFSState>): real {
    if S == {} then 0.0 else var n :| n in S; n.score + TotalScore(S - {n})
  }

  lemma {:induction false} TotalScoreWithout(S: set<BFSState>, n: BFSState)
    requires n in S
    ensures TotalScore(S) == n.score + TotalScore(S - {n})
  {
    var m :| m in S && TotalScore(S) == m.score + TotalScore(S - {m});
    if m != n {
      TotalScoreWithout(S - {m}, n);
      TotalScoreWithout(S - {n}, m);
      assert S - {m} - {n} == S - {n} - {m};
    }
  }

  ghost function Members(s: seq<BFSState>): set<BFSState> {
    set n | n in s
  }

  ghost function Seeds(S: set<BFSState>): set<BFSState> {
    set n | n in S && n.hop == 0
  }

  /** Beyond the seeds every node costs the same, so a selection's price only depends on how many it takes. */
  lemma PriceSplits(specs: Specs, S: set<BFSState>)
    ensures Price(specs, S) == Price(specs, Seeds(S)) + 20 * |S - Seeds(S)|
  {
    assert SpecSeeds(specs, Seeds(S)) == SpecSeeds(specs, S) && PlainSeeds(specs, Seeds(S)) == PlainSeeds(specs, S);
    assert Others(Seeds(S)) == {} && Others(S) == S - Seeds(S);
  }

  lemma {:induction false} SubsetScoresLess(A: set<BFSState>, B: set<BFSState>)
    requires B <= A && (forall n :: n in A ==> n.score >= 0.0)
    ensures TotalScore(B) <= TotalScore(A)
    decreases |A|
  {
    if A == B {
    } else {
      assert !(A <= B);
      var n :| n in A && n !in B;
      TotalScoreWithout(A, n);
      SubsetScoresLess(A - {n}, B);
    }
  }

  /** Exchange argument: A wins if it is at least as large and beats B wherever the two differ. */
  lemma {:induction false} ExchangeBound(A: set<BFSState>, B: set<BFSState>)
    requires |B| <= |A| && (forall n :: n in A ==> n.score >= 0.0)
    requires forall a, b :: a in A - B && b in B - A ==> b.score <= a.score
    ensures TotalScore(B) <= TotalScore(A)
    decreases |B|
  {
    if B <= A {
      SubsetScoresLess(A, B);
    } else {
      var b :| b in B && b !in A;
      assert |B| == |A * B| + |B - A| by { assert B == A * B + (B - A); }
      assert A <= B ==> A * B == A;
      assert !(A <= B);
      var a :| a in A && a !in B;
      TotalScoreWithout(A, a);
      TotalScoreWithout(B, b);
      ExchangeBound(A - {a}, B - {b});
    }
  }

  // ---- The greedy pass on the traversal's output ----

  /** What a traversal from seeds of score 1 hands to Prune. */
  ghost predicate SeedsLead(s: seq<BFSState>) {
    && Distinct(s)
    && (forall a, b :: a in s && b in s && a.hop == 0 && b.hop != 0 ==> a.score > b.score)
    && (forall n :: n in s ==> n.score >= 0.0)
  }

  lemma MembersOfPrefix(s: seq<BFSState>, k: nat)
    requires k < |s| && Distinct(s)
    ensures Members(s[..k+1]) == Members(s[..k]) + {s[k]} && s[k] !in Members(s[..k])
  {
  }

  /** What the greedy pass has done to a listing: kept its first k nodes, all seeds among them. */
  ghost predicate PrefixKept(specs: Specs, sorted: seq<BFSState>, maxTokens: int, k: nat) {
    && k <= |sorted|
    && Greedy(specs, sorted, maxTokens) == (sorted[..k], Price(specs, Members(sorted[..k])))
    && (forall i :: k <= i < |sorted| ==> sorted[i].hop != 0)
    && (k < |sorted| ==> Price(specs, Members(sorted[..k])) + 20 > maxTokens)
    && (Price(specs, Members(sorted[..k])) <= maxTokens || Seeds(Members(sorted[..k])) == Members(sorted[..k]))
  }

  lemma {:induction false} GreedyKeepsPrefix(specs: Specs, sorted: seq<BFSState>, maxTokens: int) returns (k: nat)
    requires Descending(ByScore, sorted) && SeedsLead(sorted)
    ensures PrefixKept(specs, sorted, maxTokens, k)
    decreases |sorted|
  {
    if sorted == [] {
      k := 0;
      assert Members(sorted[..k]) == {};
    } else {
      var last := |sorted| - 1;
      k := GreedyKeepsPrefix(specs, sorted[..last], maxTokens);
      if sorted[last].hop == 0 {
        SeedsBeforeSeeds(sorted, last);
        AllSeedsTaken(specs, sorted[..last], maxTokens, k);
      }
      BoundOfPrefix(specs, sorted[..last], maxTokens, k);
      hide PrefixKept;
      hide Price;
      var n := sorted[last];
      if k == last && (n.hop == 0 || Price(specs, Members(sorted[..last])) + 20 <= maxTokens) {
        TakeLast(specs, sorted, maxTokens);
        k := |sorted|;
      } else {
        SkipLast(specs, sorted, maxTokens, k);
      }
    }
  }

  lemma AllSeedsTaken(specs: Specs, sorted: seq<BFSState>, maxTokens: int, k: nat)
    requires PrefixKept(specs, sorted, maxTokens, k)
    requires forall i :: 0 <= i < |sorted| ==> sorted[i].hop == 0
    ensures k == |sorted|
  {
  }

  lemma BoundOfPrefix(specs: Specs, sorted: seq<BFSState>, maxTokens: int, k: nat)
    requires PrefixKept(specs, sorted, maxTokens, k)
    ensures k <= |sorted|
  {
  }

  lemma TakeLast(specs: Specs, sorted: seq<BFSState>, maxTokens: int)
    requires sorted != [] && Distinct(sorted)
    requires var last := |sorted| - 1;
      && PrefixKept(specs, sorted[..last], maxTokens, last)
      && if sorted[last].hop == 0 then forall n :: n in sorted ==> n.hop == 0
         else Price(specs, Members(sorted[..last])) + 20 <= maxTokens
    ensures PrefixKept(specs, sorted, maxTokens, |sorted|)
  {
    hide Price;
    var last := |sorted| - 1;
    var front, n := sorted[..last], sorted[last];
    PriceOfLonger(specs, sorted);
    assert front[..last] == front && sorted == front + [n] && sorted[..|sorted|] == sorted;
    assert Greedy(specs, front, maxTokens) == (front, Price(specs, Members(front)));
    assert Greedy(specs, sorted, maxTokens) == (sorted, Price(specs, Members(sorted)));
    if n.hop == 0 {
      assert Seeds(Members(sorted)) == Members(sorted);
    }
  }

  lemma PriceOfLonger(specs: Specs, s: seq<BFSState>)
    requires s != [] && Distinct(s)
    ensures Price(specs, Members(s)) == Price(specs, Members(s[..|s|-1])) + Cost(specs, s[|s|-1])
  {
    var last := |s| - 1;
    MembersOfPrefix(s, last);
    assert s[..last+1] == s;
    PriceWithout(specs, Members(s), s[last]);
    assert Members(s) - {s[last]} == Members(s[..last]);
  }

  lemma SkipLast(specs: Specs, sorted: seq<BFSState>, maxTokens: int, k: nat)
    requires sorted != [] && sorted[|sorted|-1].hop != 0
    requires PrefixKept(specs, sorted[..|sorted|-1], maxTokens, k)
    requires k == |sorted| - 1 ==> Price(specs, Members(sorted[..k])) + 20 > maxTokens
    ensures PrefixKept(specs, sorted, maxTokens, k)
  {
    assert sorted[..|sorted|-1][..k] == sorted[..k];
    forall i | k <= i < |sorted| ensures sorted[i].hop != 0 {
      if i < |sorted| - 1 { assert sorted[..|sorted|-1][i] == sorted[i]; }
    }
  }

  lemma SeedsBeforeSeeds(sorted: seq<BFSState>, last: nat)
    requires Descending(ByScore, sorted) && SeedsLead(sorted) && last == |sorted| - 1 && sorted[last].hop == 0
    ensures forall n :: n in sorted ==> n.hop == 0
    ensures forall i :: 0 <= i < |sorted| ==> sorted[i].hop == 0
  {
  }

  function Max(a: int, b: int): int {
    if a < b then b else a
  }

  /**
   The verdict on a pruned traversal: all seeds, then the best-scoring others while they fit; no selection that keeps
   the seeds within the same allowance scores more in total.
   */
  ghost predicate BestWithinBudget(specs: Specs, all: set<BFSState>, kept: set<BFSState>, used: int, maxTokens: int) {
    && kept <= all && Seeds(all) <= kept
    && (forall a, b :: a in kept && a.hop != 0 && b in all && b.score > a.score ==> b in kept)
    && used == Price(specs, kept) <= Max(maxTokens, Price(specs, Seeds(all)))
    && (kept != all ==> used + 20 > maxTokens)
    && (forall T :: IsRival(specs, all, T, maxTokens) ==> TotalScore(T) <= TotalScore(kept))
  }

  ghost predicate IsRival(specs: Specs, all: set<BFSState>, T: set<BFSState>, maxTokens: int) {
    T <= all && Seeds(all) <= T && Price(specs, T) <= Max(maxTokens, Price(specs, Seeds(all)))
  }

  lemma SizeSplits(all: set<BFSState>, S: set<BFSState>)
    requires S <= all && Seeds(all) <= S
    ensures Seeds(S) == Seeds(all) && |S| == |Seeds(all)| + |S - Seeds(all)|
  {
  }

  lemma RivalTakesNoMore(specs: Specs, all: set<BFSState>, kept: set<BFSState>, T: set<BFSState>, maxTokens: int)
    requires kept <= all && Seeds(all) <= kept && kept != all
    requires Price(specs, kept) + 20 > maxTokens
    requires IsRival(specs, all, T, maxTokens)
    ensures |T| <= |kept|
  {
    hide Price;
    PriceSplits(specs, T);
    PriceSplits(specs, kept);
    SizeSplits(all, T);
    SizeSplits(all, kept);
    hide Seeds;
  }

  lemma GreedyIsOptimal(specs: Specs, sorted: seq<BFSState>, k: nat, T: set<BFSState>, maxTokens: int)
    requires Descending(ByScore, sorted) && SeedsLead(sorted) && k <= |sorted|
    requires forall i :: k <= i < |sorted| ==> sorted[i].hop != 0
    requires k < |sorted| ==> Price(specs, Members(sorted[..k])) + 20 > maxTokens
    requires IsRival(specs, Members(sorted), T, maxTokens)
    ensures TotalScore(T) <= TotalScore(Members(sorted[..k]))
  {
    var kept, all := Members(sorted[..k]), Members(sorted);
    if kept == all {
      SubsetScoresLess(kept, T);
    } else {
      PrefixKeepsSeeds(sorted, k);
      assert sorted[..|sorted|] == sorted;
      RivalTakesNoMore(specs, all, kept, T, maxTokens);
      forall a, b | a in kept - T && b in T - kept ensures b.score <= a.score {
        PrefixBeatsRest(sorted, k, a, b);
      }
      ExchangeBound(kept, T);
    }
  }

  lemma PrefixKeepsSeeds(sorted: seq<BFSState>, k: nat)
    requires k <= |sorted| && forall i :: k <= i < |sorted| ==> sorted[i].hop != 0
    ensures Members(sorted[..k]) <= Members(sorted) && Seeds(Members(sorted)) <= Members(sorted[..k])
  {
  }

  lemma PrefixBeatsRest(sorted: seq<BFSState>, k: nat, a: BFSState, b: BFSState)
    requires Descending(ByScore, sorted) && k <= |sorted|
    requires a in Members(sorted[..k]) && b in Members(sorted) - Members(sorted[..k])
    ensures b.score <= a.score
  {
  }

  /** Prune on any sorted listing of a traversal. */
  lemma PrunedIsBest(specs: Specs, sorted: seq<BFSState>, maxTokens: int)
    requires Descending(ByScore, sorted) && SeedsLead(sorted)
    ensures var (kept, used) := Greedy(specs, sorted, maxTokens);
      && BestWithinBudget(specs, Members(sorted), Members(kept), used, maxTokens)
      && Descending(ByScore, kept) && Distinct(kept)
  {
    var k := GreedyKeepsPrefix(specs, sorted, maxTokens);
    KeptIsBest(specs, sorted, maxTokens, k);
    assert Greedy(specs, sorted, maxTokens) == (sorted[..k], Price(specs, Members(sorted[..k])));
    hide Greedy;
    hide Price;
    hide BestWithinBudget;
  }

  lemma KeptIsBest(specs: Specs, sorted: seq<BFSState>, maxTokens: int, k: nat)
    requires Descending(ByScore, sorted) && SeedsLead(sorted) && PrefixKept(specs, sorted, maxTokens, k)
    ensures var kept := Members(sorted[..k]);
      BestWithinBudget(specs, Members(sorted), kept, Price(specs, kept), maxTokens)
  {
    hide Greedy;
    hide Price;
    var kept, all := Members(sorted[..k]), Members(sorted);
    PrefixKeepsSeeds(sorted, k);
    forall a, b | a in kept && a.hop != 0 && b in all && b.score > a.score ensures b in kept {
      if b !in kept { PrefixBeatsRest(sorted, k, a, b); }
    }
    if Seeds(kept) == kept {
      assert kept == Seeds(all);
    }
    assert sorted[..|sorted|] == sorted;
    hide Seeds;
    forall T | IsRival(specs, all, T, maxTokens) ensures TotalScore(T) <= TotalScore(kept) {
      GreedyIsOptimal(specs, sorted, k, T, maxTokens);
    }
  }
}
