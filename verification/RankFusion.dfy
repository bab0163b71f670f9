/** Reciprocal rank fusion of several ranked lists. Scores are exact reals. */
module RankFusion {
  import opened Options
  import opened Sorting

  type Id = string

  datatype RankedNode = RankedNode(id: Id, name: string, typ: string, source: string)

  datatype SeedNode = SeedNode(id: Id, name: string, typ: string, score: real, retrieval: string)

  datatype Entry = Entry(score: real, name: string, typ: string, sources: set<string>)

  /** The contribution of one place in a list. */
  function Place(k: int, rank: nat): (s: real)
    requires k + rank + 1 != 0
    ensures k >= 0 ==> s > 0.0
  {
    assert k >= 0 ==> (k + rank + 1) as real > 0.0;
    1.0 / (k + rank + 1) as real
  }

  /** No place of a list of the given length divides by zero, which would score infinitely. */
  predicate Finite(k: int, length: nat) {
    k >= 0 || length < -k
  }

  predicate AllFinite(k: int, lists: seq<seq<RankedNode>>) {
    forall l :: 0 <= l < |lists| ==> Finite(k, |lists[l]|)
  }

  // ---- The reference: a node's fused score ----

  function ListScore(k: int, list: seq<RankedNode>, n: nat, id: Id): real
    requires n <= |list| && Finite(k, n)
  {
    if n == 0 then 0.0 else ListScore(k, list, n - 1, id) + if list[n-1].id == id then Place(k, n - 1) else 0.0
  }

  function Fused(k: int, lists: seq<seq<RankedNode>>, m: nat, id: Id): real
    requires m <= |lists| && AllFinite(k, lists)
  {
    if m == 0 then 0.0 else Fused(k, lists, m - 1, id) + ListScore(k, lists[m-1], |lists[m-1]|, id)
  }

  function Score(k: int, lists: seq<seq<RankedNode>>, id: Id): real
    requires AllFinite(k, lists)
  {
    Fused(k, lists, |lists|, id)
  }

  ghost predicate InList(list: seq<RankedNode>, n: nat, id: Id)
    requires n <= |list|
  {
    exists r :: 0 <= r < n && list[r].id == id
  }

  ghost predicate InLists(lists: seq<seq<RankedNode>>, m: nat, id: Id)
    requires m <= |lists|
  {
    exists l :: 0 <= l < m && InList(lists[l], |lists[l]|, id)
  }

  function Retrieval(sources: set<string>): string {
    if "vector" in sources && "graph" in sources then "both" else if "vector" in sources then "vector" else "graph"
  }

  ghost predicate FromSource(list: seq<RankedNode>, n: nat, id: Id, source: string)
    requires n <= |list|
  {
    exists r :: 0 <= r < n && list[r].id == id && list[r].source == source
  }

  ghost predicate HasSource(lists: seq<seq<RankedNode>>, m: nat, id: Id, source: string)
    requires m <= |lists|
  {
    exists l :: 0 <= l < m && FromSource(lists[l], |lists[l]|, id, source)
  }

  function Or<T>(a: Option<T>, b: Option<T>): Option<T> {
    if a.Some? then a else b
  }

  /** The name and type a list gives id where it first mentions it. */
  function ListLabel(list: seq<RankedNode>, n: nat, id: Id): Option<(string, string)>
    requires n <= |list|
  {
    if n == 0 then None
    else Or(ListLabel(list, n - 1, id), if list[n-1].id == id then Some((list[n-1].name, list[n-1].typ)) else None)
  }

  /** The name and type given by the first list that mentions id. */
  function Label(lists: seq<seq<RankedNode>>, m: nat, id: Id): Option<(string, string)>
    requires m <= |lists|
  {
    if m == 0 then None else Or(Label(lists, m - 1, id), ListLabel(lists[m-1], |lists[m-1]|, id))
  }

  // ---- The method ----

  function LabelIn(entries: map<Id, Entry>, id: Id): Option<(string, string)> {
    if id in entries then Some((entries[id].name, entries[id].typ)) else None
  }

  /** The labels of the entries after the first m lists and the first n places of the next one. */
  ghost predicate Labelled(lists: seq<seq<RankedNode>>, m: nat, list: seq<RankedNode>, n: nat, entries: map<Id, Entry>)
    requires m <= |lists| && n <= |list|
  {
    forall id :: LabelIn(entries, id) == Or(Label(lists, m, id), ListLabel(list, n, id))
  }

  lemma LabelPlace(k: int, lists: seq<seq<RankedNode>>, m: nat, list: seq<RankedNode>, n: nat, entries: map<Id, Entry>)
    requires m <= |lists| && n < |list| && k + n + 1 != 0 && Labelled(lists, m, list, n, entries)
    ensures Labelled(lists, m, list, n + 1, AddPlace(k, entries, list[n], n))
  {
  }

  lemma LabelList(lists: seq<seq<RankedNode>>, m: nat, entries: map<Id, Entry>)
    requires m < |lists| && Labelled(lists, m, lists[m], |lists[m]|, entries)
    ensures Labelled(lists, m + 1, [], 0, entries)
  {
  }

  lemma LabelStart(lists: seq<seq<RankedNode>>, m: nat, list: seq<RankedNode>, entries: map<Id, Entry>)
    requires m <= |lists| && Labelled(lists, m, [], 0, entries)
    ensures Labelled(lists, m, list, 0, entries)
  {
  }

  lemma LabelNothing(lists: seq<seq<RankedNode>>)
    ensures Labelled(lists, 0, [], 0, map[])
  {
  }

  lemma LabelledAll(lists: seq<seq<RankedNode>>, entries: map<Id, Entry>)
    requires Labelled(lists, |lists|, [], 0, entries)
    ensures forall id :: LabelIn(entries, id) == Label(lists, |lists|, id)
  {
  }

  /** entries after the first m lists and the first n places of the next one. */
  ghost predicate Tallied(
    k: int, lists: seq<seq<RankedNode>>, m: nat, list: seq<RankedNode>, n: nat, entries: map<Id, Entry>)
    requires m <= |lists| && n <= |list| && AllFinite(k, lists) && Finite(k, |list|)
  {
    && (forall id :: id in entries <==> InLists(lists, m, id) || InList(list, n, id))
    && (forall id :: id in entries ==> entries[id].score == Fused(k, lists, m, id) + ListScore(k, list, n, id))
    && (forall id, s :: id in entries ==>
          (s in entries[id].sources <==> HasSource(lists, m, id, s) || FromSource(list, n, id, s)))
  }

  function AddPlace(k: int, entries: map<Id, Entry>, node: RankedNode, rank: nat): map<Id, Entry>
    requires k + rank + 1 != 0
  {
    var e := if node.id in entries then entries[node.id] else Entry(0.0, node.name, node.typ, {});
    entries[node.id := e.(score := e.score + Place(k, rank), sources := e.sources + {node.source})]
  }

  lemma {:induction false} AbsentScoresZero(k: int, list: seq<RankedNode>, n: nat, id: Id)
    requires n <= |list| && Finite(k, n) && !InList(list, n, id)
    ensures ListScore(k, list, n, id) == 0.0
  {
    if n > 0 {
      assert !InList(list, n - 1, id);
      AbsentScoresZero(k, list, n - 1, id);
      assert list[n-1].id != id;
    }
  }

  lemma {:induction false} AbsentFusesZero(k: int, lists: seq<seq<RankedNode>>, m: nat, id: Id)
    requires m <= |lists| && AllFinite(k, lists) && !InLists(lists, m, id)
    ensures Fused(k, lists, m, id) == 0.0
  {
    if m > 0 {
      assert !InLists(lists, m - 1, id);
      AbsentFusesZero(k, lists, m - 1, id);
      assert !InList(lists[m-1], |lists[m-1]|, id);
      AbsentScoresZero(k, lists[m-1], |lists[m-1]|, id);
    }
  }

  lemma InListMore(list: seq<RankedNode>, n: nat, id: Id)
    requires n < |list|
    ensures InList(list, n + 1, id) <==> InList(list, n, id) || list[n].id == id
    ensures forall s :: FromSource(list, n + 1, id, s)
                   <==> FromSource(list, n, id, s) || (list[n].id == id && list[n].source == s)
  {
    if list[n].id == id { assert InList(list, n + 1, id); }
    if r :| 0 <= r < n && list[r].id == id { assert InList(list, n + 1, id); }
    forall s ensures FromSource(list, n + 1, id, s)
                <==> FromSource(list, n, id, s) || (list[n].id == id && list[n].source == s)
    {
      if list[n].id == id && list[n].source == s { assert FromSource(list, n + 1, id, s); }
      if r :| 0 <= r < n && list[r].id == id && list[r].source == s { assert FromSource(list, n + 1, id, s); }
    }
  }

  lemma TallyPlace(k: int, lists: seq<seq<RankedNode>>, m: nat, list: seq<RankedNode>, n: nat, entries: map<Id, Entry>)
    requires m <= |lists| && n < |list| && AllFinite(k, lists) && Finite(k, |list|)
    requires Tallied(k, lists, m, list, n, entries)
    ensures Tallied(k, lists, m, list, n + 1, AddPlace(k, entries, list[n], n))
  {
    var entries', node := AddPlace(k, entries, list[n], n), list[n];
    if node.id !in entries {
      AbsentFusesZero(k, lists, m, node.id);
      AbsentScoresZero(k, list, n, node.id);
    }
    hide Fused;
    hide Place;
    forall id ensures id in entries' <==> InLists(lists, m, id) || InList(list, n + 1, id) {
      InListMore(list, n, id);
    }
    forall id | id in entries'
      ensures entries'[id].score == Fused(k, lists, m, id) + ListScore(k, list, n + 1, id)
    {
    }
    forall id, s | id in entries'
      ensures s in entries'[id].sources <==> HasSource(lists, m, id, s) || FromSource(list, n + 1, id, s)
    {
      InListMore(list, n, id);
      SourceMeansListed(lists, m, list, n, id, s);
    }
  }

  /** Having a source means being listed. */
  lemma SourceMeansListed(lists: seq<seq<RankedNode>>, m: nat, list: seq<RankedNode>, n: nat, id: Id, s: string)
    requires m <= |lists| && n <= |list|
    ensures HasSource(lists, m, id, s) ==> InLists(lists, m, id)
    ensures FromSource(list, n, id, s) ==> InList(list, n, id)
  {
  }

  lemma TallyList(k: int, lists: seq<seq<RankedNode>>, m: nat, entries: map<Id, Entry>)
    requires m < |lists| && AllFinite(k, lists) && Tallied(k, lists, m, lists[m], |lists[m]|, entries)
    ensures Tallied(k, lists, m + 1, [], 0, entries)
  {
    hide Place;
    forall id ensures InLists(lists, m + 1, id) <==> InLists(lists, m, id) || InList(lists[m], |lists[m]|, id) {
      if InList(lists[m], |lists[m]|, id) { assert InLists(lists, m + 1, id); }
      if l :| 0 <= l < m && InList(lists[l], |lists[l]|, id) { assert InLists(lists, m + 1, id); }
    }
    forall id, s ensures HasSource(lists, m + 1, id, s)
                    <==> HasSource(lists, m, id, s) || FromSource(lists[m], |lists[m]|, id, s)
    {
      if FromSource(lists[m], |lists[m]|, id, s) { assert HasSource(lists, m + 1, id, s); }
      if l :| 0 <= l < m && FromSource(lists[l], |lists[l]|, id, s) { assert HasSource(lists, m + 1, id, s); }
    }
  }

  lemma TallyStart(k: int, lists: seq<seq<RankedNode>>, m: nat, entries: map<Id, Entry>)
    requires m < |lists| && AllFinite(k, lists) && Tallied(k, lists, m, [], 0, entries)
    ensures Tallied(k, lists, m, lists[m], 0, entries)
  {
  }

  function SeedOf(id: Id, e: Entry): SeedNode {
    SeedNode(id, e.name, e.typ, e.score, Retrieval(e.sources))
  }

  function ByScore(n: SeedNode): real {
    n.score
  }

  ghost predicate DistinctIds(s: seq<SeedNode>) {
    forall i, j :: 0 <= i < j < |s| ==> s[i].id != s[j].id
  }

  /** The entries as seeds; the loop over a Go map visits them in any order. */
  method Collected(entries: map<Id, Entry>) returns (result: seq<SeedNode>)
    ensures DistinctIds(result)
    ensures forall n :: n in result <==> n.id in entries && n == SeedOf(n.id, entries[n.id])
  {
    result := [];
    var todo := entries.Keys;
    while todo != {}
      invariant todo <= entries.Keys && DistinctIds(result)
      invariant forall n :: n in result <==> n.id in entries && n.id !in todo && n == SeedOf(n.id, entries[n.id])
      decreases |todo|
    {
      var id :| id in todo;
      result := result + [SeedOf(id, entries[id])];
      todo := todo - {id};
    }
  }

  /** All entries as seeds, by falling score. */
  method Ranked(entries: map<Id, Entry>) returns (result: seq<SeedNode>)
    ensures Descending(ByScore, result) && DistinctIds(result)
    ensures forall n :: n in result <==> n.id in entries && n == SeedOf(n.id, entries[n.id])
  {
    var collected := Collected(entries);
    result := SortDescending(ByScore, collected);
    PermutationStaysDistinct(collected, result);
  }

  /** A seed has its node's first name and type and its exact fused score, and says which retrievers found it. */
  ghost predicate Fits(k: int, lists: seq<seq<RankedNode>>, n: SeedNode)
    requires AllFinite(k, lists)
  {
    var v, g := HasSource(lists, |lists|, n.id, "vector"), HasSource(lists, |lists|, n.id, "graph");
    && InLists(lists, |lists|, n.id) && n.score == Score(k, lists, n.id)
    && Label(lists, |lists|, n.id) == Some((n.name, n.typ))
    && n.retrieval == (if v && g then "both" else if v then "vector" else "graph")
  }

  ghost predicate Names(result: seq<SeedNode>, id: Id) {
    exists i :: 0 <= i < |result| && result[i].id == id
  }

  predicate ZeroAt(k: int, length: nat, rank: int) {
    0 <= rank < length && k + rank + 1 == 0
  }

  /** Some place of some list adds 1 / 0, which is +Inf. */
  ghost predicate DividesByZero(k: int, lists: seq<seq<RankedNode>>) {
    exists l, rank :: 0 <= l < |lists| && ZeroAt(k, |lists[l]|, rank)
  }

  /** What a call gives: seeds, a score of +Inf somewhere, or a panic because the slice bound is negative. */
  datatype Outcome = Seeds(seeds: seq<SeedNode>) | InfiniteScore | BadSliceBound

  method RRF(lists: seq<seq<RankedNode>>, k: int, maxSeeds: int) returns (r: Outcome)
    ensures r.BadSliceBound? <==> maxSeeds < 0
    ensures r.InfiniteScore? <==> maxSeeds >= 0 && DividesByZero(k, lists)
    ensures r.Seeds? ==> AllFinite(k, lists) && IsFusion(k, lists, maxSeeds, r.seeds)
  {
    if maxSeeds < 0 {
      return BadSliceBound;
    }
    FiniteMeansNoZero(k, lists);
    if !AllFinite(k, lists) {
      return InfiniteScore;
    }
    var entries := Tally(lists, k);
    var all := Ranked(entries);
    var result := if |all| > maxSeeds then all[..maxSeeds] else all;
    CutKeepsShape(all, maxSeeds);
    SeedsFit(k, lists, entries, all);
    hide DistinctIds;
    hide Descending;
    hide Score;
    hide Label;
    hide LabelIn;
    hide InLists;
    hide HasSource;
    hide Names;
    hide Fits;
    forall id | InLists(lists, |lists|, id) && !Names(result, id)
      ensures |result| == maxSeeds && forall n :: n in result ==> n.score >= Score(k, lists, id)
    {
      CutKeepsBest(all, maxSeeds, SeedOf(id, entries[id]));
    }
    return Seeds(result);
  }

  /** Each id at most once, sorted, exact, and no omitted id scores more than a returned one. */
  ghost predicate IsFusion(k: int, lists: seq<seq<RankedNode>>, maxSeeds: nat, result: seq<SeedNode>)
    requires AllFinite(k, lists)
  {
    && DistinctIds(result) && Descending(ByScore, result) && |result| <= maxSeeds
    && (forall n :: n in result ==> Fits(k, lists, n))
    && (forall id :: InLists(lists, |lists|, id) && !Names(result, id) ==>
          |result| == maxSeeds && forall n :: n in result ==> n.score >= Score(k, lists, id))
  }

  lemma FiniteMeansNoZero(k: int, lists: seq<seq<RankedNode>>)
    ensures AllFinite(k, lists) <==> !DividesByZero(k, lists)
  {
    if l :| 0 <= l < |lists| && !Finite(k, |lists[l]|) {
      assert ZeroAt(k, |lists[l]|, -k - 1);
    }
    if l, rank :| 0 <= l < |lists| && ZeroAt(k, |lists[l]|, rank) {
      assert !Finite(k, |lists[l]|);
    }
  }

  lemma SeedsFit(k: int, lists: seq<seq<RankedNode>>, entries: map<Id, Entry>, all: seq<SeedNode>)
    requires AllFinite(k, lists) && forall id :: id in entries <==> InLists(lists, |lists|, id)
    requires forall id :: id in entries ==> entries[id].score == Score(k, lists, id)
    requires forall id, s :: id in entries ==> (s in entries[id].sources <==> HasSource(lists, |lists|, id, s))
    requires forall id :: LabelIn(entries, id) == Label(lists, |lists|, id)
    requires forall n :: n in all ==> n.id in entries && n == SeedOf(n.id, entries[n.id])
    ensures forall n :: n in all ==> Fits(k, lists, n)
  {
    hide AllFinite;
    hide Label;
    hide Score;
    hide InLists;
    hide HasSource;
  }

  /** The loop over all places of all lists. */
  method Tally(lists: seq<seq<RankedNode>>, k: int) returns (entries: map<Id, Entry>)
    requires AllFinite(k, lists)
    ensures forall id :: id in entries <==> InLists(lists, |lists|, id)
    ensures forall id :: id in entries ==> entries[id].score == Score(k, lists, id)
    ensures forall id, s :: id in entries ==> (s in entries[id].sources <==> HasSource(lists, |lists|, id, s))
    ensures forall id :: LabelIn(entries, id) == Label(lists, |lists|, id)
  {
    hide Tallied;
    hide Labelled;
    hide LabelIn;
    hide Label;
    entries := map[];
    TallyNothing(k, lists);
    LabelNothing(lists);
    for l := 0 to |lists|
      invariant Tallied(k, lists, l, [], 0, entries) && Labelled(lists, l, [], 0, entries)
    {
      TallyStart(k, lists, l, entries);
      var list := lists[l];
      LabelStart(lists, l, list, entries);
      for rank := 0 to |list|
        invariant Tallied(k, lists, l, list, rank, entries) && Labelled(lists, l, list, rank, entries)
      {
        TallyPlace(k, lists, l, list, rank, entries);
        LabelPlace(k, lists, l, list, rank, entries);
        var node := list[rank];
        var e := if node.id in entries then entries[node.id] else Entry(0.0, node.name, node.typ, {});
        e := e.(score := e.score + 1.0 / (k + rank + 1) as real, sources := e.sources + {node.source});
        entries := entries[node.id := e];
      }
      TallyList(k, lists, l, entries);
      LabelList(lists, l, entries);
    }
    TalliedAll(k, lists, entries);
    LabelledAll(lists, entries);
  }

  lemma TallyNothing(k: int, lists: seq<seq<RankedNode>>)
    requires AllFinite(k, lists)
    ensures Tallied(k, lists, 0, [], 0, map[])
  {
  }

  lemma TalliedAll(k: int, lists: seq<seq<RankedNode>>, entries: map<Id, Entry>)
    requires AllFinite(k, lists) && Tallied(k, lists, |lists|, [], 0, entries)
    ensures forall id :: id in entries <==> InLists(lists, |lists|, id)
    ensures forall id :: id in entries ==> entries[id].score == Score(k, lists, id)
    ensures forall id, s :: id in entries ==> (s in entries[id].sources <==> HasSource(lists, |lists|, id, s))
  {
  }

  lemma CutKeepsShape(all: seq<SeedNode>, max: nat)
    requires Descending(ByScore, all) && DistinctIds(all)
    ensures var cut := if |all| > max then all[..max] else all;
      Descending(ByScore, cut) && DistinctIds(cut) && |cut| <= max && forall n :: n in cut ==> n in all
  {
  }

  lemma CutKeepsBest(all: seq<SeedNode>, max: nat, seed: SeedNode)
    requires Descending(ByScore, all) && seed in all && !Names(if |all| > max then all[..max] else all, seed.id)
    ensures |all| > max && forall n :: n in all[..max] ==> n.score >= seed.score
  {
  }

  // ---- What the fused scores mean ----

  ghost predicate NoRepeats(list: seq<RankedNode>) {
    forall i, j :: 0 <= i < j < |list| ==> list[i].id != list[j].id
  }

  /** In a list without repeats a node contributes its place and nothing else. */
  lemma {:induction false} ScoreAtRank(k: nat, list: seq<RankedNode>, n: nat, r: nat)
    requires r < n <= |list| && NoRepeats(list)
    ensures ListScore(k, list, n, list[r].id) == Place(k, r)
  {
    if r == n - 1 {
      assert !InList(list, n - 1, list[r].id);
      AbsentScoresZero(k, list, n - 1, list[r].id);
    } else {
      ScoreAtRank(k, list, n - 1, r);
    }
  }

  /** The sum of 1 / (k + rank + 1) over some ranks, counted from 0. */
  function Reciprocals(k: nat, ranks: seq<nat>): real {
    if ranks == [] then 0.0 else
      Reciprocals(k, ranks[..|ranks|-1]) + 1.0 / (k + ranks[|ranks|-1] + 1) as real
  }

  /** On any list a node scores the sum over all ranks where it stands, each once. */
  lemma {:induction false} ListScoreIs(k: nat, list: seq<RankedNode>, n: nat, id: Id) returns (ranks: seq<nat>)
    requires n <= |list|
    ensures forall i, j :: 0 <= i < j < |ranks| ==> ranks[i] < ranks[j]
    ensures forall r: nat :: r in ranks <==> r < n && list[r].id == id
    ensures ListScore(k, list, n, id) == Reciprocals(k, ranks)
  {
    ranks := [];
    if n > 0 {
      ranks := ListScoreIs(k, list, n - 1, id);
      if list[n-1].id == id {
        var front := ranks;
        ranks := ranks + [n-1];
        assert ranks[|front|] == n - 1 && ranks[..|front|] == front;
        forall i | 0 <= i < |front| ensures front[i] < n - 1 { assert front[i] in front; }
      }
    }
  }

  /** Fusing one more list adds its score. */
  lemma {:induction false} FusionAdds(k: nat, lists: seq<seq<RankedNode>>, m: nat, list: seq<RankedNode>, id: Id)
    requires m <= |lists|
    ensures Fused(k, lists + [list], m, id) == Fused(k, lists, m, id)
    ensures m == |lists| ==> Score(k, lists + [list], id) == Score(k, lists, id) + ListScore(k, list, |list|, id)
  {
    hide ListScore;
    if m > 0 {
      FusionAdds(k, lists, m - 1, list, id);
      assert (lists + [list])[m-1] == lists[m-1];
    }
    assert (lists + [list])[|lists|] == list;
  }

  lemma BetterPlace(k: nat, r: nat, r': nat)
    requires r < r'
    ensures Place(k, r) > Place(k, r')
  {
    var x, y := (k + r + 1) as real, (k + r' + 1) as real;
    assert 1.0 / x - 1.0 / y == (y - x) / (x * y);
  }

  /** a stands above b in the list, or b does not stand there at all. */
  ghost predicate Beats(list: seq<RankedNode>, a: Id, b: Id) {
    forall j :: 0 <= j < |list| && list[j].id == b ==> exists i :: 0 <= i < j && list[i].id == a
  }

  lemma ListDominance(k: nat, list: seq<RankedNode>, a: Id, b: Id)
    requires NoRepeats(list) && Beats(list, a, b)
    ensures ListScore(k, list, |list|, a) >= ListScore(k, list, |list|, b)
    ensures InList(list, |list|, b) ==> ListScore(k, list, |list|, a) > ListScore(k, list, |list|, b)
  {
    if j :| 0 <= j < |list| && list[j].id == b {
      var i :| 0 <= i < j && list[i].id == a;
      ScoreAtRank(k, list, |list|, i);
      ScoreAtRank(k, list, |list|, j);
      BetterPlace(k, i, j);
    } else {
      AbsentScoresZero(k, list, |list|, b);
      ScoresAreNonNegative(k, list, |list|, a);
    }
  }

  lemma {:induction false} ScoresAreNonNegative(k: nat, list: seq<RankedNode>, n: nat, id: Id)
    requires n <= |list|
    ensures ListScore(k, list, n, id) >= 0.0
  {
    if n > 0 { ScoresAreNonNegative(k, list, n - 1, id); }
  }

  /** A node ranked better wherever another appears scores strictly higher. */
  lemma {:induction false} DominanceIsRespected(k: nat, lists: seq<seq<RankedNode>>, m: nat, a: Id, b: Id)
    requires m <= |lists|
    requires forall l :: 0 <= l < m ==> NoRepeats(lists[l]) && Beats(lists[l], a, b)
    ensures Fused(k, lists, m, a) >= Fused(k, lists, m, b)
    ensures InLists(lists, m, b) ==> Fused(k, lists, m, a) > Fused(k, lists, m, b)
  {
    if m > 0 {
      DominanceIsRespected(k, lists, m - 1, a, b);
      ListDominance(k, lists[m-1], a, b);
      if l :| 0 <= l < m && InList(lists[l], |lists[l]|, b) {
        if l < m - 1 { assert InLists(lists, m - 1, b); }
      }
    }
  }

  lemma {:induction false} FusedOfTwo(k: nat, v: seq<RankedNode>, g: seq<RankedNode>, id: Id)
    ensures Score(k, [v, g], id) == ListScore(k, v, |v|, id) + ListScore(k, g, |g|, id)
  {
    assert Fused(k, [v, g], 1, id) == Fused(k, [v, g], 0, id) + ListScore(k, v, |v|, id);
  }

  lemma PlaceBounds(k: nat, r: nat)
    ensures Place(k, r) <= Place(k, 0)
    ensures r <= k ==> Place(k, r) + Place(k, r) > Place(k, 0)
    ensures r == k + 1 ==> Place(k, r) + Place(k, r) == Place(k, 0)
  {
    if r > 0 { BetterPlace(k, 0, r); }
    var x, y := (k + 1) as real, (k + r + 1) as real;
    assert 2.0 * (1.0 / y) - 1.0 / x == (2.0 * x - y) / (x * y);
  }

  /** With lists no longer than k + 1, any node both lists name outscores any node only one of them names. */
  lemma BothBeatsOne(k: nat, v: seq<RankedNode>, g: seq<RankedNode>, a: Id, b: Id)
    requires NoRepeats(v) && NoRepeats(g) && |v| <= k + 1 && |g| <= k + 1
    requires InList(v, |v|, a) && InList(g, |g|, a)
    requires InList(v, |v|, b) != InList(g, |g|, b)
    ensures Score(k, [v, g], a) > Score(k, [v, g], b)
  {
    hide Place;
    FusedOfTwo(k, v, g, a);
    FusedOfTwo(k, v, g, b);
    var i :| 0 <= i < |v| && v[i].id == a;
    var j :| 0 <= j < |g| && g[j].id == a;
    ScoreAtRank(k, v, |v|, i);
    ScoreAtRank(k, g, |g|, j);
    PlaceBounds(k, i);
    PlaceBounds(k, j);
    var one, other := if InList(v, |v|, b) then v else g, if InList(v, |v|, b) then g else v;
    var r :| 0 <= r < |one| && one[r].id == b;
    ScoreAtRank(k, one, |one|, r);
    AbsentScoresZero(k, other, |other|, b);
    PlaceBounds(k, r);
  }

  /** The length bound is exact: at place k + 2 of both lists, two contributions only equal one first place. */
  lemma BothBeatsOneIsTight(k: nat, v: seq<RankedNode>, g: seq<RankedNode>, a: Id, b: Id)
    requires NoRepeats(v) && NoRepeats(g) && |v| >= k + 2 && |g| >= k + 2
    requires v[k+1].id == a == g[k+1].id && v[0].id == b && !InList(g, |g|, b)
    ensures Score(k, [v, g], a) == Score(k, [v, g], b)
  {
    hide Place;
    FusedOfTwo(k, v, g, a);
    FusedOfTwo(k, v, g, b);
    ScoreAtRank(k, v, |v|, k + 1);
    ScoreAtRank(k, g, |g|, k + 1);
    ScoreAtRank(k, v, |v|, 0);
    AbsentScoresZero(k, g, |g|, b);
    PlaceBounds(k, k + 1);
  }
}
