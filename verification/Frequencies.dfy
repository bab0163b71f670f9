/** Call frequencies over many runs of one entrypoint, and how the number of runs is derived from them. */
module Frequencies {
  import opened Normalizer

  datatype Tally = Tally(count: nat, totalMs: real, runs: nat)

  type Aggregate = map<string, Tally>

  type Trace = seq<CallNode>

  const MIN_RUNS := 5

  // ---- One run ----

  function AddNode(agg: Aggregate, n: CallNode): Aggregate {
    var t := if n.stableId in agg then agg[n.stableId] else Tally(0, 0.0, 0);
    agg[n.stableId := Tally(t.count + 1, t.totalMs + n.avgMs, t.runs + 1)]
  }

  function AddRun(agg: Aggregate, nodes: Trace): Aggregate {
    if nodes == [] then agg else AddNode(AddRun(agg, nodes[..|nodes|-1]), nodes[|nodes|-1])
  }

  function Ratio(runs: nat, totalRuns: nat): real
    requires totalRuns > 0
  {
    var r := runs as real / totalRuns as real;
    if r > 1.0 then 1.0 else r
  }

  lemma RatioIsCapped(runs: nat, totalRuns: nat)
    requires totalRuns > 0
    ensures Ratio(runs, totalRuns) == if runs > totalRuns then 1.0 else runs as real / totalRuns as real
  {
    var r := runs as real / totalRuns as real;
    assert r * totalRuns as real == runs as real;
    assert runs > totalRuns ==> r > 1.0;
    assert runs <= totalRuns ==> r <= 1.0;
  }

  function Reported(agg: Aggregate, n: CallNode, totalRuns: nat): CallNode
    requires totalRuns > 0 && n.stableId in agg && agg[n.stableId].runs > 0
  {
    var t := agg[n.stableId];
    CallNode(n.stableId, n.hop, Ratio(t.runs, totalRuns), t.totalMs / t.runs as real)
  }

  lemma {:induction false} AddedIsCounted(agg: Aggregate, nodes: Trace)
    ensures forall i :: 0 <= i < |nodes| ==>
      nodes[i].stableId in AddRun(agg, nodes) && AddRun(agg, nodes)[nodes[i].stableId].runs > 0
  {
    if nodes != [] {
      AddedIsCounted(agg, nodes[..|nodes|-1]);
    }
  }

  /** Merges a run's nodes; from the fifth run on, the nodes are reported with aggregate figures. */
  method AggregateFrequencies(stored: Aggregate, nodes: Trace, totalRuns: nat) returns (agg: Aggregate, updated: Trace)
    ensures agg == AddRun(stored, nodes)
    ensures totalRuns < 5 ==> updated == nodes
    ensures totalRuns >= 5 ==> |updated| == |nodes| && forall i :: 0 <= i < |nodes| ==>
      nodes[i].stableId in agg && agg[nodes[i].stableId].runs > 0 && updated[i] == Reported(agg, nodes[i], totalRuns)
    ensures totalRuns >= 5 ==> forall i :: 0 <= i < |nodes| ==>
      var t, r := agg[nodes[i].stableId], updated[i];
      && r.stableId == nodes[i].stableId && r.hop == nodes[i].hop && r.avgMs == t.totalMs / t.runs as real
      && r.frequencyRatio == if t.runs > totalRuns then 1.0 else t.runs as real / totalRuns as real
  {
    agg := stored;
    for i := 0 to |nodes|
      invariant agg == AddRun(stored, nodes[..i])
    {
      assert nodes[..i+1][..i] == nodes[..i];
      var node := nodes[i];
      if node.stableId !in agg {
        agg := agg[node.stableId := Tally(0, 0.0, 0)];
      }
      var t := agg[node.stableId];
      agg := agg[node.stableId := Tally(t.count + 1, t.totalMs + node.avgMs, t.runs + 1)];
    }
    assert nodes[..|nodes|] == nodes;
    AddedIsCounted(stored, nodes);
    forall i | 0 <= i < |nodes| && totalRuns > 0
      ensures var runs := agg[nodes[i].stableId].runs;
        Ratio(runs, totalRuns) == if runs > totalRuns then 1.0 else runs as real / totalRuns as real
    {
      RatioIsCapped(agg[nodes[i].stableId].runs, totalRuns);
    }
    hide Ratio;
    hide AddRun;
    if totalRuns < MIN_RUNS {
      updated := nodes;
    } else {
      updated := Report(agg, nodes, totalRuns);
    }
  }

  method Report(agg: Aggregate, nodes: Trace, totalRuns: nat) returns (updated: Trace)
    requires totalRuns > 0
    requires forall i :: 0 <= i < |nodes| ==> nodes[i].stableId in agg && agg[nodes[i].stableId].runs > 0
    ensures |updated| == |nodes|
    ensures forall i :: 0 <= i < |nodes| ==> updated[i] == Reported(agg, nodes[i], totalRuns)
  {
    updated := [];
    for i := 0 to |nodes|
      invariant |updated| == i && forall k :: 0 <= k < i ==> updated[k] == Reported(agg, nodes[k], totalRuns)
    {
      var t := agg[nodes[i].stableId];
      var ratio := Ratio(t.runs, totalRuns);
      updated := updated + [CallNode(nodes[i].stableId, nodes[i].hop, ratio, t.totalMs / t.runs as real)];
    }
  }

  /** The consumer's guess at the number of this run: one more than the highest stored figure. */
  method DeriveRun(stored: Aggregate) returns (totalRuns: nat)
    ensures totalRuns > 0 && (forall f :: f in stored ==> stored[f].runs < totalRuns)
    ensures totalRuns == 1 || exists f :: f in stored && stored[f].runs == totalRuns - 1
  {
    totalRuns := 1;
    var todo := stored.Keys;
    while todo != {}
      invariant todo <= stored.Keys && totalRuns > 0
      invariant forall f :: f in stored && f !in todo ==> stored[f].runs < totalRuns
      invariant totalRuns == 1 || exists f :: f in stored && stored[f].runs == totalRuns - 1
      decreases |todo|
    {
      var f :| f in todo;
      if stored[f].runs + 1 > totalRuns {
        totalRuns := stored[f].runs + 1;
      }
      todo := todo - {f};
    }
  }

  // ---- Many runs ----

  function After(runs: seq<Trace>): Aggregate {
    if runs == [] then map[] else AddRun(After(runs[..|runs|-1]), runs[|runs|-1])
  }

  /** Occurrences of f in one run, and the time spent in them. */
  function Occurrences(nodes: Trace, f: string): nat {
    if nodes == [] then 0 else Occurrences(nodes[..|nodes|-1], f) + if nodes[|nodes|-1].stableId == f then 1 else 0
  }

  function Spent(nodes: Trace, f: string): real {
    if nodes == [] then 0.0
    else Spent(nodes[..|nodes|-1], f) + if nodes[|nodes|-1].stableId == f then nodes[|nodes|-1].avgMs else 0.0
  }

  function AllOccurrences(runs: seq<Trace>, f: string): nat {
    if runs == [] then 0 else AllOccurrences(runs[..|runs|-1], f) + Occurrences(runs[|runs|-1], f)
  }

  function AllSpent(runs: seq<Trace>, f: string): real {
    if runs == [] then 0.0 else AllSpent(runs[..|runs|-1], f) + Spent(runs[|runs|-1], f)
  }

  /** The number of runs that contain f. */
  function RunsWith(runs: seq<Trace>, f: string): nat {
    if runs == [] then 0 else RunsWith(runs[..|runs|-1], f) + if Occurrences(runs[|runs|-1], f) > 0 then 1 else 0
  }

  function Entry(agg: Aggregate, f: string): Tally {
    if f in agg then agg[f] else Tally(0, 0.0, 0)
  }

  lemma {:induction false} RunAddsUp(agg: Aggregate, nodes: Trace, f: string)
    ensures var t, t' := Entry(agg, f), Entry(AddRun(agg, nodes), f);
      && t'.runs == t.runs + Occurrences(nodes, f) && t'.count == t.count + Occurrences(nodes, f)
      && t'.totalMs == t.totalMs + Spent(nodes, f)
      && (f in AddRun(agg, nodes) <==> f in agg || Occurrences(nodes, f) > 0)
  {
    if nodes != [] { RunAddsUp(agg, nodes[..|nodes|-1], f); }
  }

  /** What is stored under runs is the number of occurrences, not of runs; the time is summed over all of them. */
  lemma {:induction false} AggregateIsTotals(runs: seq<Trace>, f: string)
    ensures Entry(After(runs), f) == Tally(AllOccurrences(runs, f), AllSpent(runs, f), AllOccurrences(runs, f))
    ensures f in After(runs) <==> AllOccurrences(runs, f) > 0
  {
    if runs != [] {
      AggregateIsTotals(runs[..|runs|-1], f);
      RunAddsUp(After(runs[..|runs|-1]), runs[|runs|-1], f);
    }
  }

  ghost predicate OncePerRun(runs: seq<Trace>) {
    forall i, f :: 0 <= i < |runs| ==> Occurrences(runs[i], f) <= 1
  }

  lemma {:induction false} OccurrencesAtMostRuns(runs: seq<Trace>, f: string)
    requires OncePerRun(runs)
    ensures AllOccurrences(runs, f) == RunsWith(runs, f) <= |runs|
  {
    if runs != [] {
      OccurrencesAtMostRuns(runs[..|runs|-1], f);
      assert Occurrences(runs[|runs|-1], f) <= 1;
    }
  }

  /** The derived run number, as a statement about the stored aggregate. */
  ghost predicate Derived(stored: Aggregate, totalRuns: nat) {
    && totalRuns > 0 && (forall f :: f in stored ==> stored[f].runs < totalRuns)
    && (totalRuns == 1 || exists f :: f in stored && stored[f].runs == totalRuns - 1)
  }

  lemma StoredRuns(runs: seq<Trace>, f: string)
    ensures f in After(runs) <==> AllOccurrences(runs, f) > 0
    ensures f in After(runs) ==> After(runs)[f].runs == AllOccurrences(runs, f)
  {
    AggregateIsTotals(runs, f);
  }

  /** Some function occurred as often as there were runs, and none more often. */
  ghost predicate KeepsPace(runs: seq<Trace>) {
    && (forall f :: AllOccurrences(runs, f) <= |runs|)
    && (runs == [] || exists f :: AllOccurrences(runs, f) == |runs|)
  }

  /** The derivation is right exactly when some function has kept pace with the runs. */
  lemma DerivedIffKeepsPace(runs: seq<Trace>, totalRuns: nat)
    requires Derived(After(runs), totalRuns)
    ensures totalRuns == |runs| + 1 <==> KeepsPace(runs)
  {
    hide After;
    hide AllOccurrences;
    var stored := After(runs);
    if totalRuns == |runs| + 1 {
      forall f ensures AllOccurrences(runs, f) <= |runs| {
        StoredRuns(runs, f);
      }
      if runs != [] {
        var f :| f in stored && stored[f].runs == totalRuns - 1;
        StoredRuns(runs, f);
      }
    }
    if KeepsPace(runs) {
      if runs != [] {
        var f :| AllOccurrences(runs, f) == |runs|;
        StoredRuns(runs, f);
      }
      if totalRuns != 1 {
        var f :| f in stored && stored[f].runs == totalRuns - 1;
        StoredRuns(runs, f);
      }
    }
  }

  /** One run that calls A twice: the next run is numbered 3. */
  lemma TwiceInOneRunMiscounts(n: CallNode)
    ensures After([[n, n]]) == map[n.stableId := Tally(2, n.avgMs + n.avgMs, 2)]
    ensures Derived(After([[n, n]]), 3) && !KeepsPace([[n, n]])
  {
    var runs := [[n, n]];
    assert runs[..0] == [] && [n, n][..1] == [n] && [n][..0] == [];
    assert AddRun(map[], [n]) == map[n.stableId := Tally(1, n.avgMs, 1)];
    assert AllOccurrences(runs, n.stableId) == 2 by { assert Occurrences([n], n.stableId) == 1; }
  }

  lemma {:induction false} OccurrencesAtLeastRuns(runs: seq<Trace>, f: string)
    ensures RunsWith(runs, f) <= AllOccurrences(runs, f) && RunsWith(runs, f) <= |runs|
  {
    if runs != [] { OccurrencesAtLeastRuns(runs[..|runs|-1], f); }
  }

  lemma OneEachKeepsPace(runs: seq<Trace>, f: string)
    requires OncePerRun(runs) && RunsWith(runs, f) == |runs|
    ensures KeepsPace(runs)
  {
    forall g ensures AllOccurrences(runs, g) <= |runs| {
      OccurrencesAtMostRuns(runs, g);
    }
    OccurrencesAtMostRuns(runs, f);
  }

  /** What the consumer reports for one occurrence of a function in the latest run. */
  ghost predicate ExactFigures(runs: seq<Trace>, n: CallNode, reported: CallNode) {
    && AllOccurrences(runs, n.stableId) > 0
    && reported == CallNode(n.stableId, n.hop, RunsWith(runs, n.stableId) as real / |runs| as real,
                            AllSpent(runs, n.stableId) / AllOccurrences(runs, n.stableId) as real)
  }

  /**
   With at most one occurrence per run and some function in every run, each run is numbered rightly, every reported
   frequency is the fraction of runs that contain the function, and every reported time is the mean of all occurrences.
   */
  lemma FrequenciesAreExact(before: seq<Trace>, nodes: Trace, totalRuns: nat, always: string, i: nat)
    requires |before| + 1 >= MIN_RUNS && OncePerRun(before + [nodes]) && i < |nodes|
    requires Derived(After(before), totalRuns) && RunsWith(before, always) == |before|
    ensures totalRuns == |before| + 1
    ensures var agg := AddRun(After(before), nodes);
      && nodes[i].stableId in agg && agg[nodes[i].stableId].runs > 0
      && ExactFigures(before + [nodes], nodes[i], Reported(agg, nodes[i], totalRuns))
  {
    hide OncePerRun;
    hide Derived;
    hide ExactFigures;
    hide Reported;
    hide AddRun;
    hide After;
    RunNumberIsExact(before, nodes, totalRuns, always);
    ReportedIsExact(before, nodes, i);
  }

  lemma RunNumberIsExact(before: seq<Trace>, nodes: Trace, totalRuns: nat, always: string)
    requires OncePerRun(before + [nodes])
    requires Derived(After(before), totalRuns) && RunsWith(before, always) == |before|
    ensures totalRuns == |before| + 1
  {
    OncePerRunBefore(before, nodes);
    OneEachKeepsPace(before, always);
    DerivedIffKeepsPace(before, totalRuns);
  }

  lemma OncePerRunBefore(before: seq<Trace>, nodes: Trace)
    requires OncePerRun(before + [nodes])
    ensures OncePerRun(before)
  {
    forall k, g | 0 <= k < |before| ensures Occurrences(before[k], g) <= 1 {
      assert Occurrences((before + [nodes])[k], g) <= 1;
    }
  }

  lemma ReportedIsExact(before: seq<Trace>, nodes: Trace, i: nat)
    requires OncePerRun(before + [nodes]) && i < |nodes|
    ensures var agg := AddRun(After(before), nodes);
      && nodes[i].stableId in agg && agg[nodes[i].stableId].runs > 0
      && ExactFigures(before + [nodes], nodes[i], Reported(agg, nodes[i], |before| + 1))
  {
    var runs, f := before + [nodes], nodes[i].stableId;
    assert runs[..|before|] == before;
    AddedIsCounted(After(before), nodes);
    assert After(runs) == AddRun(After(before), nodes);
    hide After;
    hide AddRun;
    AggregateIsTotals(runs, f);
    OccurrencesAtMostRuns(runs, f);
    hide OncePerRun;
    hide Ratio;
    RatioAtMostOne(RunsWith(runs, f), |runs|);
  }

  lemma RatioAtMostOne(a: nat, b: nat)
    requires a <= b && b > 0
    ensures Ratio(a, b) == a as real / b as real
  {
    assert a as real / b as real <= 1.0;
  }

  // ---- When an emitted frequency is the fraction of runs ----

  /** The frequency that goes out for occurrence i of the latest run, numbered totalRuns. */
  function Emitted(before: seq<Trace>, nodes: Trace, totalRuns: nat, i: nat): real
    requires i < |nodes|
  {
    AddedIsCounted(After(before), nodes);
    if totalRuns < MIN_RUNS then nodes[i].frequencyRatio
    else Reported(AddRun(After(before), nodes), nodes[i], totalRuns).frequencyRatio
  }

  /** The fraction of runs that contain f. */
  function Fraction(runs: seq<Trace>, f: string): real
    requires runs != []
  {
    RunsWith(runs, f) as real / |runs| as real
  }

  lemma CappedRatio(a: nat, d: nat, w: nat, n: nat)
    requires d > 0 && w <= n && n > 0
    ensures Ratio(a, d) == w as real / n as real <==> if a >= d then w == n else a * n == w * d
  {
    if a >= d {
      AtLeastOne(a, d);
      EqualFractions(1, 1, w, n);
    } else {
      RatioAtMostOne(a, d);
      EqualFractions(a, d, w, n);
    }
  }

  lemma AtLeastOne(a: nat, d: nat)
    requires a >= d > 0
    ensures Ratio(a, d) == 1.0
  {
    assert a as real / d as real >= 1.0;
  }

  lemma EqualFractions(a: nat, d: nat, w: nat, n: nat)
    requires d > 0 && n > 0
    ensures a as real / d as real == w as real / n as real <==> a * n == w * d
  {
    var x, y := a as real / d as real, w as real / n as real;
    assert a as real == x * d as real && w as real == y * n as real;
    assert (a * n) as real == x * (d as real * n as real) && (w * d) as real == y * (d as real * n as real);
    assert d as real * n as real > 0.0;
    SameProduct(x, y, d as real * n as real);
  }

  lemma SameProduct(x: real, y: real, z: real)
    requires z > 0.0
    ensures x * z == y * z <==> x == y
  {
    if x > y { assert (x - y) * z > 0.0; }
    if x < y { assert (y - x) * z > 0.0; }
  }

  /**
   Exactly when an emitted frequency is right, in terms of the occurrences of the function, the runs with it, all runs
   and the run number used. The normalizer sets the incoming frequency to 1.
   */
  lemma EmittedIsFractionIff(before: seq<Trace>, nodes: Trace, totalRuns: nat, i: nat)
    requires i < |nodes| && totalRuns > 0 && nodes[i].frequencyRatio == 1.0
    ensures var runs, f := before + [nodes], nodes[i].stableId;
      var occurrences, with := AllOccurrences(runs, f), RunsWith(runs, f);
      Emitted(before, nodes, totalRuns, i) == Fraction(runs, f)
      <==> if totalRuns < MIN_RUNS || occurrences >= totalRuns then with == |runs|
           else occurrences * |runs| == with * totalRuns
  {
    var runs, f := before + [nodes], nodes[i].stableId;
    AddedIsCounted(After(before), nodes);
    assert runs[..|before|] == before;
    assert After(runs) == AddRun(After(before), nodes);
    AggregateIsTotals(runs, f);
    OccurrencesAtLeastRuns(runs, f);
    hide After;
    hide AddRun;
    hide AllOccurrences;
    hide RunsWith;
    hide Ratio;
    CappedRatio(AllOccurrences(runs, f), totalRuns, RunsWith(runs, f), |runs|);
    CappedRatio(1, 1, RunsWith(runs, f), |runs|);
    AtLeastOne(1, 1);
  }

  lemma DerivedAtMostNext(before: seq<Trace>, totalRuns: nat)
    requires OncePerRun(before) && Derived(After(before), totalRuns)
    ensures totalRuns <= |before| + 1
  {
    hide After;
    if totalRuns > 1 {
      var g :| g in After(before) && After(before)[g].runs == totalRuns - 1;
      StoredRuns(before, g);
      OccurrencesAtMostRuns(before, g);
    }
  }

  /** Without repeats in a run, from the fifth run on, frequencies are right exactly when some function kept pace. */
  lemma EmittedIsExactIffKeepsPace(before: seq<Trace>, nodes: Trace, totalRuns: nat, i: nat)
    requires i < |nodes| && |before| + 1 >= MIN_RUNS && OncePerRun(before + [nodes])
    requires Derived(After(before), totalRuns) && nodes[i].frequencyRatio == 1.0
    ensures Emitted(before, nodes, totalRuns, i) == Fraction(before + [nodes], nodes[i].stableId) <==> KeepsPace(before)
  {
    var runs, f := before + [nodes], nodes[i].stableId;
    OncePerRunBefore(before, nodes);
    EmittedIsFractionIff(before, nodes, totalRuns, i);
    DerivedAtMostNext(before, totalRuns);
    DerivedIffKeepsPace(before, totalRuns);
    OccurrencesAtMostRuns(runs, f);
    InLatestRun(before, nodes, i);
    hide Emitted;
    hide Derived;
    hide OncePerRun;
    hide After;
    hide KeepsPace;
    hide AllOccurrences;
    hide Fraction;
    if RunsWith(runs, f) == |runs| {
      OneEachKeepsPace(before, f);
    }
    hide RunsWith;
    PaceDecides(RunsWith(runs, f), |runs|, totalRuns, KeepsPace(before));
  }

  lemma PaceDecides(with: nat, n: nat, d: nat, pace: bool)
    requires 0 < with <= n && 0 < d <= n && n >= MIN_RUNS && (d == n <==> pace) && (with == n ==> pace)
    ensures (if d < MIN_RUNS || with >= d then with == n else with * n == with * d) <==> pace
  {
    if with * n == with * d { assert with * (n - d) == 0; }
  }

  lemma InLatestRun(before: seq<Trace>, nodes: Trace, i: nat)
    requires i < |nodes|
    ensures var f := nodes[i].stableId; RunsWith(before + [nodes], f) == RunsWith(before, f) + 1
  {
    assert (before + [nodes])[..|before|] == before;
    OccursOnce(nodes, i);
  }

  lemma {:induction false} OccursOnce(nodes: Trace, i: nat)
    requires i < |nodes|
    ensures Occurrences(nodes, nodes[i].stableId) > 0
  {
    if i < |nodes| - 1 { OccursOnce(nodes[..|nodes|-1], i); }
  }

  function Repeated(n: CallNode, m: nat): seq<Trace> {
    if m == 0 then [] else Repeated(n, m - 1) + [[n]]
  }

  lemma {:induction false} RepeatedRuns(runs: seq<Trace>, n: CallNode, m: nat, f: string)
    ensures var more := if n.stableId == f then m else 0;
      && AllOccurrences(runs + Repeated(n, m), f) == AllOccurrences(runs, f) + more
      && RunsWith(runs + Repeated(n, m), f) == RunsWith(runs, f) + more
    ensures |Repeated(n, m)| == m && forall i :: 0 <= i < m ==> Repeated(n, m)[i] == [n]
  {
    hide AllOccurrences;
    hide RunsWith;
    hide Occurrences;
    if m == 0 {
      assert runs + [] == runs;
    } else {
      RepeatedRuns(runs, n, m - 1, f);
      NextRun(runs + Repeated(n, m - 1), n, f);
      assert runs + Repeated(n, m - 1) + [[n]] == runs + Repeated(n, m);
    }
  }

  lemma NextRun(runs: seq<Trace>, n: CallNode, f: string)
    ensures var one := if n.stableId == f then 1 else 0;
      && AllOccurrences(runs + [[n]], f) == AllOccurrences(runs, f) + one
      && RunsWith(runs + [[n]], f) == RunsWith(runs, f) + one
  {
    assert (runs + [[n]])[..|runs|] == runs;
    assert [n][..0] == [];
    assert Occurrences([n], f) == if n.stableId == f then 1 else 0;
  }

  /** m runs of a, then m of b. */
  function TwoPhases(a: CallNode, b: CallNode, m: nat): seq<Trace> {
    Repeated(a, m) + Repeated(b, m)
  }

  lemma PhaseCounts(a: CallNode, b: CallNode, m: nat, f: string)
    requires a.stableId != b.stableId
    ensures var count := if f == a.stableId || f == b.stableId then m else 0;
      AllOccurrences(TwoPhases(a, b, m), f) == count == RunsWith(TwoPhases(a, b, m), f)
  {
    RepeatedRuns([], a, m, f);
    assert [] + Repeated(a, m) == Repeated(a, m);
    RepeatedRuns(Repeated(a, m), b, m, f);
    hide Repeated;
    assert AllOccurrences([], f) == 0 == RunsWith([], f);
    hide AllOccurrences;
    hide RunsWith;
  }

  lemma PhasesAreSingle(a: CallNode, b: CallNode, m: nat)
    ensures |TwoPhases(a, b, m)| == 2 * m && OncePerRun(TwoPhases(a, b, m))
  {
    RepeatedRuns([], a, m, "");
    RepeatedRuns([], b, m, "");
    hide Repeated;
    hide AllOccurrences;
    hide RunsWith;
    SingleRuns(TwoPhases(a, b, m));
  }

  lemma SingleRuns(runs: seq<Trace>)
    requires forall i :: 0 <= i < |runs| ==> |runs[i]| == 1
    ensures OncePerRun(runs)
  {
  }

  lemma PhasesDerive(a: CallNode, b: CallNode, m: nat)
    requires a.stableId != b.stableId && m > 0
    ensures Derived(After(TwoPhases(a, b, m)), m + 1)
  {
    var before := TwoPhases(a, b, m);
    hide TwoPhases;
    hide After;
    forall f | f in After(before) ensures After(before)[f].runs < m + 1 {
      StoredRuns(before, f);
      PhaseCounts(a, b, m, f);
    }
    StoredRuns(before, a.stableId);
    PhaseCounts(a, b, m, a.stableId);
  }

  /**
   m runs of a, then m of b, with m at least 4: the next run, of b, is numbered m + 1 instead of 2m + 1, and b goes out
   with frequency 1 although only m + 1 of 2m + 1 runs contain it: 5/9 for m = 4.
   */
  lemma LateFunctionIsOverstated(a: CallNode, b: CallNode, m: nat)
    requires a.stableId != b.stableId && m + 1 >= MIN_RUNS
    ensures var before := TwoPhases(a, b, m);
      && OncePerRun(before) && Derived(After(before), m + 1)
      && Emitted(before, [b], m + 1, 0) == 1.0
      && Fraction(before + [[b]], b.stableId) == (m + 1) as real / (2 * m + 1) as real < 1.0
  {
    var before := TwoPhases(a, b, m);
    PhasesDerive(a, b, m);
    PhasesAreSingle(a, b, m);
    PhaseCounts(a, b, m, b.stableId);
    hide TwoPhases;
    hide Derived;
    NextRun(before, b, b.stableId);
    AggregateIsTotals(before + [[b]], b.stableId);
    assert (before + [[b]])[..|before|] == before;
    assert After(before + [[b]]) == AddRun(After(before), [b]);
    AtLeastOne(m + 1, m + 1);
    FractionBelowOne(m + 1, 2 * m + 1);
  }

  lemma FractionBelowOne(a: nat, b: nat)
    requires a < b
    ensures a as real / b as real < 1.0
  {
  }
}
