/** Walks over the code graph and the scores they carry: the reference the traversal is judged by. */
module Walks {
  import opened Scoring

  type Id = string

  /** One row of a neighbour query: a traversable edge together with the columns read off its target. */
  datatype Edge = Edge(parent: Id, child: Id, edgeType: string, provenance: string, details: string)

  /** The score that crosses e from a parent scoring s. */
  function Along(decay: real, s: real, e: Edge): real {
    ComputeScore(s, decay, e.edgeType, e.provenance)
  }

  ghost predicate IsWalk(g: set<Edge>, s: Id, w: seq<Edge>, t: Id) {
    && (forall i :: 0 <= i < |w| ==> w[i] in g)
    && (forall i :: 0 < i < |w| ==> w[i].parent == w[i-1].child)
    && (if w == [] then s == t else w[0].parent == s && w[|w|-1].child == t)
  }

  /** The product of the edge factors along w, starting from the score of its first node. */
  ghost function WalkScore(decay: real, base: real, w: seq<Edge>): real {
    if w == [] then base else Along(decay, WalkScore(decay, base, w[..|w|-1]), w[|w|-1])
  }

  /** id scores s along some walk that leaves a node of base. */
  ghost predicate Carried(g: set<Edge>, decay: real, base: map<Id, real>, id: Id, s: real) {
    exists r, w :: r in base && IsWalk(g, r, w, id) && s == WalkScore(decay, base[r], w)
  }

  function Power(x: real, n: nat): real {
    if n == 0 then 1.0 else Power(x, n - 1) * x
  }

  /** The product of the edges' shares along a walk. */
  function Shares(w: seq<Edge>): real {
    if w == [] then 1.0 else Shares(w[..|w|-1]) * Share(w[|w|-1].edgeType, w[|w|-1].provenance)
  }

  /** A walk's score is a product: where it starts, one decay an edge, and the edges' shares. */
  lemma {:induction false} WalkScoreIsProduct(decay: real, base: real, w: seq<Edge>)
    ensures WalkScore(decay, base, w) == base * Power(decay, |w|) * Shares(w)
  {
    hide Along;
    hide Share;
    if w != [] {
      var front, e := w[..|w|-1], w[|w|-1];
      WalkScoreIsProduct(decay, base, front);
      AlongIsShare(decay, WalkScore(decay, base, front), e);
      Rearrange(base, Power(decay, |front|), Shares(front), decay, Share(e.edgeType, e.provenance));
    }
  }

  lemma AlongIsShare(decay: real, s: real, e: Edge)
    ensures Along(decay, s, e) == s * decay * Share(e.edgeType, e.provenance)
  {
    ScoreIsShare(s, decay, e.edgeType, e.provenance);
  }

  lemma Rearrange(a: real, b: real, c: real, d: real, e: real)
    ensures (a * b * c) * d * e == a * (b * d) * (c * e)
  {
  }

  lemma AlongMonotone(decay: real, low: real, high: real, e: Edge)
    requires 0.0 < decay < 1.0 && low <= high
    ensures Along(decay, low, e) <= Along(decay, high, e)
  {
    ScoreIsMonotone(low, high, decay, e.edgeType, e.provenance);
  }

  lemma AlongShrinks(decay: real, s: real, e: Edge)
    requires 0.0 < decay < 1.0
    ensures s <= 0.0 ==> Along(decay, s, e) <= 0.0
    ensures s >= 0.0 ==> 0.0 <= Along(decay, s, e) <= s
    ensures s > 0.0 ==> Along(decay, s, e) < s
  {
    ScoreShrinks(s, decay, e.edgeType, e.provenance);
  }

  lemma ExtendWalk(g: set<Edge>, decay: real, base: real, s: Id, w: seq<Edge>, e: Edge)
    requires e in g && IsWalk(g, s, w, e.parent)
    ensures IsWalk(g, s, w + [e], e.child)
    ensures WalkScore(decay, base, w + [e]) == Along(decay, WalkScore(decay, base, w), e)
  {
  }

  lemma {:induction false} ScoreOfConcat(decay: real, base: real, a: seq<Edge>, b: seq<Edge>)
    ensures WalkScore(decay, base, a + b) == WalkScore(decay, WalkScore(decay, base, a), b)
    decreases |b|
  {
    hide Along;
    if b == [] {
      assert a + b == a;
    } else {
      var front := b[..|b|-1];
      ScoreOfConcat(decay, base, a, front);
      assert (a + b)[..|a + b| - 1] == a + front;
    }
  }

  lemma {:induction false} WalkMonotone(decay: real, low: real, high: real, w: seq<Edge>)
    requires 0.0 < decay < 1.0 && low <= high
    ensures WalkScore(decay, low, w) <= WalkScore(decay, high, w)
  {
    hide Along;
    if w != [] {
      WalkMonotone(decay, low, high, w[..|w|-1]);
      AlongMonotone(decay, WalkScore(decay, low, w[..|w|-1]), WalkScore(decay, high, w[..|w|-1]), w[|w|-1]);
    }
  }

  /** Walks only lose score, strictly so once they take a step; a walk that carries anything started positive. */
  lemma {:induction false} WalkShrinks(decay: real, base: real, w: seq<Edge>)
    requires 0.0 < decay < 1.0
    ensures base <= 0.0 ==> WalkScore(decay, base, w) <= 0.0
    ensures base >= 0.0 ==> 0.0 <= WalkScore(decay, base, w) <= base
    ensures base > 0.0 && w != [] ==> WalkScore(decay, base, w) < base
  {
    hide Along;
    if w != [] {
      WalkShrinks(decay, base, w[..|w|-1]);
      AlongShrinks(decay, WalkScore(decay, base, w[..|w|-1]), w[|w|-1]);
    }
  }

  // ---- Long walks are no better than short ones ----

  lemma {:induction false} Pigeonhole(xs: seq<Id>, V: set<Id>) returns (i: nat, j: nat)
    requires forall k :: 0 <= k < |xs| ==> xs[k] in V
    requires |xs| > |V|
    ensures i < j < |xs| && xs[i] == xs[j]
    decreases |xs|
  {
    var front, last := xs[..|xs|-1], xs[|xs|-1];
    if last in front {
      i :| 0 <= i < |front| && front[i] == last;
      j := |xs| - 1;
    } else {
      assert last in V;
      i, j := Pigeonhole(front, V - {last});
    }
  }

  ghost predicate Spans(V: set<Id>, base: map<Id, real>, g: set<Edge>) {
    && base.Keys <= V
    && (forall e :: e in g ==> e.parent in V && e.child in V)
  }

  /** The nodes a walk stops at, in order. */
  ghost function Stops(s: Id, w: seq<Edge>): (r: seq<Id>)
    ensures |r| == |w| + 1
  {
    [s] + seq(|w|, k requires 0 <= k < |w| => w[k].child)
  }

  lemma StopBeforeEdge(g: set<Edge>, s: Id, w: seq<Edge>, t: Id, k: nat)
    requires IsWalk(g, s, w, t) && k < |w|
    ensures Stops(s, w)[k] == w[k].parent && Stops(s, w)[k+1] == w[k].child
  {
  }

  /** A walk that stops at one node twice is still a walk without what lies between. */
  lemma Splice(g: set<Edge>, s: Id, w: seq<Edge>, t: Id, i: nat, j: nat)
    requires IsWalk(g, s, w, t) && i < j <= |w| && Stops(s, w)[i] == Stops(s, w)[j]
    ensures IsWalk(g, s, w[..i] + w[j..], t)
  {
    var w' := w[..i] + w[j..];
    if 0 < i && j < |w| {
      StopBeforeEdge(g, s, w, t, i - 1);
      StopBeforeEdge(g, s, w, t, j);
    }
    if i == 0 && j < |w| { StopBeforeEdge(g, s, w, t, j); }
    if 0 < i && j == |w| {
      StopBeforeEdge(g, s, w, t, i - 1);
      StopBeforeEdge(g, s, w, t, j - 1);
    }
    if i == 0 && j == |w| { StopBeforeEdge(g, s, w, t, j - 1); }
    hide Stops;
    forall k | 0 < k < |w'|
      ensures w'[k].parent == w'[k-1].child
    {
      if k > i {
        assert w'[k] == w[k - i + j] && w'[k-1] == w[k - 1 - i + j];
      } else if k == i {
        assert w'[k] == w[j] && w'[k-1] == w[i-1];
      }
    }
  }

  /** Cutting one cycle out of a walk that is too long to be simple. */
  lemma CutCycle(g: set<Edge>, decay: real, base: real, V: set<Id>, s: Id, w: seq<Edge>, t: Id) returns (w': seq<Edge>)
    requires 0.0 < decay < 1.0
    requires s in V && (forall e :: e in g ==> e.parent in V && e.child in V)
    requires IsWalk(g, s, w, t) && |w| >= |V| && base > 0.0
    ensures IsWalk(g, s, w', t) && |w'| < |w|
    ensures WalkScore(decay, base, w) <= WalkScore(decay, base, w')
  {
    hide Along;
    hide WalkScore;
    StopsWithin(g, V, s, w, t);
    var i, j := Pigeonhole(Stops(s, w), V);
    hide Stops;
    Splice(g, s, w, t, i, j);
    hide IsWalk;
    w' := w[..i] + w[j..];
    CutGains(decay, base, w[..i], w[i..j], w[j..]);
    assert w == w[..i] + w[i..j] + w[j..];
  }

  lemma StopsWithin(g: set<Edge>, V: set<Id>, s: Id, w: seq<Edge>, t: Id)
    requires s in V && (forall e :: e in g ==> e.parent in V && e.child in V) && IsWalk(g, s, w, t)
    ensures forall k :: 0 <= k < |Stops(s, w)| ==> Stops(s, w)[k] in V
  {
  }

  lemma CutGains(decay: real, base: real, a: seq<Edge>, mid: seq<Edge>, b: seq<Edge>)
    requires 0.0 < decay < 1.0 && base > 0.0
    ensures WalkScore(decay, base, a + mid + b) <= WalkScore(decay, base, a + b)
  {
    hide Along;
    ScoreOfConcat(decay, base, a + mid, b);
    ScoreOfConcat(decay, base, a, mid);
    ScoreOfConcat(decay, base, a, b);
    WalkShrinks(decay, base, a);
    WalkShrinks(decay, WalkScore(decay, base, a), mid);
    WalkMonotone(decay, WalkScore(decay, base, a + mid), WalkScore(decay, base, a), b);
  }

  /** Every walk has a rival with the same ends, fewer edges than there are nodes, and no smaller score. */
  lemma {:induction false} ShortWalkSuffices(
    g: set<Edge>, decay: real, base: real, V: set<Id>, s: Id, w: seq<Edge>, t: Id)
    returns (w': seq<Edge>)
    requires 0.0 < decay < 1.0
    requires s in V && (forall e :: e in g ==> e.parent in V && e.child in V)
    requires IsWalk(g, s, w, t) && base > 0.0
    ensures IsWalk(g, s, w', t) && |w'| < |V|
    ensures WalkScore(decay, base, w) <= WalkScore(decay, base, w')
    decreases |w|
  {
    hide Along;
    if |w| < |V| {
      w' := w;
    } else {
      var shorter := CutCycle(g, decay, base, V, s, w, t);
      w' := ShortWalkSuffices(g, decay, base, V, s, shorter, t);
    }
  }
}
