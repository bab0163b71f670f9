/** Edge scoring of the subgraph expander. Scores are reals: rounding is not modelled. */
module Scoring {

  const EDGE_TYPE_WEIGHTS: map<string, real> := map[
    "CALLS" := 1.0,
    "IMPORTS" := 0.8,
    "INHERITS" := 0.7,
    "MODIFIED_BY" := 0.6,
    "TESTED_BY" := 0.5]

  const PROVENANCE_WEIGHTS: map<string, real> := map[
    "confirmed" := 1.0,
    "dynamic" := 0.9,
    "static" := 0.8,
    "conflict" := 0.6,
    "" := 0.8]

  /** A missing key of a Go map reads as the zero value, so an unknown edge type weighs nothing. */
  function EdgeTypeWeight(edgeType: string): (w: real)
    ensures 0.0 <= w <= 1.0
  {
    if edgeType in EDGE_TYPE_WEIGHTS then EDGE_TYPE_WEIGHTS[edgeType] else 0.0
  }

  function ProvenanceWeight(provenance: string): (w: real)
    ensures 0.6 <= w <= 1.0
  {
    if provenance in PROVENANCE_WEIGHTS then PROVENANCE_WEIGHTS[provenance] else PROVENANCE_WEIGHTS[""]
  }

  function ComputeScore(parentScore: real, decay: real, edgeType: string, provenance: string): real {
    parentScore * decay * EdgeTypeWeight(edgeType) * ProvenanceWeight(provenance)
  }

  /** The share of a score that an edge lets through, decay aside. */
  function Share(edgeType: string, provenance: string): real {
    var byType :=
      if edgeType == "CALLS" then 1.0
      else if edgeType == "IMPORTS" then 0.8
      else if edgeType == "INHERITS" then 0.7
      else if edgeType == "MODIFIED_BY" then 0.6
      else if edgeType == "TESTED_BY" then 0.5
      else 0.0;
    var byProvenance :=
      if provenance == "confirmed" then 1.0
      else if provenance == "dynamic" then 0.9
      else if provenance == "conflict" then 0.6
      else 0.8;
    byType * byProvenance
  }

  /** An edge passes on the decayed share; no or unknown provenance counts as static. */
  lemma ScoreIsShare(s: real, decay: real, edgeType: string, provenance: string)
    ensures ComputeScore(s, decay, edgeType, provenance) == s * decay * Share(edgeType, provenance)
  {
    var e, q := EdgeTypeWeight(edgeType), ProvenanceWeight(provenance);
    ShareIsWeights(edgeType, provenance);
    hide Share;
    TakeTogether(s * decay, e, q);
  }

  lemma ShareIsWeights(edgeType: string, provenance: string)
    ensures Share(edgeType, provenance) == EdgeTypeWeight(edgeType) * ProvenanceWeight(provenance)
  {
  }

  lemma TakeTogether(a: real, b: real, c: real)
    ensures a * b * c == a * (b * c)
  {
  }

  lemma ProductOfFractions(x: real, y: real)
    requires 0.0 <= x && 0.0 <= y <= 1.0
    ensures 0.0 <= x * y <= x
  {
  }

  lemma Reassociate(a: real, b: real, c: real, d: real)
    ensures a * b * c * d == a * (b * c * d)
  {
  }

  /** With a proper decay an edge multiplies scores by a factor below 1: the source of acyclic parent chains. */
  lemma FactorBelowOne(decay: real, edgeType: string, provenance: string) returns (factor: real)
    requires 0.0 < decay < 1.0
    ensures 0.0 <= factor < 1.0
    ensures forall s: real :: ComputeScore(s, decay, edgeType, provenance) == s * factor
  {
    var x, y := EdgeTypeWeight(edgeType), ProvenanceWeight(provenance);
    ProductOfFractions(decay, x);
    ProductOfFractions(decay * x, y);
    factor := decay * x * y;
    forall s: real
      ensures ComputeScore(s, decay, edgeType, provenance) == s * factor
    {
      Reassociate(s, decay, x, y);
    }
  }

  lemma ScoreIsMonotone(low: real, high: real, decay: real, edgeType: string, provenance: string)
    requires 0.0 < decay < 1.0 && low <= high
    ensures ComputeScore(low, decay, edgeType, provenance) <= ComputeScore(high, decay, edgeType, provenance)
  {
    hide ComputeScore;
    var x := FactorBelowOne(decay, edgeType, provenance);
    assert (high - low) * x >= 0.0;
  }

  lemma ScoreShrinks(s: real, decay: real, edgeType: string, provenance: string)
    requires 0.0 < decay < 1.0
    ensures s <= 0.0 ==> ComputeScore(s, decay, edgeType, provenance) <= 0.0
    ensures s >= 0.0 ==> 0.0 <= ComputeScore(s, decay, edgeType, provenance) <= s
    ensures s > 0.0 ==> ComputeScore(s, decay, edgeType, provenance) < s
  {
    hide ComputeScore;
    var x := FactorBelowOne(decay, edgeType, provenance);
    if s > 0.0 {
      assert s * (1.0 - x) > 0.0;
    }
    if s <= 0.0 {
      assert (0.0 - s) * x >= 0.0;
    }
  }

  /** A positive score crosses an edge exactly when the edge type is one of the five known ones. */
  lemma CrossesIffKnown(s: real, decay: real, edgeType: string, provenance: string)
    requires 0.0 < decay < 1.0 && s > 0.0
    ensures ComputeScore(s, decay, edgeType, provenance) > 0.0 <==> edgeType in EDGE_TYPE_WEIGHTS
  {
    var e, p := EdgeTypeWeight(edgeType), ProvenanceWeight(provenance);
    if edgeType in EDGE_TYPE_WEIGHTS {
      assert e > 0.0;
      PositiveProduct(s, decay);
      PositiveProduct(s * decay, e);
      PositiveProduct(s * decay * e, p);
    } else {
      assert e == 0.0;
      assert s * decay * e == 0.0;
    }
  }

  lemma PositiveProduct(a: real, b: real)
    requires a > 0.0 && b > 0.0
    ensures a * b > 0.0
  {
  }
}
