/**
 * The two confidence scales of the analyzer: the evidence Confidence of a
 * dependency (an enum whose declaration order is its strength, HIGHEST first)
 * and the IdentifierConfidence of a CPE match (CPEAnalyzer.java:1009-1025).
 * Both are compared through an explicit ordinal, as Enum.compareTo does.
 */
module Confidences {

  /** org.owasp.dependencycheck.dependency.Confidence. */
  datatype Confidence = Highest | High | Medium | Low

  /** Enum.ordinal(): a lower ordinal is a stronger confidence. */
  function Ordinal(c: Confidence): nat {
    match c
    case Highest => 0
    case High => 1
    case Medium => 2
    case Low => 3
  }

  /** `a.compareTo(b) > 0`: `a` is strictly weaker than `b`. */
  predicate StrictlyWeaker(a: Confidence, b: Confidence) {
    Ordinal(a) > Ordinal(b)
  }

  /** Confidence.values(): the tiers in declaration order, strongest first. */
  const Tiers: seq<Confidence> := [Highest, High, Medium, Low]

  /** CPEAnalyzer.IdentifierConfidence. */
  datatype IdentifierConfidence = ExactMatch | BestGuess | BroadMatch

  function IdOrdinal(c: IdentifierConfidence): nat {
    match c
    case ExactMatch => 0
    case BestGuess => 1
    case BroadMatch => 2
  }

  /** Every confidence appears exactly once in Tiers, at its ordinal. */
  lemma TiersFollowOrdinals()
    ensures |Tiers| == 4
    ensures forall k :: 0 <= k < |Tiers| ==> Ordinal(Tiers[k]) == k
    ensures forall c: Confidence :: c in Tiers
  {
    forall c: Confidence
      ensures c in Tiers
    {
      assert Tiers[Ordinal(c)] == c;
    }
  }
}
