/**
 * The values determineIdentifiers works with: CPE names as the catalog and
 * CpeBuilder produce them, the CpeIdentifier a dependency carries, and the
 * IdentifierMatch candidates with their natural order
 * (CPEAnalyzer.java:1031-1176).
 */
module Identifiers {
  import opened Wrappers
  import opened Confidences

  /** The part component of a CPE name. */
  datatype Part = Application | OperatingSystem | Hardware | AnyPart

  /**
   * A CPE name, restricted to the components the analyzer reads or sets;
   * `update` is None where the CPE leaves it unset (a null getUpdate()).
   */
  datatype Cpe = Cpe(part: Part, vendor: string, product: string, version: string, update: Option<string>)

  /** A catalog CPE with the ecosystem tag the database stores for it. */
  datatype CpePlus = CpePlus(cpe: Cpe, ecosystem: Option<string>)

  /** A hit of the CPE index search; vendor and product are None when the document lacks them. */
  datatype IndexEntry = IndexEntry(documentId: int, vendor: Option<string>, product: Option<string>)

  /** A CpeIdentifier: the CPE and the confidence it was identified with. */
  datatype Identifier = Identifier(cpe: Cpe, confidence: Confidence)

  /** IdentifierMatch: an identifier with the kind of version match behind it. */
  datatype IdentifierMatch = IdentifierMatch(identifier: Identifier, identifierConfidence: IdentifierConfidence) {
    /** getEvidenceConfidence(): the confidence stored in the identifier. */
    function EvidenceConfidence(): Confidence {
      identifier.confidence
    }
  }

  /** The sign of a comparison result. */
  function Sign(x: int): int {
    if x < 0 then -1 else if x > 0 then 1 else 0
  }

  /**
   * The contract java.lang.Comparable asks of CpeIdentifier.compareTo: the
   * sign flips with the arguments and "not after" is transitive.
   */
  ghost predicate IsComparator(cmp: (Identifier, Identifier) -> int) {
    && (forall a, b :: Sign(cmp(a, b)) == -Sign(cmp(b, a)))
    && (forall a, b, c {:trigger cmp(a, b), cmp(b, c), cmp(a, c)} :: cmp(a, b) <= 0 && cmp(b, c) <= 0 ==> cmp(a, c) <= 0)
  }

  /**
   * IdentifierMatch.compareTo: the identifier confidences as Enum.compareTo
   * orders them, then the identifiers by `cmp`.
   */
  function CompareTo(m: IdentifierMatch, o: IdentifierMatch, cmp: (Identifier, Identifier) -> int): int {
    if m.identifierConfidence != o.identifierConfidence then
      IdOrdinal(m.identifierConfidence) - IdOrdinal(o.identifierConfidence)
    else cmp(m.identifier, o.identifier)
  }

  /** The first match sorts no later than the second. */
  predicate NotAfter(m: IdentifierMatch, o: IdentifierMatch, cmp: (Identifier, Identifier) -> int) {
    CompareTo(m, o, cmp) <= 0
  }

  /**
   * The match order meets the same contract, and a match with a stronger
   * identifier confidence sorts strictly first.
   */
  lemma CompareToIsComparator(cmp: (Identifier, Identifier) -> int)
    requires IsComparator(cmp)
    ensures forall m, o :: Sign(CompareTo(m, o, cmp)) == -Sign(CompareTo(o, m, cmp))
    ensures forall m, o, p {:trigger NotAfter(m, o, cmp), NotAfter(o, p, cmp), NotAfter(m, p, cmp)} ::
      NotAfter(m, o, cmp) && NotAfter(o, p, cmp) ==> NotAfter(m, p, cmp)
    ensures forall m: IdentifierMatch, o: IdentifierMatch ::
      IdOrdinal(m.identifierConfidence) < IdOrdinal(o.identifierConfidence) ==>
      CompareTo(m, o, cmp) < 0
  {
    forall m, o, p | NotAfter(m, o, cmp) && NotAfter(o, p, cmp)
      ensures NotAfter(m, p, cmp)
    {
      var a, b, c := m.identifierConfidence, o.identifierConfidence, p.identifierConfidence;
      if a == b && b == c {
        assert cmp(m.identifier, o.identifier) <= 0 && cmp(o.identifier, p.identifier) <= 0;
      } else {
        assert IdOrdinal(a) <= IdOrdinal(b) <= IdOrdinal(c);
      }
    }
  }
}
