/**
 * The parts of a Dependency the analyzer reads (its evidence, name, version,
 * ecosystem and weightings) and the one it changes: the set of vulnerable
 * software identifiers.
 */
module Dependencies {
  import opened Wrappers
  import opened Confidences
  import opened Identifiers

  datatype EvidenceType = VendorEvidence | ProductEvidence | VersionEvidence

  /** One piece of evidence: what it is about, how sure it is, its text. */
  datatype Evidence = Evidence(kind: EvidenceType, confidence: Confidence, value: string)

  /** The values of the evidence of one kind, in the collection's order. */
  function ValuesOf(evidence: seq<Evidence>, kind: EvidenceType): (r: seq<string>)
    ensures |r| <= |evidence|
    ensures forall e :: e in evidence && e.kind == kind ==> e.value in r
    ensures forall v :: v in r ==> exists e :: e in evidence && e.kind == kind && e.value == v
    decreases |evidence|
  {
    if evidence == [] then []
    else
      var last := evidence[|evidence| - 1];
      ValuesOf(evidence[..|evidence| - 1], kind) + (if last.kind == kind then [last.value] else [])
  }

  /** The values of the evidence of one kind and one confidence. */
  function ValuesAt(evidence: seq<Evidence>, kind: EvidenceType, confidence: Confidence): (r: seq<string>)
    ensures |r| <= |evidence|
    ensures forall e :: e in evidence && e.kind == kind && e.confidence == confidence ==> e.value in r
    ensures forall v :: v in r ==> exists e :: e in evidence && e.kind == kind && e.confidence == confidence && e.value == v
    decreases |evidence|
  {
    if evidence == [] then []
    else
      var last := evidence[|evidence| - 1];
      ValuesAt(evidence[..|evidence| - 1], kind, confidence) +
        (if last.kind == kind && last.confidence == confidence then [last.value] else [])
  }

  class Dependency {
    const evidence: seq<Evidence>
    /** getName() and getVersion(); None is null. */
    const name: Option<string>
    const version: Option<string>
    const ecosystem: Option<string>
    const vendorWeightings: seq<string>
    const productWeightings: seq<string>
    /** getVulnerableSoftwareIdentifiers(). */
    var identifiers: set<Identifier>

    constructor (evidence: seq<Evidence>, name: Option<string>, version: Option<string>, ecosystem: Option<string>,
                 vendorWeightings: seq<string>, productWeightings: seq<string>)
      ensures this.evidence == evidence && this.name == name && this.version == version
      ensures this.ecosystem == ecosystem && this.identifiers == {}
      ensures this.vendorWeightings == vendorWeightings && this.productWeightings == productWeightings
    {
      this.evidence := evidence;
      this.name := name;
      this.version := version;
      this.ecosystem := ecosystem;
      this.vendorWeightings := vendorWeightings;
      this.productWeightings := productWeightings;
      this.identifiers := {};
    }
  }
}
