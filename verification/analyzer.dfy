/**
 * The two drivers of CPEAnalyzer: determineIdentifiers (CPEAnalyzer.java:
 * 720-926), which turns one verified vendor/product pair into identifiers on
 * the dependency, and determineCPE (262-313), which widens the vendor and
 * product terms tier by tier, searches the CPE index, verifies each hit once
 * and stops after the first tier that identifies something.
 */
module Analyzer {
  import opened Wrappers
  import opened Confidences
  import opened Identifiers
  import opened Dependencies
  import opened TermCollection
  import opened QueryBuilder
  import opened EntryVerifier
  import opened EcosystemFilter
  import opened VersionReconciler
  import opened Selection

  /**
   * What the analyzer calls and cannot see: the Lucene query syntax, the
   * index search (None when the query fails; the hits are the distinct index
   * entries in rank order), the database's cve.getCPEs, the analyzers'
   * ecosystem names, the version operations, CpeBuilder validation, the
   * stop words, CpeIdentifier.compareTo and the suppression rules.
   */
  datatype Services = Services(
    syntax: QuerySyntax,
    search: string -> Option<seq<IndexEntry>>,
    catalog: (string, string) -> seq<CpePlus>,
    ecosystems: EcosystemNames,
    versions: VersionOps,
    cpeValid: Cpe -> bool,
    stopWords: set<string>,
    cmp: (Identifier, Identifier) -> int,
    suppressed: Identifier -> bool)

  /**
   * determineIdentifiers on the identifiers `ids`: the commit state it ends
   * with, or the AnalysisException it throws.
   */
  function Identify(env: Services, dependency: Dependency, ids: set<Identifier>, vendor: string, product: string,
                    confidence: Confidence): Result<CommitState, AnalysisError>
  {
    var cpes := FilterEcosystem(env.ecosystems, dependency.ecosystem, env.catalog(vendor, product));
    if cpes.None? || cpes.value == [] then Success(CommitState(ids, false, false))
    else
      match Candidates(env.versions, env.cpeValid, dependency.name, dependency.version, dependency.evidence,
                       vendor, product, confidence, cpes.value, env.stopWords)
      case Failure(e) => Failure(e)
      case Success(collected) => Success(Select(ids, collected, env.cmp, env.suppressed))
  }

  /**
   * A successful determineIdentifiers leaves the identifiers it had, minus
   * suppressed ones, plus new ones that are unsuppressed, catalog or
   * declared or guessed CPEs of the strongest kind of match found, and no
   * weaker than the strongest identifier already present; with no catalog
   * CPE of a compatible ecosystem it changes nothing.
   */
  lemma IdentifyOnlyAddsStrongest(env: Services, dependency: Dependency, ids: set<Identifier>, vendor: string,
                                  product: string, confidence: Confidence)
    requires IsComparator(env.cmp)
    ensures var r := Identify(env, dependency, ids, vendor, product, confidence);
      r.Success? ==>
        && (forall i :: i in r.value.ids ==> i in ids || !env.suppressed(i))
        && (forall i :: i in r.value.ids && i !in ids ==> Ordinal(i.confidence) <= Ordinal(PriorBest(ids)))
    ensures var cpes := FilterEcosystem(env.ecosystems, dependency.ecosystem, env.catalog(vendor, product));
      cpes.None? || cpes.value == [] ==>
        Identify(env, dependency, ids, vendor, product, confidence) == Success(CommitState(ids, false, false))
  {
    var cpes := FilterEcosystem(env.ecosystems, dependency.ecosystem, env.catalog(vendor, product));
    if cpes.Some? && cpes.value != [] {
      var c := Candidates(env.versions, env.cpeValid, dependency.name, dependency.version, dependency.evidence,
                          vendor, product, confidence, cpes.value, env.stopWords);
      if c.Success? {
        SelectCommitsStrongest(ids, c.value, env.cmp, env.suppressed);
        NewIdentifiersAreStrongest(ids, c.value, env.cmp, env.suppressed);
      }
    }
  }

  /** determineIdentifiers (720-926). */
  method DetermineIdentifiers(env: Services, dependency: Dependency, vendor: string, product: string,
                              currentConfidence: Confidence) returns (r: Result<bool, AnalysisError>)
    modifies dependency
    ensures var spec := Identify(env, dependency, old(dependency.identifiers), vendor, product, currentConfidence);
      && (spec.Failure? ==> r == Failure(spec.error) && dependency.identifiers == old(dependency.identifiers))
      && (spec.Success? ==> r == Success(spec.value.added) && dependency.identifiers == spec.value.ids)
  {
    var cpes := FilterEcosystem(env.ecosystems, dependency.ecosystem, env.catalog(vendor, product));
    if cpes.None? || cpes.value == [] {
      return Success(false);
    }
    var collected := CollectCandidates(env.versions, env.cpeValid, dependency, vendor, product, currentConfidence,
                                       cpes.value, env.stopWords);
    if collected.Failure? {
      return Failure(collected.error);
    }
    var identifierAdded := Commit(dependency, collected.value, env.cmp, env.suppressed);
    return Success(identifierAdded);
  }

  // ---------------------------------------------------------------------------
  // determineCPE

  /** A term map: its keys in insertion order and its counts. */
  datatype Terms = Terms(keys: seq<string>, counts: map<string, nat>)

  /** collectTerms applied to a term map. */
  function Gather(t: Terms, values: seq<string>): Terms {
    Terms(CollectedKeys(t.keys, values), CollectedCounts(t.counts, values))
  }

  /** The query buildSearch makes from the two term maps. */
  function Query(env: Services, dependency: Dependency, vendors: Terms, products: Terms): Option<string> {
    if vendors.counts == map[] || products.counts == map[] then None
    else Some(FieldClause(ProductField, products.keys, products.counts, dependency.productWeightings, env.syntax) +
              " AND " + FieldClause(VendorField, vendors.keys, vendors.counts, dependency.vendorWeightings, env.syntax))
  }

  /** searchCPE (399-440): no hits without a query, None when the index search fails. */
  function SearchCpe(env: Services, query: Option<string>): Option<seq<IndexEntry>> {
    if query.None? then Some([]) else env.search(query.value)
  }

  /**
   * The variables of determineCPE: the two term maps, previouslyFound, the
   * document ids verified so far in order, the dependency's identifiers,
   * whether the last tier searched added one, and the exception thrown.
   */
  datatype Driver = Driver(vendors: Terms, products: Terms, previouslyFound: set<int>, verified: seq<int>,
                           ids: set<Identifier>, identified: bool, failure: Option<AnalysisError>)

  function Start(ids: set<Identifier>): Driver {
    Driver(Terms([], map[]), Terms([], map[]), {}, [], ids, false, None)
  }

  /** The entry passes verifyEntry. */
  predicate Verified(env: Services, dependency: Dependency, e: IndexEntry) {
    && CollectionContains(ValuesOf(dependency.evidence, ProductEvidence), e.product, env.stopWords)
    && CollectionContains(ValuesOf(dependency.evidence, VendorEvidence), e.vendor, env.stopWords)
  }

  /** One index hit of tier `conf` (296-305); `added` is the tier's identifierAdded. */
  function EntryStep(env: Services, dependency: Dependency, conf: Confidence, d: Driver, e: IndexEntry): Driver {
    if d.failure.Some? || e.documentId in d.previouslyFound then d
    else
      var d1 := d.(previouslyFound := d.previouslyFound + {e.documentId}, verified := d.verified + [e.documentId]);
      if !Verified(env, dependency, e) then d1
      else
        match Identify(env, dependency, d.ids, e.vendor.value, e.product.value, conf)
        case Failure(err) => d1.(failure := Some(err))
        case Success(c) => d1.(ids := c.ids, identified := d.identified || c.added)
  }

  function EntriesAll(env: Services, dependency: Dependency, conf: Confidence, d: Driver, entries: seq<IndexEntry>)
    : Driver
    decreases |entries|
  {
    if entries == [] then d
    else EntryStep(env, dependency, conf, EntriesAll(env, dependency, conf, d, entries[..|entries| - 1]),
                   entries[|entries| - 1])
  }

  /** One tier of determineCPE (266-311); nothing happens after an identification or an exception. */
  function TierStep(env: Services, dependency: Dependency, d: Driver, conf: Confidence): Driver {
    if d.identified || d.failure.Some? then d
    else
      var vendors := Gather(d.vendors, ValuesAt(dependency.evidence, VendorEvidence, conf));
      var products := Gather(d.products, ValuesAt(dependency.evidence, ProductEvidence, conf));
      var d1 := d.(vendors := vendors, products := products);
      if vendors.counts == map[] || products.counts == map[] then d1
      else
        match SearchCpe(env, Query(env, dependency, vendors, products))
        case None => d1
        case Some(entries) => EntriesAll(env, dependency, conf, d1, entries)
  }

  function DriveTiers(env: Services, dependency: Dependency, d: Driver, tiers: seq<Confidence>): Driver
    decreases |tiers|
  {
    if tiers == [] then d
    else TierStep(env, dependency, DriveTiers(env, dependency, d, tiers[..|tiers| - 1]), tiers[|tiers| - 1])
  }

  /** The evidence values of `kind` over the first `k` tiers, tier by tier. */
  function TierValues(evidence: seq<Evidence>, kind: EvidenceType, k: nat): seq<string>
    requires k <= |Tiers|
  {
    if k == 0 then [] else TierValues(evidence, kind, k - 1) + ValuesAt(evidence, kind, Tiers[k - 1])
  }

  // ---------------------------------------------------------------------------
  // Properties of determineCPE

  /** Each document id is verified at most once, and previouslyFound is the set of those verified. */
  ghost predicate VerifiesOnce(d: Driver) {
    && (forall i, j :: 0 <= i < j < |d.verified| ==> d.verified[i] != d.verified[j])
    && (forall id :: id in d.previouslyFound <==> id in d.verified)
  }

  lemma {:induction false} EntriesVerifyOnce(env: Services, dependency: Dependency, conf: Confidence, d: Driver,
                                             entries: seq<IndexEntry>)
    requires VerifiesOnce(d)
    ensures VerifiesOnce(EntriesAll(env, dependency, conf, d, entries))
    decreases |entries|
  {
    if entries != [] {
      var before := EntriesAll(env, dependency, conf, d, entries[..|entries| - 1]);
      EntriesVerifyOnce(env, dependency, conf, d, entries[..|entries| - 1]);
      EntryStepRecords(env, dependency, conf, before, entries[|entries| - 1]);
    }
  }

  /** A hit not seen before is recorded once, in both previouslyFound and the verified ids. */
  lemma EntryStepRecords(env: Services, dependency: Dependency, conf: Confidence, d: Driver, e: IndexEntry)
    requires VerifiesOnce(d)
    ensures VerifiesOnce(EntryStep(env, dependency, conf, d, e))
  {
    var r := EntryStep(env, dependency, conf, d, e);
    if d.failure.None? && e.documentId !in d.previouslyFound {
      assert r.previouslyFound == d.previouslyFound + {e.documentId};
      assert r.verified == d.verified + [e.documentId];
    } else {
      assert r == d;
    }
  }

  /** determineCPE verifies every document id at most once over all tiers. */
  lemma {:induction false} DriverVerifiesOnce(env: Services, dependency: Dependency, ids: set<Identifier>,
                                              tiers: seq<Confidence>)
    ensures VerifiesOnce(DriveTiers(env, dependency, Start(ids), tiers))
    decreases |tiers|
  {
    if tiers != [] {
      var conf := tiers[|tiers| - 1];
      var d := DriveTiers(env, dependency, Start(ids), tiers[..|tiers| - 1]);
      DriverVerifiesOnce(env, dependency, ids, tiers[..|tiers| - 1]);
      if !d.identified && d.failure.None? {
        var vendors := Gather(d.vendors, ValuesAt(dependency.evidence, VendorEvidence, conf));
        var products := Gather(d.products, ValuesAt(dependency.evidence, ProductEvidence, conf));
        var d1 := d.(vendors := vendors, products := products);
        var found := SearchCpe(env, Query(env, dependency, vendors, products));
        if found.Some? {
          EntriesVerifyOnce(env, dependency, conf, d1, found.value);
        }
      }
    }
  }

  lemma {:induction false} DriverStops(env: Services, dependency: Dependency, d: Driver, tiers: seq<Confidence>)
    requires d.identified || d.failure.Some?
    ensures DriveTiers(env, dependency, d, tiers) == d
    decreases |tiers|
  {
    if tiers != [] {
      DriverStops(env, dependency, d, tiers[..|tiers| - 1]);
    }
  }

  /**
   * Once a tier identifies something (or throws), the remaining tiers do
   * nothing: determineCPE stops after the first tier that returns true.
   */
  lemma StopsAfterFirstIdentification(env: Services, dependency: Dependency, ids: set<Identifier>, k: nat)
    requires k <= |Tiers|
    ensures var mid := DriveTiers(env, dependency, Start(ids), Tiers[..k]);
      mid.identified || mid.failure.Some? ==> DriveTiers(env, dependency, Start(ids), Tiers) == mid
  {
    var mid := DriveTiers(env, dependency, Start(ids), Tiers[..k]);
    if mid.identified || mid.failure.Some? {
      DriveInSteps(env, dependency, Start(ids), Tiers[..k], Tiers[k..]);
      assert Tiers[..k] + Tiers[k..] == Tiers;
      DriverStops(env, dependency, mid, Tiers[k..]);
    }
  }

  lemma {:induction false} DriveInSteps(env: Services, dependency: Dependency, d: Driver, first: seq<Confidence>,
                                        second: seq<Confidence>)
    ensures DriveTiers(env, dependency, DriveTiers(env, dependency, d, first), second) ==
      DriveTiers(env, dependency, d, first + second)
    decreases |second|
  {
    if second == [] {
      assert first + second == first;
    } else {
      var all := first + second;
      var init, last := second[..|second| - 1], second[|second| - 1];
      assert all[..|all| - 1] == first + init && all[|all| - 1] == last;
      DriveInSteps(env, dependency, d, first, init);
      calc {
        DriveTiers(env, dependency, DriveTiers(env, dependency, d, first), second);
        TierStep(env, dependency, DriveTiers(env, dependency, DriveTiers(env, dependency, d, first), init), last);
        TierStep(env, dependency, DriveTiers(env, dependency, d, first + init), last);
        DriveTiers(env, dependency, d, all);
      }
    }
  }

  /**
   * The term maps are never reset: while no tier has identified anything,
   * the counts after `k` tiers are those of all vendor (product) evidence of
   * those tiers collected at once.
   */
  lemma {:induction false} TermsAccumulate(env: Services, dependency: Dependency, ids: set<Identifier>, k: nat)
    requires k <= |Tiers|
    ensures var d := DriveTiers(env, dependency, Start(ids), Tiers[..k]);
      !d.identified && d.failure.None? ==>
        && d.vendors.counts == CollectedCounts(map[], TierValues(dependency.evidence, VendorEvidence, k))
        && d.products.counts == CollectedCounts(map[], TierValues(dependency.evidence, ProductEvidence, k))
  {
    if k > 0 {
      var conf := Tiers[k - 1];
      DriveSnoc(env, dependency, Start(ids), k - 1);
      var before := DriveTiers(env, dependency, Start(ids), Tiers[..k - 1]);
      var d := DriveTiers(env, dependency, Start(ids), Tiers[..k]);
      assert d == TierStep(env, dependency, before, conf);
      if !before.identified && before.failure.None? {
        var vendorValues := ValuesAt(dependency.evidence, VendorEvidence, conf);
        var productValues := ValuesAt(dependency.evidence, ProductEvidence, conf);
        TermsAccumulate(env, dependency, ids, k - 1);
        TierKeepsTerms(env, dependency, before, conf);
        assert d.vendors.counts == CollectedCounts(before.vendors.counts, vendorValues);
        assert d.products.counts == CollectedCounts(before.products.counts, productValues);
        CollectInSteps(map[], TierValues(dependency.evidence, VendorEvidence, k - 1), vendorValues);
        CollectInSteps(map[], TierValues(dependency.evidence, ProductEvidence, k - 1), productValues);
      } else {
        assert d == before;
      }
    }
  }

  lemma {:induction false} EntriesKeepTerms(env: Services, dependency: Dependency, conf: Confidence, d: Driver,
                                            entries: seq<IndexEntry>)
    ensures var r := EntriesAll(env, dependency, conf, d, entries);
      r.vendors == d.vendors && r.products == d.products
    decreases |entries|
  {
    if entries != [] {
      var before := EntriesAll(env, dependency, conf, d, entries[..|entries| - 1]);
      EntriesKeepTerms(env, dependency, conf, d, entries[..|entries| - 1]);
      var r := EntryStep(env, dependency, conf, before, entries[|entries| - 1]);
      assert r.vendors == before.vendors && r.products == before.products;
    }
  }

  /** A tier that runs gathers its evidence into the term maps, and the search leaves them alone. */
  lemma TierKeepsTerms(env: Services, dependency: Dependency, d: Driver, conf: Confidence)
    requires !d.identified && d.failure.None?
    ensures TierStep(env, dependency, d, conf).vendors == Gather(d.vendors, ValuesAt(dependency.evidence, VendorEvidence, conf))
    ensures TierStep(env, dependency, d, conf).products == Gather(d.products, ValuesAt(dependency.evidence, ProductEvidence, conf))
  {
    var vendors := Gather(d.vendors, ValuesAt(dependency.evidence, VendorEvidence, conf));
    var products := Gather(d.products, ValuesAt(dependency.evidence, ProductEvidence, conf));
    var d1 := d.(vendors := vendors, products := products);
    var found := SearchCpe(env, Query(env, dependency, vendors, products));
    if found.Some? {
      EntriesKeepTerms(env, dependency, conf, d1, found.value);
    }
  }

  /** One hit of a tier (295-305). */
  method IdentifyEntry(env: Services, dependency: Dependency, confidence: Confidence, e: IndexEntry,
                       found: set<int>, added: bool, ghost d: Driver)
    returns (previouslyFound: set<int>, ghost verified: seq<int>, identifierAdded: bool,
             failure: Option<AnalysisError>)
    requires d.previouslyFound == found && d.identified == added && d.ids == dependency.identifiers
    requires d.failure.None?
    modifies dependency
    ensures EntryStep(env, dependency, confidence, d, e) ==
      d.(previouslyFound := previouslyFound, verified := verified, ids := dependency.identifiers,
         identified := identifierAdded, failure := failure)
  {
    previouslyFound, verified, identifierAdded, failure := found, d.verified, added, None;
    if e.documentId in previouslyFound {
      return;
    }
    previouslyFound := previouslyFound + {e.documentId};
    verified := verified + [e.documentId];
    var isValid := VerifyEntry(e, dependency, env.stopWords);
    if isValid {
      var vendor := e.vendor.value;
      var product := e.product.value;
      var r := DetermineIdentifiers(env, dependency, vendor, product, confidence);
      if r.Failure? {
        failure := Some(r.error);
      } else {
        identifierAdded := identifierAdded || r.value;
      }
    }
  }

  /**
   * The hits of one tier (294-306): each document id not found before is
   * recorded, verified and, when it passes, identified.
   */
  method IdentifyEntries(env: Services, dependency: Dependency, confidence: Confidence, entries: seq<IndexEntry>,
                         found: set<int>, ghost d: Driver)
    returns (previouslyFound: set<int>, ghost verified: seq<int>, identifierAdded: bool,
             failure: Option<AnalysisError>)
    requires d.previouslyFound == found && !d.identified && d.ids == dependency.identifiers && d.failure.None?
    modifies dependency
    ensures EntriesAll(env, dependency, confidence, d, entries) ==
      d.(previouslyFound := previouslyFound, verified := verified, ids := dependency.identifiers,
         identified := identifierAdded, failure := failure)
  {
    previouslyFound, verified, identifierAdded, failure := found, d.verified, false, None;
    for n := 0 to |entries|
      invariant failure.None?
      invariant EntriesAll(env, dependency, confidence, d, entries[..n]) ==
        d.(previouslyFound := previouslyFound, verified := verified, ids := dependency.identifiers,
           identified := identifierAdded, failure := None)
    {
      EntriesSnoc(env, dependency, confidence, d, entries, n);
      ghost var before := EntriesAll(env, dependency, confidence, d, entries[..n]);
      previouslyFound, verified, identifierAdded, failure :=
        IdentifyEntry(env, dependency, confidence, entries[n], previouslyFound, identifierAdded, before);
      if failure.Some? {
        EntriesStopAt(env, dependency, confidence, d, entries, n);
        return;
      }
    }
    assert entries[..|entries|] == entries;
  }

  /**
   * One tier of determineCPE (267-310): the tier's vendor and product
   * evidence joins the term maps, and when both are non-empty the hits of
   * their query are identified.
   */
  method SearchTier(env: Services, dependency: Dependency, confidence: Confidence, vendors: TermCounts,
                    products: TermCounts, found: set<int>, ghost d: Driver)
    returns (previouslyFound: set<int>, ghost verified: seq<int>, identifierAdded: bool,
             failure: Option<AnalysisError>)
    requires vendors.Valid() && products.Valid() && vendors != products
    requires d == Driver(Terms(vendors.keys, vendors.counts), Terms(products.keys, products.counts), found,
                         d.verified, dependency.identifiers, false, None)
    modifies vendors, products, dependency
    ensures vendors.Valid() && products.Valid()
    ensures TierStep(env, dependency, d, confidence) ==
      Driver(Terms(vendors.keys, vendors.counts), Terms(products.keys, products.counts), previouslyFound,
             verified, dependency.identifiers, identifierAdded, failure)
  {
    previouslyFound, verified, identifierAdded, failure := found, d.verified, false, None;
    ghost var vt := Gather(d.vendors, ValuesAt(dependency.evidence, VendorEvidence, confidence));
    ghost var pt := Gather(d.products, ValuesAt(dependency.evidence, ProductEvidence, confidence));
    ghost var d1 := d.(vendors := vt, products := pt);
    vendors.CollectTerms(ValuesAt(dependency.evidence, VendorEvidence, confidence));
    products.CollectTerms(ValuesAt(dependency.evidence, ProductEvidence, confidence));
    assert Terms(vendors.keys, vendors.counts) == vt && Terms(products.keys, products.counts) == pt;
    if vendors.counts != map[] && products.counts != map[] {
      var query := BuildSearch(vendors, products, dependency.vendorWeightings, dependency.productWeightings,
                               env.syntax);
      assert query == Query(env, dependency, vt, pt);
      var entries := SearchCpe(env, query);
      if entries.Some? {
        assert TierStep(env, dependency, d, confidence) == EntriesAll(env, dependency, confidence, d1, entries.value);
        previouslyFound, verified, identifierAdded, failure :=
          IdentifyEntries(env, dependency, confidence, entries.value, previouslyFound, d1);
      } else {
        assert TierStep(env, dependency, d, confidence) == d1;
      }
    } else {
      assert TierStep(env, dependency, d, confidence) == d1;
    }
  }

  /**
   * determineCPE (262-313): the identifiers it leaves on the dependency and
   * the exception it throws, if any.
   */
  method DetermineCPE(env: Services, dependency: Dependency) returns (failure: Option<AnalysisError>)
    modifies dependency
    ensures var d := DriveTiers(env, dependency, Start(old(dependency.identifiers)), Tiers);
      dependency.identifiers == d.ids && failure == d.failure
  {
    var vendors := new TermCounts();
    var products := new TermCounts();
    var previouslyFound: set<int> := {};
    ghost var verified: seq<int> := [];
    ghost var start := Start(dependency.identifiers);
    for t := 0 to |Tiers|
      invariant vendors.Valid() && products.Valid() && vendors != products
      invariant Driver(Terms(vendors.keys, vendors.counts), Terms(products.keys, products.counts), previouslyFound,
                       verified, dependency.identifiers, false, None) == DriveTiers(env, dependency, start, Tiers[..t])
    {
      ghost var d := DriveTiers(env, dependency, start, Tiers[..t]);
      DriveSnoc(env, dependency, start, t);
      var identifierAdded;
      previouslyFound, verified, identifierAdded, failure :=
        SearchTier(env, dependency, Tiers[t], vendors, products, previouslyFound, d);
      ghost var next := Driver(Terms(vendors.keys, vendors.counts), Terms(products.keys, products.counts),
                               previouslyFound, verified, dependency.identifiers, identifierAdded, failure);
      assert next == DriveTiers(env, dependency, start, Tiers[..t + 1]);
      if failure.Some? || identifierAdded {
        StopsAfterFirstIdentification(env, dependency, start.ids, t + 1);
        return;
      }
    }
    assert Tiers[..|Tiers|] == Tiers;
    return None;
  }

  /** The tiers up to `t` are the tiers before `t`, then tier `t`. */
  lemma DriveSnoc(env: Services, dependency: Dependency, d: Driver, t: nat)
    requires t < |Tiers|
    ensures DriveTiers(env, dependency, d, Tiers[..t + 1]) ==
      TierStep(env, dependency, DriveTiers(env, dependency, d, Tiers[..t]), Tiers[t])
  {
    assert Tiers[..t + 1][..t] == Tiers[..t];
  }

  lemma {:induction false} EntriesStop(env: Services, dependency: Dependency, conf: Confidence, d: Driver,
                                       entries: seq<IndexEntry>)
    requires d.failure.Some?
    ensures EntriesAll(env, dependency, conf, d, entries) == d
    decreases |entries|
  {
    if entries != [] {
      EntriesStop(env, dependency, conf, d, entries[..|entries| - 1]);
    }
  }

  /** The hits up to `n` are the hits before `n`, then hit `n`. */
  lemma EntriesSnoc(env: Services, dependency: Dependency, conf: Confidence, d: Driver, entries: seq<IndexEntry>,
                    n: nat)
    requires n < |entries|
    ensures EntriesAll(env, dependency, conf, d, entries[..n + 1]) ==
      EntryStep(env, dependency, conf, EntriesAll(env, dependency, conf, d, entries[..n]), entries[n])
  {
    assert entries[..n + 1][..n] == entries[..n];
  }

  /** An exception at hit `n` ends the loop over the hits. */
  lemma EntriesStopAt(env: Services, dependency: Dependency, conf: Confidence, d: Driver, entries: seq<IndexEntry>,
                      n: nat)
    requires n < |entries|
    requires EntriesAll(env, dependency, conf, d, entries[..n + 1]).failure.Some?
    ensures EntriesAll(env, dependency, conf, d, entries) == EntriesAll(env, dependency, conf, d, entries[..n + 1])
  {
    var first, rest := entries[..n + 1], entries[n + 1..];
    var stopped := EntriesAll(env, dependency, conf, d, first);
    EntriesStop(env, dependency, conf, stopped, rest);
    EntriesInSteps(env, dependency, conf, d, first, rest);
    assert first + rest == entries;
    calc {
      EntriesAll(env, dependency, conf, d, entries);
      EntriesAll(env, dependency, conf, d, first + rest);
      EntriesAll(env, dependency, conf, stopped, rest);
      stopped;
    }
  }

  lemma {:induction false} EntriesInSteps(env: Services, dependency: Dependency, conf: Confidence, d: Driver,
                                          first: seq<IndexEntry>, second: seq<IndexEntry>)
    ensures EntriesAll(env, dependency, conf, EntriesAll(env, dependency, conf, d, first), second) ==
      EntriesAll(env, dependency, conf, d, first + second)
    decreases |second|
  {
    if second == [] {
      assert first + second == first;
    } else {
      var all := first + second;
      assert all[..|all| - 1] == first + second[..|second| - 1];
      EntriesInSteps(env, dependency, conf, d, first, second[..|second| - 1]);
    }
  }
}
