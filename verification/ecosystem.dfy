/**
 * The ecosystem filter over catalog CPEs (CPEAnalyzer.filterEcosystem,
 * CPEAnalyzer.java:948-1004): a catalog entry tagged with an ecosystem, or
 * with one of its aliases, fits only a dependency of that ecosystem; two tags
 * fit none; untagged entries and unknown tags fit every dependency.
 */
module EcosystemFilter {
  import opened Wrappers
  import opened Identifiers

  /**
   * The DEPENDENCY_ECOSYSTEM constants of the Jar, Nugetconf, RetireJs,
   * PythonDistribution, CMake, ComposerLock, npm and RubyBundleAudit analyzers.
   */
  datatype EcosystemNames = EcosystemNames(
    jar: string, nuget: string, retireJs: string, python: string,
    cmake: string, composer: string, npm: string, ruby: string)

  /** The case labels of one branch of the switch, and the ecosystem the branch demands. */
  datatype AliasGroup = AliasGroup(tags: seq<string>, target: string)

  /** The branches of the switch that compare the dependency's ecosystem, in source order. */
  function AliasTable(n: EcosystemNames): seq<AliasGroup> {
    [ AliasGroup([n.jar, "java"], n.jar),
      AliasGroup([n.nuget, "asp.net"], n.nuget),
      AliasGroup([n.retireJs, "jquery"], n.retireJs),
      AliasGroup([n.python], n.python),
      AliasGroup([n.cmake, "borland_c++", "c/c++", "gnu_c++"], n.cmake),
      AliasGroup([n.composer, "drupal", "joomla", "joomla!", "moodle", "phpcms", "piwigo",
                  "simplesamlphp", "symfony", "typo3"], n.composer),
      AliasGroup([n.npm, "node.js", "nodejs"], n.npm),
      AliasGroup([n.ruby, "rails"], n.ruby) ]
  }

  /** The labels whose branch returns false. */
  const NeverCompatible: seq<string> := ["perl", "delphi"]

  /** No two branches share a label: Java rejects a switch with duplicate labels. */
  ghost predicate DistinctLabels(table: seq<AliasGroup>) {
    && (forall i, j, x :: 0 <= i < j < |table| && x in table[i].tags ==> x !in table[j].tags)
    && (forall i, x :: 0 <= i < |table| && x in table[i].tags ==> x !in NeverCompatible)
  }

  ghost predicate WellFormed(n: EcosystemNames) {
    DistinctLabels(AliasTable(n))
  }

  /** The ecosystem the first branch labelled `tag` demands. */
  function Lookup(table: seq<AliasGroup>, tag: string): (r: Option<string>)
    ensures r.None? <==> forall i :: 0 <= i < |table| ==> tag !in table[i].tags
    ensures r.Some? ==> exists i :: 0 <= i < |table| && tag in table[i].tags && r.value == table[i].target
  {
    if table == [] then None
    else if tag in table[0].tags then Some(table[0].target)
    else
      var r := Lookup(table[1..], tag);
      assert forall i :: 1 <= i < |table| ==> table[1..][i - 1] == table[i];
      r
  }

  /** With distinct labels a tag selects the one branch that lists it. */
  lemma {:induction false} LookupFindsBranch(table: seq<AliasGroup>, k: nat, tag: string)
    requires DistinctLabels(table)
    requires k < |table| && tag in table[k].tags
    ensures Lookup(table, tag) == Some(table[k].target)
    decreases k
  {
    if k > 0 {
      assert tag !in table[0].tags;
      assert DistinctLabels(table[1..]) by {
        assert forall i :: 0 <= i < |table[1..]| ==> table[1..][i] == table[i + 1];
      }
      assert table[1..][k - 1] == table[k];
      LookupFindsBranch(table[1..], k - 1, tag);
    }
  }

  /** The predicate of the stream filter for a dependency of ecosystem `ecosystem`. */
  predicate Compatible(n: EcosystemNames, ecosystem: string, tag: Option<string>) {
    match tag
    case None => true
    case Some(t) =>
      match Lookup(AliasTable(n), t)
      case Some(target) => ecosystem == target
      case None => t !in NeverCompatible
  }

  /** The distinct elements of `s` in order of first occurrence (Collectors.toSet). */
  function Distinct(s: seq<Cpe>): (r: seq<Cpe>)
    ensures forall x :: x in r <==> x in s
    ensures forall i, j :: 0 <= i < j < |r| ==> r[i] != r[j]
    decreases |s|
  {
    if s == [] then []
    else
      var init := Distinct(s[..|s| - 1]);
      var x := s[|s| - 1];
      if x in init then init else init + [x]
  }

  /** The CPEs of the entries that pass the filter. */
  function KeptCpes(n: EcosystemNames, ecosystem: Option<string>, entries: seq<CpePlus>): (r: seq<Cpe>)
    ensures forall c :: c in r <==>
      exists e :: e in entries && e.cpe == c && (ecosystem.None? || Compatible(n, ecosystem.value, e.ecosystem))
    decreases |entries|
  {
    if entries == [] then []
    else
      var e := entries[|entries| - 1];
      var init := KeptCpes(n, ecosystem, entries[..|entries| - 1]);
      assert forall x :: x in entries <==> x in entries[..|entries| - 1] || x == e by {
        assert entries == entries[..|entries| - 1] + [e];
      }
      if ecosystem.None? || Compatible(n, ecosystem.value, e.ecosystem) then init + [e.cpe] else init
  }

  /**
   * filterEcosystem: None (null) for no entries; otherwise the distinct CPEs
   * of the entries, only those compatible with the dependency's ecosystem
   * when it has one.
   */
  function FilterEcosystem(n: EcosystemNames, ecosystem: Option<string>, entries: seq<CpePlus>): (r: Option<seq<Cpe>>)
    ensures r.None? <==> entries == []
    ensures r.Some? ==> forall i, j :: 0 <= i < j < |r.value| ==> r.value[i] != r.value[j]
    ensures r.Some? ==> forall c :: c in r.value <==>
      exists e :: e in entries && e.cpe == c && (ecosystem.None? || Compatible(n, ecosystem.value, e.ecosystem))
  {
    if entries == [] then None
    else Some(Distinct(KeptCpes(n, ecosystem, entries)))
  }

  /**
   * A tag of a branch (the analyzer's own name or an alias such as "nodejs")
   * fits exactly the dependencies of that branch's ecosystem.
   */
  lemma AliasFitsOnlyItsEcosystem(n: EcosystemNames, k: nat, tag: string, ecosystem: string)
    requires WellFormed(n)
    requires k < |AliasTable(n)| && tag in AliasTable(n)[k].tags
    ensures Compatible(n, ecosystem, Some(tag)) <==> ecosystem == AliasTable(n)[k].target
  {
    LookupFindsBranch(AliasTable(n), k, tag);
  }

  /** "perl" and "delphi" fit no dependency; a tag the switch does not list fits every one. */
  lemma FixedVerdicts(n: EcosystemNames, ecosystem: string, tag: string)
    requires WellFormed(n)
    ensures tag in NeverCompatible ==> !Compatible(n, ecosystem, Some(tag))
    ensures (forall i :: 0 <= i < |AliasTable(n)| ==> tag !in AliasTable(n)[i].tags) && tag !in NeverCompatible ==>
      Compatible(n, ecosystem, Some(tag))
  {
  }

  /** "nodejs" and "node.js" entries are kept for npm dependencies and dropped for Java ones. */
  lemma NodeAliasesNeedNpm(n: EcosystemNames, cpe: Cpe)
    requires WellFormed(n) && n.jar != n.npm
    ensures FilterEcosystem(n, Some(n.npm), [CpePlus(cpe, Some("nodejs"))]) == Some([cpe])
    ensures FilterEcosystem(n, Some(n.jar), [CpePlus(cpe, Some("node.js"))]) == Some([])
  {
    AliasFitsOnlyItsEcosystem(n, 6, "nodejs", n.npm);
    AliasFitsOnlyItsEcosystem(n, 6, "node.js", n.jar);
    var npmEntry, jsEntry := CpePlus(cpe, Some("nodejs")), CpePlus(cpe, Some("node.js"));
    assert Compatible(n, n.npm, npmEntry.ecosystem);
    assert !Compatible(n, n.jar, jsEntry.ecosystem);
    assert [npmEntry][..0] == [] && [jsEntry][..0] == [];
    assert KeptCpes(n, Some(n.npm), [npmEntry]) == [cpe];
    assert KeptCpes(n, Some(n.jar), [jsEntry]) == [];
    assert Distinct([cpe]) == [cpe] by {
      assert [cpe][..0] == [];
    }
  }
}
