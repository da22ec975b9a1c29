/**
 * Candidate generation of determineIdentifiers (CPEAnalyzer.java:720-886):
 * the catalog's deepest version, the declared-version shortcut, the scan of
 * the version evidence tier by tier against every catalog CPE with its
 * running best guess, and the best-guess candidate built at the end.
 *
 * DependencyVersion is its list of parts; the parsing inside
 * DependencyVersionUtil and DependencyVersion, equals and
 * matchesAtLeastThreeLevels are foreign code and come in as a VersionOps.
 */
module VersionReconciler {
  import opened Wrappers
  import opened Text
  import opened Confidences
  import opened Identifiers
  import opened Dependencies

  /** A DependencyVersion: its version parts. */
  type Version = seq<string>

  /**
   * The version operations the analyzer calls:
   * `parse(text, firstMatchOnly)` is DependencyVersionUtil.parseVersion (None
   * for null; the one-argument overload is `firstMatchOnly == false`),
   * `create` the DependencyVersion(String) constructor, `render` its
   * toString, `same` its equals and `matchesThreeLevels` its
   * matchesAtLeastThreeLevels.
   */
  datatype VersionOps = VersionOps(
    parse: (string, bool) -> Option<Version>,
    create: string -> Version,
    render: Version -> string,
    same: (Version, Version) -> bool,
    matchesThreeLevels: (Version, Version) -> bool)

  /** The AnalysisException thrown when CpeBuilder.build rejects a CPE. */
  datatype AnalysisError = CpeNotBuilt(vendor: string, product: string, version: string)

  /** The deepest version in the catalog: the most parts any catalog version parses into (737-746). */
  function MaxDepth(ops: VersionOps, cpes: seq<Cpe>): (d: nat)
    ensures forall c :: c in cpes && ops.parse(c.version, true).Some? ==> |ops.parse(c.version, true).value| <= d
    ensures d == 0 || exists c :: c in cpes && ops.parse(c.version, true).Some? && |ops.parse(c.version, true).value| == d
    decreases |cpes|
  {
    if cpes == [] then 0
    else
      var init := cpes[..|cpes| - 1];
      var last := cpes[|cpes| - 1];
      assert cpes == init + [last];
      var d := MaxDepth(ops, init);
      var v := ops.parse(last.version, true);
      if v.Some? && |v.value| > d then |v.value| else d
  }

  method ComputeMaxDepth(ops: VersionOps, cpes: seq<Cpe>) returns (maxDepth: nat)
    ensures maxDepth == MaxDepth(ops, cpes)
  {
    maxDepth := 0;
    for n := 0 to |cpes|
      invariant maxDepth == MaxDepth(ops, cpes[..n])
    {
      assert cpes[..n + 1][..n] == cpes[..n];
      var dbVer := ops.parse(cpes[n].version, true);
      if dbVer.Some? {
        var count := |dbVer.value|;
        if count > maxDepth {
          maxDepth := count;
        }
      }
    }
    assert cpes[..|cpes|] == cpes;
  }

  /** The part matches `^(v|beta|alpha|u|rc|m|20\d\d).*$`. */
  predicate IsUpdateQualifier(p: string) {
    && SingleLine(p)
    && (|| StartsWith(p, "v") || StartsWith(p, "beta") || StartsWith(p, "alpha") || StartsWith(p, "u")
        || StartsWith(p, "rc") || StartsWith(p, "m")
        || (|p| >= 4 && p[0] == '2' && p[1] == '0' && IsDigit(p[2]) && IsDigit(p[3])))
  }

  /** The part matches `^v\d.*$`. */
  predicate IsVNumber(p: string) {
    |p| >= 2 && p[0] == 'v' && IsDigit(p[1]) && SingleLine(p)
  }

  /**
   * A version is written as version plus update only against a catalog of
   * three-part versions, and only when its fourth part is an update qualifier.
   */
  predicate SplitsUpdate(maxDepth: nat, parts: Version) {
    maxDepth == 3 && |parts| == 4 && IsUpdateQualifier(parts[3])
  }

  /** The version and update the CpeBuilder is given for `parts` (765-776, 853-865). */
  function CpeFields(ops: VersionOps, maxDepth: nat, parts: Version): (string, Option<string>) {
    if SplitsUpdate(maxDepth, parts) then
      (Join(parts[..3], "."), Some(if IsVNumber(parts[3]) then parts[3][1..] else parts[3]))
    else (ops.render(parts), None)
  }

  /**
   * A split keeps every part: the version is the first three parts joined,
   * the update is the fourth with a leading `v` before a digit removed, and
   * the update never itself starts with `v` and a digit.
   */
  lemma {:induction false} SplitKeepsParts(ops: VersionOps, maxDepth: nat, parts: Version)
    requires SplitsUpdate(maxDepth, parts)
    ensures CpeFields(ops, maxDepth, parts).1.Some?
    ensures var (version, update) := CpeFields(ops, maxDepth, parts);
      Join(parts, ".") == version + "." + (if IsVNumber(parts[3]) then "v" else "") + update.value
    ensures !IsVNumber(CpeFields(ops, maxDepth, parts).1.value)
  {
    assert parts == parts[..3] + [parts[3]];
    JoinSnoc(parts[..3], parts[3], ".");
    if IsVNumber(parts[3]) {
      assert parts[3] == "v" + parts[3][1..];
    }
  }

  /** A CPE the builder makes for the application `vendor`:`product` with the given fields. */
  function BuildCpe(vendor: string, product: string, fields: (string, Option<string>)): Cpe {
    Cpe(Application, vendor, product, fields.0, fields.1)
  }

  predicate IsBackspace(c: char) { c == '\U{8}' }

  /**
   * The declared version is used unless the dependency has a name that fails
   * to contain some non-stop-word piece of `product` split on "\b" (751-757);
   * in a Java string literal "\b" is the backspace character, so the pieces
   * are the product cut at backspaces.
   */
  predicate UseDeclaredVersion(name: Option<string>, product: string, stopWords: set<string>) {
    || name.None? || name.value == ""
    || forall w :: w in JavaSplit(product, IsBackspace) ==> PieceAllowed(name.value, w, stopWords)
  }

  /** `name.contains(word) || stopWords.contains(word)`. */
  predicate PieceAllowed(name: string, word: string, stopWords: set<string>) {
    Contains(name, word) || word in stopWords
  }

  method DeclaredVersionGate(name: Option<string>, product: string, stopWords: set<string>) returns (use: bool)
    ensures use == UseDeclaredVersion(name, product, stopWords)
  {
    use := true;
    if name.Some? && name.value != "" {
      var words := JavaSplit(product, IsBackspace);
      for n := 0 to |words|
        invariant use <==> forall k :: 0 <= k < n ==> PieceAllowed(name.value, words[k], stopWords)
      {
        use := use && (Contains(name.value, words[n]) || words[n] in stopWords);
      }
      if !use {
        var k :| 0 <= k < |words| && !PieceAllowed(name.value, words[k], stopWords);
        assert words[k] in words;
      }
      assert use <==> forall w :: w in words ==> PieceAllowed(name.value, w, stopWords);
    }
  }

  /**
   * A product name without backspaces is one piece: the shortcut asks that
   * the name contain the whole product, or that the product be a stop word.
   */
  lemma DeclaredVersionNeedsWholeProduct(name: string, product: string, stopWords: set<string>)
    requires name != ""
    requires forall i :: 0 <= i < |product| ==> !IsBackspace(product[i])
    ensures UseDeclaredVersion(Some(name), product, stopWords) <==> Contains(name, product) || product in stopWords
  {
    if product != [] {
      PiecesOfWord(product, IsBackspace);
      assert JavaSplit(product, IsBackspace) == [product];
      assert product in [product];
      assert UseDeclaredVersion(Some(name), product, stopWords) <==> PieceAllowed(name, product, stopWords);
    } else {
      assert StartsWith(name[0..], product);
      assert PieceAllowed(name, product, stopWords);
    }
  }

  /**
   * The EXACT_MATCH candidate for the dependency's declared version (748-788):
   * none without a version, when the shortcut is off or when the version has
   * no parts; an error when the builder rejects the CPE.
   */
  function DeclaredCandidate(ops: VersionOps, cpeValid: Cpe -> bool, name: Option<string>, version: Option<string>,
                             vendor: string, product: string, confidence: Confidence, maxDepth: nat,
                             stopWords: set<string>): (r: Result<seq<IdentifierMatch>, AnalysisError>)
    ensures r.Success? ==> |r.value| <= 1
    ensures r.Success? && r.value != [] ==>
      && version.Some? && UseDeclaredVersion(name, product, stopWords)
      && r.value[0] == IdentifierMatch(
           Identifier(BuildCpe(vendor, product, CpeFields(ops, maxDepth, ops.create(version.value))), confidence),
           ExactMatch)
    ensures r.Failure? ==>
      && version.Some? && |ops.create(version.value)| > 0
      && !cpeValid(BuildCpe(vendor, product, CpeFields(ops, maxDepth, ops.create(version.value))))
  {
    if version.None? || version.value == "" || !UseDeclaredVersion(name, product, stopWords) then Success([])
    else
      var parts := ops.create(version.value);
      if |parts| == 0 then Success([])
      else
        var cpe := BuildCpe(vendor, product, CpeFields(ops, maxDepth, parts));
        if !cpeValid(cpe) then Failure(CpeNotBuilt(vendor, product, ops.render(ops.create("-"))))
        else Success([IdentifierMatch(Identifier(cpe, confidence), ExactMatch)])
  }

  /** The variables of the scan: the running best guess, its confidence (None while unset) and `collected`. */
  datatype Scan = Scan(guess: Version, guessConf: Option<Confidence>, collected: seq<IdentifierMatch>)

  /** `bestGuessConf == null || bestGuessConf.compareTo(conf) > 0`. */
  predicate MayReplace(guessConf: Option<Confidence>, conf: Confidence) {
    guessConf.None? || StrictlyWeaker(guessConf.value, conf)
  }

  /** The catalog version with its update appended, when the update is a real value (810-815). */
  function WithUpdate(ops: VersionOps, vs: Cpe, dbVer: Option<Version>): Option<Version> {
    match vs.update
    case Some(u) =>
      if u != "" && !StartsWith(u, "*") && !StartsWith(u, "-") then ops.parse(vs.version + "." + u, true)
      else dbVer
    case None => dbVer
  }

  /** The evidence version without its update part, when it has one (797-805). */
  function BaseVersion(maxDepth: nat, evVer: Version): Option<Version> {
    if SplitsUpdate(maxDepth, evVer) then Some(evVer[..3]) else None
  }

  /** One catalog CPE compared with one evidence version (809-846). */
  function CompareStep(ops: VersionOps, s: Scan, vs: Cpe, conf: Confidence, evVer: Version,
                       evBase: Option<Version>): Scan
  {
    var dbVer := ops.parse(vs.version, false);
    var dbVerUpdate := WithUpdate(ops, vs, dbVer);
    if dbVer.None? then
      s.(collected := s.collected + [IdentifierMatch(Identifier(vs, conf), BroadMatch)])
    else if ops.same(evVer, dbVer.value) then
      s.(collected := s.collected + [IdentifierMatch(Identifier(vs, conf), ExactMatch)])
    else if evBase.Some? && ops.same(evBase.value, dbVer.value) && MayReplace(s.guessConf, conf) then
      s.(guess := dbVer.value, guessConf := Some(conf))
    else if && dbVerUpdate.Some? && |evVer| <= |dbVerUpdate.value|
            && ops.matchesThreeLevels(evVer, dbVerUpdate.value)
            && MayReplace(s.guessConf, conf) && |s.guess| < |dbVer.value| then
      s.(guess := dbVer.value, guessConf := Some(conf))
    else s
  }

  function CompareAll(ops: VersionOps, s: Scan, cpes: seq<Cpe>, conf: Confidence, evVer: Version,
                      evBase: Option<Version>): Scan
    decreases |cpes|
  {
    if cpes == [] then s
    else CompareStep(ops, CompareAll(ops, s, cpes[..|cpes| - 1], conf, evVer, evBase), cpes[|cpes| - 1],
                     conf, evVer, evBase)
  }

  /** One version evidence value of tier `conf` (793-847). */
  function ScanValue(ops: VersionOps, maxDepth: nat, cpes: seq<Cpe>, conf: Confidence, s: Scan, value: string): Scan {
    match ops.parse(value, true)
    case None => s
    case Some(evVer) =>
      var t := CompareAll(ops, s, cpes, conf, evVer, BaseVersion(maxDepth, evVer));
      if MayReplace(t.guessConf, conf) && |t.guess| < |evVer| then t.(guess := evVer, guessConf := Some(conf))
      else t
  }

  function ScanValues(ops: VersionOps, maxDepth: nat, cpes: seq<Cpe>, conf: Confidence, s: Scan,
                      values: seq<string>): Scan
    decreases |values|
  {
    if values == [] then s
    else ScanValue(ops, maxDepth, cpes, conf, ScanValues(ops, maxDepth, cpes, conf, s, values[..|values| - 1]),
                   values[|values| - 1])
  }

  /** The version evidence of each tier in turn (792-849). */
  function ScanTiers(ops: VersionOps, maxDepth: nat, cpes: seq<Cpe>, evidence: seq<Evidence>, s: Scan,
                     tiers: seq<Confidence>): Scan
    decreases |tiers|
  {
    if tiers == [] then s
    else
      var conf := tiers[|tiers| - 1];
      ScanValues(ops, maxDepth, cpes, conf, ScanTiers(ops, maxDepth, cpes, evidence, s, tiers[..|tiers| - 1]),
                 ValuesAt(evidence, VersionEvidence, conf))
  }

  /**
   * The BEST_GUESS candidate (851-886): an error when the builder rejects the
   * guess, none when the guess renders as "-", otherwise one candidate with
   * the guess's confidence, LOW when no evidence set it.
   */
  function GuessCandidate(ops: VersionOps, cpeValid: Cpe -> bool, vendor: string, product: string, maxDepth: nat,
                          s: Scan): (r: Result<seq<IdentifierMatch>, AnalysisError>)
    ensures r.Failure? <==> !cpeValid(BuildCpe(vendor, product, CpeFields(ops, maxDepth, s.guess)))
    ensures r.Success? ==> |r.value| <= 1
    ensures r.Success? ==> (r.value == [] <==> CpeFields(ops, maxDepth, s.guess).0 == "-")
    ensures r.Success? && r.value != [] ==>
      && r.value[0].identifierConfidence == BestGuess
      && r.value[0].identifier.cpe.version != "-"
      && (s.guessConf.Some? ==> r.value[0].EvidenceConfidence() == s.guessConf.value)
      && (s.guessConf.None? ==> r.value[0].EvidenceConfidence() == Low)
  {
    var cpe := BuildCpe(vendor, product, CpeFields(ops, maxDepth, s.guess));
    if !cpeValid(cpe) then Failure(CpeNotBuilt(vendor, product, ops.render(s.guess)))
    else if cpe.version == "-" then Success([])
    else Success([IdentifierMatch(Identifier(cpe, s.guessConf.GetOr(Low)), BestGuess)])
  }

  /** The initial scan state: the guess "-", unset, after the declared candidates. */
  function InitialScan(ops: VersionOps, declared: seq<IdentifierMatch>): Scan {
    Scan(ops.create("-"), None, declared)
  }

  /** Every candidate determineIdentifiers collects for the catalog CPEs `cpes`, in order. */
  function Candidates(ops: VersionOps, cpeValid: Cpe -> bool, name: Option<string>, version: Option<string>,
                      evidence: seq<Evidence>, vendor: string, product: string, confidence: Confidence,
                      cpes: seq<Cpe>, stopWords: set<string>): Result<seq<IdentifierMatch>, AnalysisError>
  {
    var maxDepth := MaxDepth(ops, cpes);
    match DeclaredCandidate(ops, cpeValid, name, version, vendor, product, confidence, maxDepth, stopWords)
    case Failure(e) => Failure(e)
    case Success(declared) =>
      var s := ScanTiers(ops, maxDepth, cpes, evidence, InitialScan(ops, declared), Tiers);
      match GuessCandidate(ops, cpeValid, vendor, product, maxDepth, s)
      case Failure(e) => Failure(e)
      case Success(guess) => Success(s.collected + guess)
  }

  /** The tier scan on the running variables of determineIdentifiers (792-849). */
  method ScanVersions(ops: VersionOps, maxDepth: nat, cpes: seq<Cpe>, evidence: seq<Evidence>, s0: Scan)
    returns (bestGuess: Version, bestGuessConf: Option<Confidence>, collected: seq<IdentifierMatch>)
    ensures Scan(bestGuess, bestGuessConf, collected) == ScanTiers(ops, maxDepth, cpes, evidence, s0, Tiers)
  {
    bestGuess, bestGuessConf, collected := s0.guess, s0.guessConf, s0.collected;
    for t := 0 to |Tiers|
      invariant Scan(bestGuess, bestGuessConf, collected) == ScanTiers(ops, maxDepth, cpes, evidence, s0, Tiers[..t])
    {
      var conf := Tiers[t];
      var values := ValuesAt(evidence, VersionEvidence, conf);
      ghost var atTier := Scan(bestGuess, bestGuessConf, collected);
      for i := 0 to |values|
        invariant Scan(bestGuess, bestGuessConf, collected) == ScanValues(ops, maxDepth, cpes, conf, atTier, values[..i])
      {
        ghost var atValue := Scan(bestGuess, bestGuessConf, collected);
        ScanValuesSnoc(ops, maxDepth, cpes, conf, atTier, values, i);
        var evVer := ops.parse(values[i], true);
        if evVer.None? {
          assert atValue == ScanValue(ops, maxDepth, cpes, conf, atValue, values[i]);
          continue;
        }
        var evBaseVer: Option<Version> := None;
        if maxDepth == 3 && |evVer.value| == 4 {
          var update := evVer.value[3];
          if IsUpdateQualifier(update) {
            evBaseVer := Some(evVer.value[..3]);
          }
        }
        assert evBaseVer == BaseVersion(maxDepth, evVer.value);
        bestGuess, bestGuessConf, collected :=
          CompareVersions(ops, cpes, conf, evVer.value, evBaseVer, bestGuess, bestGuessConf, collected);
        if MayReplace(bestGuessConf, conf) && |bestGuess| < |evVer.value| {
          bestGuess := evVer.value;
          bestGuessConf := Some(conf);
        }
        assert Scan(bestGuess, bestGuessConf, collected) == ScanValue(ops, maxDepth, cpes, conf, atValue, values[i]);
      }
      assert values[..|values|] == values;
      assert Tiers[..t + 1][..t] == Tiers[..t];
    }
    assert Tiers[..|Tiers|] == Tiers;
  }

  lemma ScanValuesSnoc(ops: VersionOps, maxDepth: nat, cpes: seq<Cpe>, conf: Confidence, s: Scan,
                       values: seq<string>, i: nat)
    requires i < |values|
    ensures ScanValues(ops, maxDepth, cpes, conf, s, values[..i + 1]) ==
      ScanValue(ops, maxDepth, cpes, conf, ScanValues(ops, maxDepth, cpes, conf, s, values[..i]), values[i])
  {
    assert values[..i + 1][..i] == values[..i];
  }

  /** The inner loop over the catalog CPEs for one evidence version (809-846). */
  method CompareVersions(ops: VersionOps, cpes: seq<Cpe>, conf: Confidence, evVer: Version, evBaseVer: Option<Version>,
                         guess0: Version, guessConf0: Option<Confidence>, collected0: seq<IdentifierMatch>)
    returns (bestGuess: Version, bestGuessConf: Option<Confidence>, collected: seq<IdentifierMatch>)
    ensures Scan(bestGuess, bestGuessConf, collected) ==
      CompareAll(ops, Scan(guess0, guessConf0, collected0), cpes, conf, evVer, evBaseVer)
  {
    bestGuess, bestGuessConf, collected := guess0, guessConf0, collected0;
    for j := 0 to |cpes|
      invariant Scan(bestGuess, bestGuessConf, collected) ==
        CompareAll(ops, Scan(guess0, guessConf0, collected0), cpes[..j], conf, evVer, evBaseVer)
    {
      assert cpes[..j + 1][..j] == cpes[..j];
      var vs := cpes[j];
      var dbVer := ops.parse(vs.version, false);
      var dbVerUpdate := dbVer;
      if vs.update.Some? && vs.update.value != "" && !StartsWith(vs.update.value, "*") && !StartsWith(vs.update.value, "-") {
        dbVerUpdate := ops.parse(vs.version + "." + vs.update.value, true);
      }
      if dbVer.None? {
        collected := collected + [IdentifierMatch(Identifier(vs, conf), BroadMatch)];
      } else if ops.same(evVer, dbVer.value) {
        collected := collected + [IdentifierMatch(Identifier(vs, conf), ExactMatch)];
      } else if evBaseVer.Some? && ops.same(evBaseVer.value, dbVer.value) && MayReplace(bestGuessConf, conf) {
        bestGuessConf := Some(conf);
        bestGuess := dbVer.value;
      } else if && dbVerUpdate.Some? && |evVer| <= |dbVerUpdate.value|
                && ops.matchesThreeLevels(evVer, dbVerUpdate.value) {
        if MayReplace(bestGuessConf, conf) {
          if |bestGuess| < |dbVer.value| {
            bestGuess := dbVer.value;
            bestGuessConf := Some(conf);
          }
        }
      }
    }
    assert cpes[..|cpes|] == cpes;
  }

  /**
   * The candidate collection of determineIdentifiers (735-886) for the
   * ecosystem-filtered catalog CPEs `cpes`.
   */
  method CollectCandidates(ops: VersionOps, cpeValid: Cpe -> bool, dependency: Dependency, vendor: string,
                           product: string, confidence: Confidence, cpes: seq<Cpe>, stopWords: set<string>)
    returns (r: Result<seq<IdentifierMatch>, AnalysisError>)
    ensures r == Candidates(ops, cpeValid, dependency.name, dependency.version, dependency.evidence, vendor, product,
                            confidence, cpes, stopWords)
  {
    var maxDepth := ComputeMaxDepth(ops, cpes);
    ghost var declared := DeclaredCandidate(ops, cpeValid, dependency.name, dependency.version, vendor, product,
                                            confidence, maxDepth, stopWords);
    var collected: seq<IdentifierMatch> := [];
    if dependency.version.Some? && dependency.version.value != "" {
      var useDependencyVersion := DeclaredVersionGate(dependency.name, product, stopWords);
      if useDependencyVersion {
        var depVersion := ops.create(dependency.version.value);
        if |depVersion| > 0 {
          var depCpe := BuildCpe(vendor, product, CpeFields(ops, maxDepth, depVersion));
          if !cpeValid(depCpe) {
            assert declared.Failure?;
            return Failure(CpeNotBuilt(vendor, product, ops.render(ops.create("-"))));
          }
          collected := [IdentifierMatch(Identifier(depCpe, confidence), ExactMatch)];
          assert declared == Success(collected);
        } else {
          assert declared == Success([]);
        }
      } else {
        assert declared == Success([]);
      }
    } else {
      assert declared == Success([]);
    }
    assert declared == Success(collected);
    var bestGuess, bestGuessConf;
    bestGuess, bestGuessConf, collected := ScanVersions(ops, maxDepth, cpes, dependency.evidence, InitialScan(ops, collected));
    ghost var scanned := Scan(bestGuess, bestGuessConf, collected);
    var guessCpe := BuildCpe(vendor, product, CpeFields(ops, maxDepth, bestGuess));
    if !cpeValid(guessCpe) {
      assert GuessCandidate(ops, cpeValid, vendor, product, maxDepth, scanned).Failure?;
      return Failure(CpeNotBuilt(vendor, product, ops.render(bestGuess)));
    }
    var guess: seq<IdentifierMatch> := [];
    if guessCpe.version != "-" {
      guess := [IdentifierMatch(Identifier(guessCpe, bestGuessConf.GetOr(Low)), BestGuess)];
      collected := collected + guess;
    }
    assert GuessCandidate(ops, cpeValid, vendor, product, maxDepth, scanned) == Success(guess);
    assert collected == scanned.collected + guess;
    return Success(collected);
  }

  // ---------------------------------------------------------------------------
  // Properties of the scan

  /**
   * `t` extends `s`: it keeps `s`'s candidates as a prefix and every
   * candidate after them is a catalog CPE matched exactly or broadly.
   */
  ghost predicate Extends(s: Scan, t: Scan, cpes: seq<Cpe>) {
    && |s.collected| <= |t.collected|
    && t.collected[..|s.collected|] == s.collected
    && forall k :: |s.collected| <= k < |t.collected| ==>
         t.collected[k].identifierConfidence != BestGuess && t.collected[k].identifier.cpe in cpes
  }

  lemma ExtendsTransitive(s: Scan, t: Scan, u: Scan, cpes: seq<Cpe>)
    requires Extends(s, t, cpes) && Extends(t, u, cpes)
    ensures Extends(s, u, cpes)
  {
    assert u.collected[..|s.collected|] == u.collected[..|t.collected|][..|s.collected|];
  }

  /** The guess changes only from an unset or strictly weaker confidence, and takes the current tier's. */
  ghost predicate GuessRule(s: Scan, t: Scan, conf: Confidence) {
    (t.guess != s.guess || t.guessConf != s.guessConf) ==> MayReplace(s.guessConf, conf) && t.guessConf == Some(conf)
  }

  lemma {:induction false} CompareAllRules(ops: VersionOps, s: Scan, cpes: seq<Cpe>, conf: Confidence, evVer: Version,
                                           evBase: Option<Version>, catalog: seq<Cpe>)
    requires forall c :: c in cpes ==> c in catalog
    ensures Extends(s, CompareAll(ops, s, cpes, conf, evVer, evBase), catalog)
    ensures GuessRule(s, CompareAll(ops, s, cpes, conf, evVer, evBase), conf)
    decreases |cpes|
  {
    if cpes != [] {
      var init := cpes[..|cpes| - 1];
      var u := CompareAll(ops, s, init, conf, evVer, evBase);
      CompareAllRules(ops, s, init, conf, evVer, evBase, catalog);
      var t := CompareStep(ops, u, cpes[|cpes| - 1], conf, evVer, evBase);
      assert Extends(u, t, catalog);
      ExtendsTransitive(s, u, t, catalog);
    }
  }

  lemma {:induction false} ScanValuesRules(ops: VersionOps, maxDepth: nat, cpes: seq<Cpe>, conf: Confidence, s: Scan,
                                           values: seq<string>)
    ensures Extends(s, ScanValues(ops, maxDepth, cpes, conf, s, values), cpes)
    ensures GuessRule(s, ScanValues(ops, maxDepth, cpes, conf, s, values), conf)
    decreases |values|
  {
    if values != [] {
      var u := ScanValues(ops, maxDepth, cpes, conf, s, values[..|values| - 1]);
      ScanValuesRules(ops, maxDepth, cpes, conf, s, values[..|values| - 1]);
      match ops.parse(values[|values| - 1], true)
      case None =>
      case Some(evVer) =>
        var evBase := BaseVersion(maxDepth, evVer);
        CompareAllRules(ops, u, cpes, conf, evVer, evBase, cpes);
        ExtendsTransitive(s, u, CompareAll(ops, u, cpes, conf, evVer, evBase), cpes);
    }
  }

  /**
   * Within one tier the running best guess changes only when it is unset or
   * strictly weaker than the tier, and it then takes the tier's confidence;
   * the scan only appends EXACT_MATCH and BROAD_MATCH candidates for catalog
   * CPEs.
   */
  lemma {:induction false} ScanTiersExtend(ops: VersionOps, maxDepth: nat, cpes: seq<Cpe>, evidence: seq<Evidence>,
                                           s: Scan, tiers: seq<Confidence>)
    ensures Extends(s, ScanTiers(ops, maxDepth, cpes, evidence, s, tiers), cpes)
    decreases |tiers|
  {
    if tiers != [] {
      var conf := tiers[|tiers| - 1];
      var u := ScanTiers(ops, maxDepth, cpes, evidence, s, tiers[..|tiers| - 1]);
      ScanTiersExtend(ops, maxDepth, cpes, evidence, s, tiers[..|tiers| - 1]);
      ScanValuesRules(ops, maxDepth, cpes, conf, u, ValuesAt(evidence, VersionEvidence, conf));
      ExtendsTransitive(s, u, ScanTiers(ops, maxDepth, cpes, evidence, s, tiers), cpes);
    }
  }

  /**
   * Once the guess is set, the tiers that follow (never stronger, since they
   * run strongest first) leave it alone: it is assigned at most once.
   */
  lemma {:induction false} GuessSetOnce(ops: VersionOps, maxDepth: nat, cpes: seq<Cpe>, evidence: seq<Evidence>,
                                        s: Scan, k: nat)
    requires s.guessConf.None? && k <= |Tiers|
    ensures var mid := ScanTiers(ops, maxDepth, cpes, evidence, s, Tiers[..k]);
      var last := ScanTiers(ops, maxDepth, cpes, evidence, s, Tiers);
      && (mid.guessConf.Some? ==> Ordinal(mid.guessConf.value) < k)
      && (mid.guessConf.Some? ==> last.guess == mid.guess && last.guessConf == mid.guessConf)
    decreases |Tiers| - k
  {
    TiersFollowOrdinals();
    GuessBelowTier(ops, maxDepth, cpes, evidence, s, k);
    if k < |Tiers| {
      var mid := ScanTiers(ops, maxDepth, cpes, evidence, s, Tiers[..k]);
      var next := ScanTiers(ops, maxDepth, cpes, evidence, s, Tiers[..k + 1]);
      assert Tiers[..k + 1][..k] == Tiers[..k];
      ScanValuesRules(ops, maxDepth, cpes, Tiers[k], mid, ValuesAt(evidence, VersionEvidence, Tiers[k]));
      GuessSetOnce(ops, maxDepth, cpes, evidence, s, k + 1);
    } else {
      assert Tiers[..k] == Tiers;
    }
  }

  lemma {:induction false} GuessBelowTier(ops: VersionOps, maxDepth: nat, cpes: seq<Cpe>, evidence: seq<Evidence>,
                                          s: Scan, k: nat)
    requires s.guessConf.None? && k <= |Tiers|
    ensures var mid := ScanTiers(ops, maxDepth, cpes, evidence, s, Tiers[..k]);
      mid.guessConf.Some? ==> Ordinal(mid.guessConf.value) < k
  {
    TiersFollowOrdinals();
    if k > 0 {
      var conf := Tiers[k - 1];
      assert Tiers[..k][..k - 1] == Tiers[..k - 1];
      GuessBelowTier(ops, maxDepth, cpes, evidence, s, k - 1);
      var u := ScanTiers(ops, maxDepth, cpes, evidence, s, Tiers[..k - 1]);
      ScanValuesRules(ops, maxDepth, cpes, conf, u, ValuesAt(evidence, VersionEvidence, conf));
    }
  }

  /**
   * At most one BEST_GUESS candidate is collected, and only as the last one;
   * every other candidate is the declared version or a catalog CPE.
   */
  lemma AtMostOneBestGuess(ops: VersionOps, cpeValid: Cpe -> bool, name: Option<string>, version: Option<string>,
                           evidence: seq<Evidence>, vendor: string, product: string, confidence: Confidence,
                           cpes: seq<Cpe>, stopWords: set<string>)
    ensures var r := Candidates(ops, cpeValid, name, version, evidence, vendor, product, confidence, cpes, stopWords);
      r.Success? ==>
        && (forall i :: 0 <= i < |r.value| && r.value[i].identifierConfidence == BestGuess ==> i == |r.value| - 1)
        && (forall i :: 0 <= i < |r.value| && r.value[i].identifierConfidence == BroadMatch ==>
              r.value[i].identifier.cpe in cpes)
  {
    var maxDepth := MaxDepth(ops, cpes);
    var d := DeclaredCandidate(ops, cpeValid, name, version, vendor, product, confidence, maxDepth, stopWords);
    if d.Success? {
      var s0 := InitialScan(ops, d.value);
      ScanTiersExtend(ops, maxDepth, cpes, evidence, s0, Tiers);
    }
  }
}
