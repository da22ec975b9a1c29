# CPE identification in OWASP dependency-check, modelled in Dafny

This project models the CPE analyzer of dependency-check. For one dependency, the analyzer:

- gathers the dependency's vendor and product evidence, one confidence tier at a time, into two term maps;
- builds a weighted Lucene query from those maps and searches the CPE index;
- verifies each hit against the evidence;
- looks up the catalog CPEs of every verified vendor/product pair and keeps those whose ecosystem fits the dependency;
- reconciles the dependency's declared version and its version evidence with the catalog versions, producing exact, best-guess and broad candidates;
- commits the strongest candidates to the dependency as identifiers, applying the suppression rules after each one;
- stops after the first tier that adds an identifier.

The modules follow the analyzer's structure:

| file | module | part of the analyzer |
|---|---|---|
| `terms.dfy` | `TermCollection` | `collectTerms` and `cleanseText`: the term maps as a class with insertion-ordered keys |
| `query.dfy` | `QueryBuilder` | `buildSearch`, `appendWeightedSearch`, `findBoostTerm`, `equalsIgnoreCaseAndNonAlpha` |
| `verifier.dfy` | `EntryVerifier` | `verifyEntry` and `collectionContainsString` |
| `ecosystem.dfy` | `EcosystemFilter` | `filterEcosystem` and its alias switch |
| `reconciler.dfy` | `VersionReconciler` | the candidate collection of `determineIdentifiers` |
| `selection.dfy` | `Selection` | the sort and commit of `determineIdentifiers`, with `IdentifierMatch.compareTo` |
| `analyzer.dfy` | `Analyzer` | `determineIdentifiers` and `determineCPE` as whole methods over a `Dependency` object |

Supporting modules:

- `wrappers.dfy`: `Option` and `Result`.
- `text.dfy`: ASCII character classes, `String.split` with Java's trailing-empty rule, and joining.
- `confidence.dfy`: the `Confidence` and `IdentifierConfidence` enums.
- `identifiers.dfy`: CPEs, identifiers and matches.
- `dependency.dfy`: the dependency object, whose identifier set is updated in place.

Each stateful loop of the source is a Dafny method with loop invariants. Each method is proved equal to a specification function, and the properties are lemmas about those functions. The term maps are updated in place, so `TermCounts` is a class. The dependency's identifier set is a mutable field of `Dependency`.

Code the analyzer calls but does not define is passed in as function parameters:

- `QuerySyntax`: the Lucene keyword test and escaping.
- `Services.search`: the index search.
- `Services.catalog`: `cve.getCPEs`.
- `VersionOps`: the parse, constructor, `toString`, `equals` and `matchesAtLeastThreeLevels` of `DependencyVersion`, and `DependencyVersionUtil.parseVersion`.
- `Services.cpeValid`: `CpeBuilder.build` validation.
- `Services.stopWords`: the stop-word set.
- `Services.cmp`: `CpeIdentifier.compareTo`.
- `Services.suppressed`: the suppression rules.
- `EcosystemNames`: the ecosystem constants of the other analyzers.

Behaviours of the code worth knowing:

- **Best-guess replacement.** The running best guess is replaced only by a *strictly* stronger tier (`bestGuessConf.compareTo(conf) > 0`). Tiers run strongest first, so a guess set by the end of one tier never changes in later tiers (`VersionReconciler.GuessSetOnce`). Within a tier, a pass over the catalog or over the tier's version values changes the guess only when the guess it started from was unset or strictly weaker, and leaves it at the tier's confidence (`VersionReconciler.CompareAllRules`, `VersionReconciler.ScanValuesRules`).
- **Declared-version gate.** The gate splits `product` on the Java string `"\b"`, a backspace character, not on whitespace. For a product without a backspace, the declared version is used only if the whole product occurs in the name, or is a stop word (`VersionReconciler.DeclaredVersionNeedsWholeProduct`).
- **The `addedNonGuess` guard.** The guard in the BEST_GUESS branch of the commit loop (`CPEAnalyzer.java:902-904`) never fires. `addedNonGuess` is only set when the strongest kind is not BEST_GUESS. "Only one best guess is committed" holds because at most one BEST_GUESS candidate is ever collected (`VersionReconciler.AtMostOneBestGuess`).
- **Skipping weaker commits.** A chosen identifier is skipped when its confidence is weaker than the strongest one the dependency already carries (`prevAddedConfidence.compareTo(i.getConfidence()) < 0`).

## Model

| member | source | states |
|---|---|---|
| TermCollection.Cleanse | core/src/main/java/org/owasp/dependencycheck/analyzer/CPEAnalyzer.java:551-553 | the result has the input's length; characters of `[A-Za-z0-9 ._:/-]` are kept; every other character becomes a space |
| TermCollection.CleanseIdempotent | core/src/main/java/org/owasp/dependencycheck/analyzer/CPEAnalyzer.java:551-553 | cleansing an already cleansed text changes nothing |
| TermCollection.Truncate | core/src/main/java/org/owasp/dependencycheck/analyzer/CPEAnalyzer.java:334-373 | a value over 1000 characters is cut to a non-empty prefix of at most 1000 characters, cut either before a boundary character or at exactly 1000 |
| TermCollection.LastIndexFindsWindow | core/src/main/java/org/owasp/dependencycheck/analyzer/CPEAnalyzer.java:336-337 | `lastIndexOf(c, 1000) > 0` holds exactly when `c` occurs at a position from 1 to 1000 |
| TermCollection.BoundaryPositions | core/src/main/java/org/owasp/dependencycheck/analyzer/CPEAnalyzer.java:334-366 | the boundaries are tried in the order space, period, hyphen, underscore, slash, each by its occurrence in positions 1..1000 |
| TermCollection.TruncateCutsAtPreferredBoundary | core/src/main/java/org/owasp/dependencycheck/analyzer/CPEAnalyzer.java:334-370 | when the first boundary (in that order) that occurs in the window is the k-th, the cut is at its last occurrence in the window |
| TermCollection.CutAtFirstFound | core/src/main/java/org/owasp/dependencycheck/analyzer/CPEAnalyzer.java:334-370 | when the branches for the earlier boundaries find nothing and the k-th finds a position, the value is cut before that position |
| TermCollection.TruncateHardCut | core/src/main/java/org/owasp/dependencycheck/analyzer/CPEAnalyzer.java:371-373 | with no boundary in the window, the value is cut to its first 1000 characters |
| TermCollection.TrimTerm | core/src/main/java/org/owasp/dependencycheck/analyzer/CPEAnalyzer.java:334-373 | the imperative cascade of `lastIndexOf` checks computes `Truncate` |
| TermCollection.Normalize | core/src/main/java/org/owasp/dependencycheck/analyzer/CPEAnalyzer.java:330-373 | an evidence value is skipped exactly when it is empty; otherwise its term is a valid CPE-character term, a prefix of the cleansed value, and the whole cleansed value when the value has at most 1000 characters |
| TermCollection.CountsGrowByOccurrences | core/src/main/java/org/owasp/dependencycheck/analyzer/CPEAnalyzer.java:328-382 | after collecting, each term's count is its old count plus the number of evidence values that normalise to it; no term is lost |
| TermCollection.CollectedKeySet | core/src/main/java/org/owasp/dependencycheck/analyzer/CPEAnalyzer.java:374-380 | a term is in the map after collecting iff it was before or some value normalises to it |
| TermCollection.CollectedKeysAreTerms | core/src/main/java/org/owasp/dependencycheck/analyzer/CPEAnalyzer.java:328-382 | every key of the map stays a valid term |
| TermCollection.CollectInSteps | core/src/main/java/org/owasp/dependencycheck/analyzer/CPEAnalyzer.java:267-270 | collecting two batches one after the other equals collecting their concatenation, so a map that is never reset accumulates |
| TermCollection.CollectedKeysEnumerate | core/src/main/java/org/owasp/dependencycheck/analyzer/CPEAnalyzer.java:374-380 | the key order lists every key of the map exactly once |
| TermCollection.CollectSkip | core/src/main/java/org/owasp/dependencycheck/analyzer/CPEAnalyzer.java:331-333 | an empty cleansed value leaves the map and its key order unchanged |
| TermCollection.CollectPut | core/src/main/java/org/owasp/dependencycheck/analyzer/CPEAnalyzer.java:374-380 | a non-empty value adds one to its term's count; a new term goes at the end of the key order |
| TermCollection.PutKeepsValid | core/src/main/java/org/owasp/dependencycheck/analyzer/CPEAnalyzer.java:374-380 | one insertion keeps the keys distinct, matching the map, valid terms, with counts of at least 1 |
| TermCollection.TermCounts.constructor | core/src/main/java/org/owasp/dependencycheck/analyzer/CPEAnalyzer.java:263-264 | a new term map is empty and valid |
| TermCollection.TermCounts.Put | core/src/main/java/org/owasp/dependencycheck/analyzer/CPEAnalyzer.java:374-380 | a new term gets count 1 and goes last in key order; a present term's count grows by one |
| TermCollection.TermCounts.CollectTerms | core/src/main/java/org/owasp/dependencycheck/analyzer/CPEAnalyzer.java:328-382 | the map and its key order become those of collecting the evidence into the old map |
| QueryBuilder.AlphaKey | core/src/main/java/org/owasp/dependencycheck/analyzer/CPEAnalyzer.java:586-587 | the comparison key keeps only letters, lower-cased, and is no longer than the input |
| QueryBuilder.AlphaKeyIgnoresCase | core/src/main/java/org/owasp/dependencycheck/analyzer/CPEAnalyzer.java:581-589 | lower-casing a term does not change its comparison key |
| QueryBuilder.AlphaKeyIgnoresCleansing | core/src/main/java/org/owasp/dependencycheck/analyzer/CPEAnalyzer.java:581-589 | cleansing a term does not change its comparison key |
| QueryBuilder.BoostMatchIsLoose | core/src/main/java/org/owasp/dependencycheck/analyzer/CPEAnalyzer.java:581-589 | the boost comparison is symmetric, false when either side is null, reflexive, and blind to case and cleansing |
| QueryBuilder.FindBoostTerm | core/src/main/java/org/owasp/dependencycheck/analyzer/CPEAnalyzer.java:564-571 | null iff no weighting matches the word; otherwise the first weighting in iteration order that matches |
| QueryBuilder.ExtrasNeedUnits | core/src/main/java/org/owasp/dependencycheck/analyzer/CPEAnalyzer.java:503-538 | a phrase that emits no word emits no boosted terms either |
| QueryBuilder.WordStep | core/src/main/java/org/owasp/dependencycheck/analyzer/CPEAnalyzer.java:504-535 | an empty word is skipped; a non-empty word adds its escaped term with its weight suffix, plus its boosted extra term |
| QueryBuilder.ClosePhrase | core/src/main/java/org/owasp/dependencycheck/analyzer/CPEAnalyzer.java:536-538 | a phrase's boosted terms follow its last word |
| QueryBuilder.WordAppended | core/src/main/java/org/owasp/dependencycheck/analyzer/CPEAnalyzer.java:508-534 | writing one more non-empty word, after the space the flag demands, extends the text to the join of the units of one more word, which is then non-empty |
| QueryBuilder.ClauseStep | core/src/main/java/org/owasp/dependencycheck/analyzer/CPEAnalyzer.java:500-539 | each map entry, in key order, adds the units of its phrase split on spaces, weighted by its count |
| QueryBuilder.AppendWord | core/src/main/java/org/owasp/dependencycheck/analyzer/CPEAnalyzer.java:508-534 | appends the optional space, the quoted or escaped word and its weight suffix, and returns the boosted extra term |
| QueryBuilder.AppendWords | core/src/main/java/org/owasp/dependencycheck/analyzer/CPEAnalyzer.java:503-535 | the loop over a phrase's words appends the join of their units, sets the space flag iff any unit was written so far, and gathers the boosted extra terms |
| QueryBuilder.AppendPhrase | core/src/main/java/org/owasp/dependencycheck/analyzer/CPEAnalyzer.java:500-539 | the builder text after one entry is the prefix joined with that entry's units; the space flag is set iff any unit was written |
| QueryBuilder.AppendWeightedSearch | core/src/main/java/org/owasp/dependencycheck/analyzer/CPEAnalyzer.java:494-541 | false and nothing appended iff the map is empty; otherwise appends `field:(` ... `)` listing every term of the map |
| QueryBuilder.BuildSearch | core/src/main/java/org/owasp/dependencycheck/analyzer/CPEAnalyzer.java:464-477 | null iff either map is empty; otherwise the product clause, ` AND `, then the vendor clause |
| QueryBuilder.PlainWordUnits | core/src/main/java/org/owasp/dependencycheck/analyzer/CPEAnalyzer.java:504-535 | with no weightings, count 1 and escaping that changes nothing, every non-empty word is emitted unchanged with no suffix |
| QueryBuilder.PlainPhrase | core/src/main/java/org/owasp/dependencycheck/analyzer/CPEAnalyzer.java:500-539 | under the same conditions, a single-spaced phrase is emitted as its own words, which join back to the phrase |
| QueryBuilder.ClauseUnitsEmpty | core/src/main/java/org/owasp/dependencycheck/analyzer/CPEAnalyzer.java:494-541 | under the same conditions, the clause is empty iff the map has no keys |
| QueryBuilder.PlainClauseListsPhrases | core/src/main/java/org/owasp/dependencycheck/analyzer/CPEAnalyzer.java:494-541 | under the same conditions, the clause body is exactly the map's phrases joined by spaces, so no term is lost or altered |
| QueryBuilder.NonEmptyWords | core/src/main/java/org/owasp/dependencycheck/analyzer/CPEAnalyzer.java:504-507 | the words a phrase writes are exactly its non-empty words, in order |
| QueryBuilder.WordUnitsRender | core/src/main/java/org/owasp/dependencycheck/analyzer/CPEAnalyzer.java:504-535 | a phrase's word loop writes one unit per non-empty word, in order, each the word's term followed by its weight suffix |
| QueryBuilder.PhraseUnitsRender | core/src/main/java/org/owasp/dependencycheck/analyzer/CPEAnalyzer.java:503-538 | a phrase writes one unit per non-empty word, and its boosted terms follow only the last of them |
| QueryBuilder.ClauseUnitsRender | core/src/main/java/org/owasp/dependencycheck/analyzer/CPEAnalyzer.java:500-539 | for any counts and weightings, the clause is the units of every non-empty word of every phrase, in key order, each rendered from its word, its phrase's count and, on a phrase's last word, the phrase's boosted terms |
| QueryBuilder.ClauseSlotsAreWords | core/src/main/java/org/owasp/dependencycheck/analyzer/CPEAnalyzer.java:500-507 | the clause has one unit per non-empty word of the keys, in key order, so no word is lost or reordered; each unit's phrase is one of the keys and carries that key's count |
| QueryBuilder.RenderWeight | core/src/main/java/org/owasp/dependencycheck/analyzer/CPEAnalyzer.java:520-534 | a matched word carries `^(count+1)`; an unmatched word carries `^count` iff the count exceeds 1; with verbatim escaping the unit begins with the word |
| QueryBuilder.ClauseWeights | core/src/main/java/org/owasp/dependencycheck/analyzer/CPEAnalyzer.java:494-541 | for any counts and weightings: the clause has one unit per non-empty word in key order, each weighted as above and beginning with its word under verbatim escaping |
| QueryBuilder.ExtrasListDifferingWeightings | core/src/main/java/org/owasp/dependencycheck/analyzer/CPEAnalyzer.java:527-531 | every word whose matching weighting differs from it adds ` weighting^(count+1)` to its phrase's boosted terms |
| QueryBuilder.ExtrasEmptyWhenNoneDiffer | core/src/main/java/org/owasp/dependencycheck/analyzer/CPEAnalyzer.java:527-537 | a phrase's boosted terms are empty iff no written word has a differing matching weighting |
| QueryBuilder.ClauseClosed | core/src/main/java/org/owasp/dependencycheck/analyzer/CPEAnalyzer.java:539-540 | once every unit has been written after `field:(`, the closing parenthesis completes the field clause |
| EntryVerifier.FindToken | core/src/main/java/org/owasp/dependencycheck/analyzer/CPEAnalyzer.java:659-671 | a token is found iff some evidence value contains it case-insensitively, where "http" does not count in a value containing "http:" |
| EntryVerifier.CollectionContainsString | core/src/main/java/org/owasp/dependencycheck/analyzer/CPEAnalyzer.java:621-676 | true iff the text is non-null, yields at least one token after merging short words and dropping stop words, and every token is found in the evidence |
| EntryVerifier.VerifyEntry | core/src/main/java/org/owasp/dependencycheck/analyzer/CPEAnalyzer.java:600-611 | an entry is valid iff its product is contained in the product evidence and its vendor in the vendor evidence |
| EntryVerifier.WithoutStopWords | core/src/main/java/org/owasp/dependencycheck/analyzer/CPEAnalyzer.java:639-643 | keeps exactly the words that are not stop words |
| EntryVerifier.LongWordsAreTokens | core/src/main/java/org/owasp/dependencycheck/analyzer/CPEAnalyzer.java:630-644 | when every word is longer than two characters, the tokens are the words minus the stop words |
| EntryVerifier.TokensOfWords | core/src/main/java/org/owasp/dependencycheck/analyzer/CPEAnalyzer.java:627-656 | the tokens of a text are the merge of its `[\s_-]` split |
| EntryVerifier.ShortWordJoinsNext | core/src/main/java/org/owasp/dependencycheck/analyzer/CPEAnalyzer.java:634-638 | a word of at most two characters is joined to the next word, as "m core sample" gives "mcore", "sample" |
| EntryVerifier.LongStopWordDropped | core/src/main/java/org/owasp/dependencycheck/analyzer/CPEAnalyzer.java:639-643 | a stop word longer than two characters yields no token |
| EntryVerifier.TrailingShortWordIsExtraToken | core/src/main/java/org/owasp/dependencycheck/analyzer/CPEAnalyzer.java:647-653 | a trailing short word adds a second token: the previous token with the short word appended |
| EntryVerifier.HttpNeedsMoreThanUrl | core/src/main/java/org/owasp/dependencycheck/analyzer/CPEAnalyzer.java:662-665 | "http" is not found in a URL value, but is found in other text |
| EntryVerifier.MoreEvidenceKeepsMatch | core/src/main/java/org/owasp/dependencycheck/analyzer/CPEAnalyzer.java:657-672 | adding evidence never turns a match into a non-match |
| Dependencies.ValuesOf | core/src/main/java/org/owasp/dependencycheck/analyzer/CPEAnalyzer.java:602-603 | the values of one evidence type are exactly those of the dependency's evidence of that type |
| Dependencies.ValuesAt | core/src/main/java/org/owasp/dependencycheck/analyzer/CPEAnalyzer.java:268-270 | the values of one evidence type and tier are exactly those of the evidence of that type and confidence |
| Confidences.TiersFollowOrdinals | core/src/main/java/org/owasp/dependencycheck/analyzer/CPEAnalyzer.java:267 | the tiers are visited strongest first, in ordinal order, and cover every confidence |
| Identifiers.CompareToIsComparator | core/src/main/java/org/owasp/dependencycheck/analyzer/CPEAnalyzer.java:1170-1175 | if the identifier order is antisymmetric and transitive, so is the match order; a stronger kind of match always sorts first |
| EcosystemFilter.Lookup | core/src/main/java/org/owasp/dependencycheck/analyzer/CPEAnalyzer.java:957-991 | an ecosystem tag reaches no branch iff no branch lists it; otherwise it gets the ecosystem of a branch that lists it |
| EcosystemFilter.LookupFindsBranch | core/src/main/java/org/owasp/dependencycheck/analyzer/CPEAnalyzer.java:957-991 | since case labels are distinct, a tag selects the one branch that lists it |
| EcosystemFilter.Distinct | core/src/main/java/org/owasp/dependencycheck/analyzer/CPEAnalyzer.java:997-1003 | the collected set has the same members with no repeats |
| EcosystemFilter.KeptCpes | core/src/main/java/org/owasp/dependencycheck/analyzer/CPEAnalyzer.java:952-1003 | a CPE is kept iff some entry carries it and the dependency has no ecosystem or the entry's tag fits it |
| EcosystemFilter.FilterEcosystem | core/src/main/java/org/owasp/dependencycheck/analyzer/CPEAnalyzer.java:948-1004 | null iff there are no entries; otherwise the distinct CPEs of exactly the fitting entries |
| EcosystemFilter.AliasFitsOnlyItsEcosystem | core/src/main/java/org/owasp/dependencycheck/analyzer/CPEAnalyzer.java:957-991 | an analyzer's own ecosystem name or one of its aliases fits a dependency iff the dependency is of that analyzer's ecosystem |
| EcosystemFilter.FixedVerdicts | core/src/main/java/org/owasp/dependencycheck/analyzer/CPEAnalyzer.java:992-996 | "perl" and "delphi" fit no dependency; a tag no branch lists fits every dependency |
| EcosystemFilter.NodeAliasesNeedNpm | core/src/main/java/org/owasp/dependencycheck/analyzer/CPEAnalyzer.java:985-988 | a "nodejs" entry is kept for an npm dependency; a "node.js" entry is dropped for a Java one |
| VersionReconciler.MaxDepth | core/src/main/java/org/owasp/dependencycheck/analyzer/CPEAnalyzer.java:737-746 | the largest part count among the catalog versions that parse, or 0: an upper bound that is attained |
| VersionReconciler.ComputeMaxDepth | core/src/main/java/org/owasp/dependencycheck/analyzer/CPEAnalyzer.java:737-746 | the loop computes `MaxDepth` |
| VersionReconciler.SplitKeepsParts | core/src/main/java/org/owasp/dependencycheck/analyzer/CPEAnalyzer.java:765-776 | when a fourth part is split off as the update, version and update together hold all four parts (a leading `v` before a digit dropped), and the update never starts with `v` and a digit |
| VersionReconciler.DeclaredVersionGate | core/src/main/java/org/owasp/dependencycheck/analyzer/CPEAnalyzer.java:751-757 | the loop over the product's `"\b"` pieces computes the declared-version gate |
| VersionReconciler.DeclaredVersionNeedsWholeProduct | core/src/main/java/org/owasp/dependencycheck/analyzer/CPEAnalyzer.java:751-757 | for a named dependency and a product without a backspace, the declared version is used iff the name contains the whole product or the product is a stop word |
| VersionReconciler.DeclaredCandidate | core/src/main/java/org/owasp/dependencycheck/analyzer/CPEAnalyzer.java:748-788 | at most one candidate: an EXACT_MATCH at the current tier built from the declared version, only when the gate passes; an error only when that CPE fails validation |
| VersionReconciler.ScanVersions | core/src/main/java/org/owasp/dependencycheck/analyzer/CPEAnalyzer.java:792-849 | the tier and evidence loops, with the catalog loop of `CompareVersions`, compute `ScanTiers` |
| VersionReconciler.CompareVersions | core/src/main/java/org/owasp/dependencycheck/analyzer/CPEAnalyzer.java:810-840 | the loop over the catalog CPEs for one evidence version computes `CompareAll` |
| VersionReconciler.CompareAllRules | core/src/main/java/org/owasp/dependencycheck/analyzer/CPEAnalyzer.java:810-840 | one pass over the catalog only appends candidates: broad matches of catalog CPEs, exact matches of catalog CPEs at this tier; the guess changes only to this tier from an unset or weaker one |
| VersionReconciler.ScanValuesRules | core/src/main/java/org/owasp/dependencycheck/analyzer/CPEAnalyzer.java:793-847 | the same for every version value of one tier, including the adoption of the evidence version |
| VersionReconciler.ScanTiersExtend | core/src/main/java/org/owasp/dependencycheck/analyzer/CPEAnalyzer.java:792-849 | over all tiers the scan only appends catalog broad and exact matches to what was collected |
| VersionReconciler.GuessBelowTier | core/src/main/java/org/owasp/dependencycheck/analyzer/CPEAnalyzer.java:792-849 | after k tiers a set guess has a tier among the first k |
| VersionReconciler.GuessSetOnce | core/src/main/java/org/owasp/dependencycheck/analyzer/CPEAnalyzer.java:792-849 | once the best guess is set it never changes again |
| VersionReconciler.GuessCandidate | core/src/main/java/org/owasp/dependencycheck/analyzer/CPEAnalyzer.java:851-886 | an error iff the guessed CPE fails validation; no candidate iff its version is "-"; otherwise one BEST_GUESS at the guess's tier, or LOW when none was set |
| VersionReconciler.CollectCandidates | core/src/main/java/org/owasp/dependencycheck/analyzer/CPEAnalyzer.java:720-886 | the candidate collection of `determineIdentifiers`, declared version through best guess, computes `Candidates` |
| VersionReconciler.AtMostOneBestGuess | core/src/main/java/org/owasp/dependencycheck/analyzer/CPEAnalyzer.java:720-886 | at most one BEST_GUESS is collected, and only as the last candidate; every BROAD_MATCH is a catalog CPE |
| Selection.Insert | core/src/main/java/org/owasp/dependencycheck/analyzer/CPEAnalyzer.java:889 | insertion adds exactly the one element |
| Selection.SortMatches | core/src/main/java/org/owasp/dependencycheck/analyzer/CPEAnalyzer.java:889 | sorting is a permutation of the candidates |
| Selection.InsertSorted | core/src/main/java/org/owasp/dependencycheck/analyzer/CPEAnalyzer.java:889 | inserting into a sorted list keeps it sorted by `compareTo` |
| Selection.SortMatchesSorted | core/src/main/java/org/owasp/dependencycheck/analyzer/CPEAnalyzer.java:889 | the sorted candidates are in `compareTo` order |
| Selection.HeadHasStrongestKind | core/src/main/java/org/owasp/dependencycheck/analyzer/CPEAnalyzer.java:889-891 | the head of the sorted list has the strongest kind of match of all candidates |
| Selection.PriorBest | core/src/main/java/org/owasp/dependencycheck/analyzer/CPEAnalyzer.java:893-895 | the strongest confidence among the dependency's identifiers, and LOW when it has none |
| Selection.Suppress | core/src/main/java/org/owasp/dependencycheck/analyzer/CPEAnalyzer.java:914-916 | suppression only removes, and removes exactly the suppressed identifiers |
| Selection.CommitAllClosedForm | core/src/main/java/org/owasp/dependencycheck/analyzer/CPEAnalyzer.java:896-923 | the commit loop ends with the suppressed union of the old and chosen identifiers, reports an addition iff a chosen identifier survives suppression, and never sets `addedNonGuess` while committing guesses |
| Selection.SelectCommitsStrongest | core/src/main/java/org/owasp/dependencycheck/analyzer/CPEAnalyzer.java:887-925 | identifiers offered come only from candidates of the strongest kind and are never weaker than the dependency's strongest; the new set is the suppressed union; the result is true iff an offered identifier remains |
| Selection.ExactMatchShutsOutOthers | core/src/main/java/org/owasp/dependencycheck/analyzer/CPEAnalyzer.java:887-925 | when any EXACT_MATCH was collected, only EXACT_MATCH candidates are offered |
| Selection.NewIdentifiersAreStrongest | core/src/main/java/org/owasp/dependencycheck/analyzer/CPEAnalyzer.java:887-925 | every identifier the dependency newly carries is unsuppressed, from a strongest-kind candidate, and no weaker than its strongest before |
| Selection.Commit | core/src/main/java/org/owasp/dependencycheck/analyzer/CPEAnalyzer.java:887-925 | the sort-and-commit loop leaves the dependency with the identifiers `Select` gives and returns its added flag |
| Analyzer.IdentifyOnlyAddsStrongest | core/src/main/java/org/owasp/dependencycheck/analyzer/CPEAnalyzer.java:720-926 | with no compatible catalog CPE nothing changes; otherwise every remaining identifier was there or is unsuppressed, and every new one is no weaker than the strongest before |
| Analyzer.DetermineIdentifiers | core/src/main/java/org/owasp/dependencycheck/analyzer/CPEAnalyzer.java:720-926 | on an exception the identifiers are unchanged; otherwise they and the result are those of `Identify` |
| Analyzer.EntriesVerifyOnce | core/src/main/java/org/owasp/dependencycheck/analyzer/CPEAnalyzer.java:294-299 | over the hits of one search, each document id is verified at most once, and previouslyFound holds exactly the verified ids |
| Analyzer.EntryStepRecords | core/src/main/java/org/owasp/dependencycheck/analyzer/CPEAnalyzer.java:294-299 | one hit keeps previouslyFound equal to the set of verified ids, with no id verified twice |
| Analyzer.DriverVerifiesOnce | core/src/main/java/org/owasp/dependencycheck/analyzer/CPEAnalyzer.java:262-313 | over all tiers of `determineCPE`, no document id is verified twice |
| Analyzer.DriverStops | core/src/main/java/org/owasp/dependencycheck/analyzer/CPEAnalyzer.java:308-310 | once a tier has identified something or thrown, later tiers change nothing |
| Analyzer.StopsAfterFirstIdentification | core/src/main/java/org/owasp/dependencycheck/analyzer/CPEAnalyzer.java:262-313 | the final state equals the state after the first tier that identifies or throws |
| Analyzer.TermsAccumulate | core/src/main/java/org/owasp/dependencycheck/analyzer/CPEAnalyzer.java:262-271 | while nothing has been identified, the term counts after k tiers are those of all vendor (product) evidence of the first k tiers collected at once |
| Analyzer.EntriesKeepTerms | core/src/main/java/org/owasp/dependencycheck/analyzer/CPEAnalyzer.java:294-305 | verifying and identifying the hits leaves the term maps alone |
| Analyzer.TierKeepsTerms | core/src/main/java/org/owasp/dependencycheck/analyzer/CPEAnalyzer.java:267-305 | a tier that runs gathers its evidence into the term maps, and its search leaves them alone |
| Analyzer.IdentifyEntry | core/src/main/java/org/owasp/dependencycheck/analyzer/CPEAnalyzer.java:294-305 | one hit: skipped if already seen, otherwise recorded, verified, and identified from when verified |
| Analyzer.IdentifyEntries | core/src/main/java/org/owasp/dependencycheck/analyzer/CPEAnalyzer.java:294-305 | the loop over the hits computes `EntriesAll`, stopping at an exception |
| Analyzer.SearchTier | core/src/main/java/org/owasp/dependencycheck/analyzer/CPEAnalyzer.java:267-310 | one tier: collect, build the query, search, and identify from the hits; computes `TierStep` |
| Analyzer.DetermineCPE | core/src/main/java/org/owasp/dependencycheck/analyzer/CPEAnalyzer.java:262-313 | the identifiers the dependency ends with, and the exception thrown, are those of `DriveTiers` over the four tiers |

## Left out

- The Lucene index is not modelled: opening it, query parsing, scoring, and the 25-hit limit of `searchCPE`. The search is a function from the query string to the hits, or None when the query cannot be parsed. The hits are assumed distinct, because `IndexEntry` equality is left to that function.
- `LuceneUtils.isKeyword` and `appendEscapedLuceneQuery` are parameters, so quoting and escaping are only as exact as those functions.
- The stop words of `SearchFieldAnalyzer` are a parameter set.
- `cve.getCPEs` is a parameter function.
- `CpeBuilder` internals are not modelled. `build` is a validity predicate over the assembled CPE, and the builder is assumed to be reset by each `build`.
- `DependencyVersion` and `DependencyVersionUtil.parseVersion` are parameters. Versions are sequences of part strings.
- The NVD search URLs are not modelled, and neither is `hasBroadMatch`, which only selects a URL. Identifiers carry no URL.
- Analyzer set-up and shutdown, `analyzeDependency`, the command-line `main`, logging and the commented-out score filter are not modelled. These are I/O and configuration.
- Concurrency between dependencies is not modelled: each call works on one dependency.
- The minimum Lucene score setting is not modelled. It is read only in set-up and is commented out in the search.
- TermCollection.TermCounts.Put: does not model the overflow of `MutableInt` past 2^31-1; counts are unbounded naturals.
- TermCollection.Cleanse: characters are classified by ASCII ranges only; `toLowerCase` in `collectionContainsString` lowers ASCII letters only.
- Selection.Suppress: the suppression analyzer is a per-identifier predicate applied to the whole identifier set after each addition. Its rules, and the `AnalysisException` it may throw, are not modelled.
- Selection.SortMatches: `Collections.sort` is modelled as a stable insertion sort. The proofs show it is a sorted permutation; stability is not proved.
- `CpeIdentifier` equality is value equality on the CPE and the confidence.
- EcosystemFilter.Distinct: the iteration order of the `HashSet`s returned by `filterEcosystem` and `getCPEs` is modelled as the order of first occurrence. It can affect which catalog CPE sets the best guess, and the order of candidates that compare equal.
- The iteration order of the `HashMap` term maps is modelled as the order in which terms were first inserted.
- The weighting sets `getVendorWeightings` and `getProductWeightings` are `Set<String>`s in the source and sequences in the model. Their order decides which matching weighting `findBoostTerm` returns first, and so which text becomes a word's boosted extra term.
- A dependency's evidence is a sequence per type and confidence. The order of the version evidence decides which value sets the best guess first within a tier.
- EntryVerifier.MergeWords: the source's `word.length() <= 2` test (`CPEAnalyzer.java:638`) counts UTF-16 code units; the model counts characters, so a word with characters outside the Basic Multilingual Plane may be merged differently.
