/**
 * Selection and commit of determineIdentifiers (CPEAnalyzer.java:887-925):
 * the candidates are sorted, and those equal to the first on both the kind
 * of match and the evidence confidence are added to the dependency, unless
 * weaker than the strongest identifier it already carries; suppression runs
 * after every addition.
 */
module Selection {
  import opened Wrappers
  import opened Confidences
  import opened Identifiers
  import opened Dependencies

  /** No candidate sorts after a later one. */
  predicate Sorted(s: seq<IdentifierMatch>, cmp: (Identifier, Identifier) -> int) {
    forall i, j :: 0 <= i < j < |s| ==> NotAfter(s[i], s[j], cmp)
  }

  /** `x` placed after every element of `s` it does not sort before. */
  function Insert(x: IdentifierMatch, s: seq<IdentifierMatch>, cmp: (Identifier, Identifier) -> int)
    : (r: seq<IdentifierMatch>)
    ensures multiset(r) == multiset(s) + multiset{x}
  {
    if s == [] then [x]
    else if CompareTo(x, s[0], cmp) < 0 then [x] + s
    else
      assert s == [s[0]] + s[1..];
      [s[0]] + Insert(x, s[1..], cmp)
  }

  /** Collections.sort: a stable sort by IdentifierMatch.compareTo. */
  function SortMatches(s: seq<IdentifierMatch>, cmp: (Identifier, Identifier) -> int): (r: seq<IdentifierMatch>)
    ensures multiset(r) == multiset(s)
    decreases |s|
  {
    if s == [] then []
    else
      assert s == s[..|s| - 1] + [s[|s| - 1]];
      Insert(s[|s| - 1], SortMatches(s[..|s| - 1], cmp), cmp)
  }

  /** One step of the transitivity of the match order. */
  lemma NotAfterThrough(cmp: (Identifier, Identifier) -> int, m: IdentifierMatch, o: IdentifierMatch,
                        p: IdentifierMatch)
    requires IsComparator(cmp) && NotAfter(m, o, cmp) && NotAfter(o, p, cmp)
    ensures NotAfter(m, p, cmp)
  {
    CompareToIsComparator(cmp);
  }

  /** A match that does not sort before another sorts no earlier than it. */
  lemma NotBeforeFlips(cmp: (Identifier, Identifier) -> int, m: IdentifierMatch, o: IdentifierMatch)
    requires IsComparator(cmp) && CompareTo(m, o, cmp) >= 0
    ensures NotAfter(o, m, cmp)
  {
    CompareToIsComparator(cmp);
  }

  /** A sorted list stays sorted without its head. */
  lemma TailSorted(s: seq<IdentifierMatch>, cmp: (Identifier, Identifier) -> int)
    requires Sorted(s, cmp) && s != []
    ensures Sorted(s[1..], cmp)
  {
    var tail := s[1..];
    forall i, j | 0 <= i < j < |tail|
      ensures NotAfter(tail[i], tail[j], cmp)
    {
      assert tail[i] == s[i + 1] && tail[j] == s[j + 1];
    }
  }

  /** A head that sorts no later than every element of a sorted list keeps it sorted. */
  lemma ConsSorted(h: IdentifierMatch, rest: seq<IdentifierMatch>, cmp: (Identifier, Identifier) -> int)
    requires Sorted(rest, cmp)
    requires forall m :: m in rest ==> NotAfter(h, m, cmp)
    ensures Sorted([h] + rest, cmp)
  {
    var r := [h] + rest;
    forall i, j | 0 <= i < j < |r|
      ensures NotAfter(r[i], r[j], cmp)
    {
      if i == 0 {
        assert r[j] == rest[j - 1];
      } else {
        assert r[i] == rest[i - 1] && r[j] == rest[j - 1];
      }
    }
  }

  lemma {:induction false} InsertSorted(x: IdentifierMatch, s: seq<IdentifierMatch>, cmp: (Identifier, Identifier) -> int)
    requires IsComparator(cmp) && Sorted(s, cmp)
    ensures Sorted(Insert(x, s, cmp), cmp)
    decreases |s|
  {
    if s == [] {
    } else if CompareTo(x, s[0], cmp) < 0 {
      forall m | m in s
        ensures NotAfter(x, m, cmp)
      {
        var k :| 0 <= k < |s| && s[k] == m;
        if k > 0 {
          assert NotAfter(s[0], s[k], cmp);
          NotAfterThrough(cmp, x, s[0], m);
        }
      }
      ConsSorted(x, s, cmp);
    } else {
      var tail := s[1..];
      TailSorted(s, cmp);
      var rest := Insert(x, tail, cmp);
      InsertSorted(x, tail, cmp);
      NotBeforeFlips(cmp, x, s[0]);
      forall m | m in rest
        ensures NotAfter(s[0], m, cmp)
      {
        assert m in multiset(rest);
        if m != x {
          var k :| 0 <= k < |tail| && tail[k] == m;
          assert s[k + 1] == m;
        }
      }
      ConsSorted(s[0], rest, cmp);
    }
  }

  /** The sort orders the candidates, for a CpeIdentifier order that meets the Comparable contract. */
  lemma {:induction false} SortMatchesSorted(s: seq<IdentifierMatch>, cmp: (Identifier, Identifier) -> int)
    requires IsComparator(cmp)
    ensures Sorted(SortMatches(s, cmp), cmp)
    decreases |s|
  {
    if s != [] {
      SortMatchesSorted(s[..|s| - 1], cmp);
      InsertSorted(s[|s| - 1], SortMatches(s[..|s| - 1], cmp), cmp);
    }
  }

  /** The first of a sorted list has the strongest kind of match in it. */
  lemma HeadHasStrongestKind(s: seq<IdentifierMatch>, cmp: (Identifier, Identifier) -> int)
    requires IsComparator(cmp) && Sorted(s, cmp) && s != []
    ensures forall m :: m in s ==> IdOrdinal(s[0].identifierConfidence) <= IdOrdinal(m.identifierConfidence)
  {
    CompareToIsComparator(cmp);
  }

  /**
   * prevAddedConfidence: the strongest confidence among the dependency's
   * identifiers, LOW when it has none (893-895).
   */
  function PriorBest(ids: set<Identifier>): (r: Confidence)
    ensures forall i :: i in ids ==> Ordinal(r) <= Ordinal(i.confidence)
    ensures r == Low || exists i :: i in ids && i.confidence == r
  {
    if exists i | i in ids :: i.confidence == Highest then Highest
    else if exists i | i in ids :: i.confidence == High then High
    else if exists i | i in ids :: i.confidence == Medium then Medium
    else Low
  }

  /**
   * The suppression pass, with each rule's verdict on an identifier given as
   * `suppressed`: it removes the suppressed identifiers and keeps the rest.
   */
  function Suppress(ids: set<Identifier>, suppressed: Identifier -> bool): (r: set<Identifier>)
    ensures r <= ids
    ensures forall i :: i in ids ==> (i in r <==> !suppressed(i))
  {
    set i | i in ids && !suppressed(i)
  }

  /** The confidence a committed identifier is given (898-906). */
  function CommitConfidence(bestKind: IdentifierConfidence, bestEvidence: Confidence): Confidence {
    if bestKind == BestGuess then Low else bestEvidence
  }

  /** The variables of the commit loop: the identifiers, identifierAdded and addedNonGuess. */
  datatype CommitState = CommitState(ids: set<Identifier>, added: bool, addedNonGuess: bool)

  /** One candidate of the commit loop (897-922). */
  function CommitStep(st: CommitState, m: IdentifierMatch, bestKind: IdentifierConfidence, bestEvidence: Confidence,
                      prev: Confidence, suppressed: Identifier -> bool): CommitState
  {
    if m.identifierConfidence != bestKind || m.EvidenceConfidence() != bestEvidence then st
    else if bestKind == BestGuess && st.addedNonGuess then st
    else
      var i := Identifier(m.identifier.cpe, CommitConfidence(bestKind, bestEvidence));
      if Ordinal(prev) < Ordinal(i.confidence) then st
      else
        var ids := Suppress(st.ids + {i}, suppressed);
        if i in ids then CommitState(ids, true, st.addedNonGuess || bestKind != BestGuess)
        else st.(ids := ids)
  }

  function CommitAll(st: CommitState, ms: seq<IdentifierMatch>, bestKind: IdentifierConfidence,
                     bestEvidence: Confidence, prev: Confidence, suppressed: Identifier -> bool): CommitState
    decreases |ms|
  {
    if ms == [] then st
    else CommitStep(CommitAll(st, ms[..|ms| - 1], bestKind, bestEvidence, prev, suppressed), ms[|ms| - 1],
                    bestKind, bestEvidence, prev, suppressed)
  }

  /** CommitAll over one more candidate is one more CommitStep. */
  lemma CommitAllSnoc(st: CommitState, ms: seq<IdentifierMatch>, n: nat, bestKind: IdentifierConfidence,
                      bestEvidence: Confidence, prev: Confidence, suppressed: Identifier -> bool)
    requires n < |ms|
    ensures CommitAll(st, ms[..n + 1], bestKind, bestEvidence, prev, suppressed) ==
      CommitStep(CommitAll(st, ms[..n], bestKind, bestEvidence, prev, suppressed), ms[n],
                 bestKind, bestEvidence, prev, suppressed)
  {
    assert ms[..n + 1][..n] == ms[..n];
  }

  /**
   * The identifiers determineIdentifiers and its caller end with, and whether
   * it reports one added, for the candidates `collected` (887-925).
   */
  function Select(ids: set<Identifier>, collected: seq<IdentifierMatch>, cmp: (Identifier, Identifier) -> int,
                  suppressed: Identifier -> bool): CommitState
  {
    if collected == [] then CommitState(ids, false, false)
    else
      var sorted := SortMatches(collected, cmp);
      assert sorted != [] by {
        assert collected[0] in multiset(sorted);
      }
      CommitAll(CommitState(ids, false, false), sorted, sorted[0].identifierConfidence,
                sorted[0].EvidenceConfidence(), PriorBest(ids), suppressed)
  }

  /**
   * The identifiers the commit loop offers to the dependency: those of the
   * candidates of the head's kind and evidence confidence, with their
   * committed confidence, or none when that confidence is weaker than `prev`.
   */
  function Chosen(ms: seq<IdentifierMatch>, bestKind: IdentifierConfidence, bestEvidence: Confidence,
                  prev: Confidence): set<Identifier>
  {
    var c := CommitConfidence(bestKind, bestEvidence);
    if Ordinal(prev) < Ordinal(c) then {}
    else set m | m in ms && m.identifierConfidence == bestKind && m.EvidenceConfidence() == bestEvidence
                 :: Identifier(m.identifier.cpe, c)
  }

  /** What the commit loop leaves: the closed form of CommitAll. */
  ghost predicate Committed(ids: set<Identifier>, st: CommitState, chosen: set<Identifier>, bestKind: IdentifierConfidence,
                            suppressed: Identifier -> bool)
  {
    && st.ids == (if chosen == {} then ids else Suppress(ids + chosen, suppressed))
    && (st.added <==> exists i :: i in chosen && !suppressed(i))
    && (st.addedNonGuess <==> st.added && bestKind != BestGuess)
  }

  /**
   * The commit loop adds every chosen identifier and suppresses after each,
   * so it ends with the suppressed union; it reports an addition iff a chosen
   * identifier survives suppression; and addedNonGuess is never set while
   * BEST_GUESS candidates are committed, so the `continue` guarding them
   * (902-904) never fires.
   */
  lemma {:induction false} CommitAllClosedForm(ids: set<Identifier>, ms: seq<IdentifierMatch>,
                                               bestKind: IdentifierConfidence, bestEvidence: Confidence,
                                               prev: Confidence, suppressed: Identifier -> bool)
    ensures Committed(ids, CommitAll(CommitState(ids, false, false), ms, bestKind, bestEvidence, prev, suppressed),
                      Chosen(ms, bestKind, bestEvidence, prev), bestKind, suppressed)
    decreases |ms|
  {
    if ms != [] {
      var init := ms[..|ms| - 1];
      var m := ms[|ms| - 1];
      assert ms == init + [m];
      CommitAllClosedForm(ids, init, bestKind, bestEvidence, prev, suppressed);
      ChosenSnoc(init, m, bestKind, bestEvidence, prev);
      var st := CommitAll(CommitState(ids, false, false), init, bestKind, bestEvidence, prev, suppressed);
      CommitStepKeeps(ids, st, Chosen(init, bestKind, bestEvidence, prev), m, bestKind, bestEvidence, prev, suppressed);
    }
  }

  /** The candidate `m` adds at most its own identifier to the chosen ones. */
  function Offered(m: IdentifierMatch, bestKind: IdentifierConfidence, bestEvidence: Confidence,
                   prev: Confidence): set<Identifier>
  {
    var c := CommitConfidence(bestKind, bestEvidence);
    if m.identifierConfidence == bestKind && m.EvidenceConfidence() == bestEvidence && !(Ordinal(prev) < Ordinal(c))
    then {Identifier(m.identifier.cpe, c)}
    else {}
  }

  lemma ChosenSnoc(init: seq<IdentifierMatch>, m: IdentifierMatch, bestKind: IdentifierConfidence,
                   bestEvidence: Confidence, prev: Confidence)
    ensures Chosen(init + [m], bestKind, bestEvidence, prev) ==
      Chosen(init, bestKind, bestEvidence, prev) + Offered(m, bestKind, bestEvidence, prev)
  {
    assert forall x :: x in init + [m] <==> x in init || x == m;
  }

  lemma CommitStepKeeps(ids: set<Identifier>, st: CommitState, chosen: set<Identifier>, m: IdentifierMatch,
                        bestKind: IdentifierConfidence, bestEvidence: Confidence, prev: Confidence,
                        suppressed: Identifier -> bool)
    requires Committed(ids, st, chosen, bestKind, suppressed)
    ensures Committed(ids, CommitStep(st, m, bestKind, bestEvidence, prev, suppressed),
                      chosen + Offered(m, bestKind, bestEvidence, prev), bestKind, suppressed)
  {
    var offered := Offered(m, bestKind, bestEvidence, prev);
    if offered == {} {
      assert chosen + offered == chosen;
    } else {
      var i := Identifier(m.identifier.cpe, CommitConfidence(bestKind, bestEvidence));
      assert offered == {i};
      assert Suppress(st.ids + {i}, suppressed) == Suppress(ids + (chosen + {i}), suppressed);
    }
  }

  /** The identifiers the commit loop of Select offers to the dependency. */
  function SelectOffers(ids: set<Identifier>, collected: seq<IdentifierMatch>,
                        cmp: (Identifier, Identifier) -> int): set<Identifier>
  {
    if collected == [] then {}
    else
      var sorted := SortMatches(collected, cmp);
      assert sorted != [] by {
        assert collected[0] in multiset(sorted);
      }
      Chosen(sorted, sorted[0].identifierConfidence, sorted[0].EvidenceConfidence(), PriorBest(ids))
  }

  /**
   * determineIdentifiers offers only identifiers of candidates of the
   * strongest kind of match collected (so an EXACT_MATCH shuts out every
   * BEST_GUESS and BROAD_MATCH), never with a confidence weaker than the
   * strongest the dependency already has; the dependency ends with the
   * offered identifiers added and the suppressed ones removed; and the result
   * is true iff an offered identifier is present afterwards.
   */
  lemma SelectCommitsStrongest(ids: set<Identifier>, collected: seq<IdentifierMatch>,
                               cmp: (Identifier, Identifier) -> int, suppressed: Identifier -> bool)
    requires IsComparator(cmp)
    ensures var offers := SelectOffers(ids, collected, cmp);
      forall i :: i in offers ==>
        && Ordinal(i.confidence) <= Ordinal(PriorBest(ids))
        && exists m :: m in collected && m.identifier.cpe == i.cpe &&
             forall o :: o in collected ==> IdOrdinal(m.identifierConfidence) <= IdOrdinal(o.identifierConfidence)
    ensures var r := Select(ids, collected, cmp, suppressed);
      var offers := SelectOffers(ids, collected, cmp);
      && r.ids == (if offers == {} then ids else Suppress(ids + offers, suppressed))
      && (r.added <==> exists i :: i in offers && i in r.ids)
  {
    if collected != [] {
      var sorted := SortMatches(collected, cmp);
      assert collected[0] in multiset(sorted);
      var head := sorted[0];
      SortMatchesSorted(collected, cmp);
      HeadHasStrongestKind(sorted, cmp);
      var prev := PriorBest(ids);
      var chosen := Chosen(sorted, head.identifierConfidence, head.EvidenceConfidence(), prev);
      CommitAllClosedForm(ids, sorted, head.identifierConfidence, head.EvidenceConfidence(), prev, suppressed);
      forall i | i in chosen
        ensures Ordinal(i.confidence) <= Ordinal(prev)
        ensures exists m :: m in collected && m.identifier.cpe == i.cpe &&
                   forall o :: o in collected ==> IdOrdinal(m.identifierConfidence) <= IdOrdinal(o.identifierConfidence)
      {
        var m :| m in sorted && m.identifierConfidence == head.identifierConfidence &&
                 m.EvidenceConfidence() == head.EvidenceConfidence() &&
                 i == Identifier(m.identifier.cpe, CommitConfidence(head.identifierConfidence, head.EvidenceConfidence()));
        assert m in multiset(sorted);
        assert m in collected;
        forall o | o in collected
          ensures IdOrdinal(m.identifierConfidence) <= IdOrdinal(o.identifierConfidence)
        {
          assert o in multiset(collected);
          assert o in sorted;
        }
      }
    }
  }

  /** With an EXACT_MATCH among the candidates, only EXACT_MATCH candidates are offered. */
  lemma ExactMatchShutsOutOthers(ids: set<Identifier>, collected: seq<IdentifierMatch>,
                                 cmp: (Identifier, Identifier) -> int, suppressed: Identifier -> bool)
    requires IsComparator(cmp)
    requires exists m :: m in collected && m.identifierConfidence == ExactMatch
    ensures forall i :: i in SelectOffers(ids, collected, cmp) ==>
      exists m :: m in collected && m.identifierConfidence == ExactMatch && m.identifier.cpe == i.cpe
  {
    SelectCommitsStrongest(ids, collected, cmp, suppressed);
    var x :| x in collected && x.identifierConfidence == ExactMatch;
    forall i | i in SelectOffers(ids, collected, cmp)
      ensures exists m :: m in collected && m.identifierConfidence == ExactMatch && m.identifier.cpe == i.cpe
    {
      var m :| m in collected && m.identifier.cpe == i.cpe &&
               forall o :: o in collected ==> IdOrdinal(m.identifierConfidence) <= IdOrdinal(o.identifierConfidence);
      assert IdOrdinal(m.identifierConfidence) <= IdOrdinal(x.identifierConfidence);
    }
  }

  /**
   * An identifier the call leaves on the dependency that was not there before
   * is an unsuppressed identifier of a strongest-kind candidate, no weaker
   * than the dependency's strongest identifier before the call.
   */
  lemma NewIdentifiersAreStrongest(ids: set<Identifier>, collected: seq<IdentifierMatch>,
                                   cmp: (Identifier, Identifier) -> int, suppressed: Identifier -> bool)
    requires IsComparator(cmp)
    ensures var r := Select(ids, collected, cmp, suppressed);
      forall i :: i in r.ids && i !in ids ==>
        && !suppressed(i)
        && Ordinal(i.confidence) <= Ordinal(PriorBest(ids))
        && exists m :: m in collected && m.identifier.cpe == i.cpe &&
             forall o :: o in collected ==> IdOrdinal(m.identifierConfidence) <= IdOrdinal(o.identifierConfidence)
  {
    SelectCommitsStrongest(ids, collected, cmp, suppressed);
  }

  /**
   * The commit of determineIdentifiers (887-925): sorts the candidates and
   * adds the chosen identifiers to the dependency one by one, suppressing
   * after each addition.
   */
  method Commit(dependency: Dependency, collected: seq<IdentifierMatch>, cmp: (Identifier, Identifier) -> int,
                suppressed: Identifier -> bool) returns (identifierAdded: bool)
    modifies dependency
    ensures var r := Select(old(dependency.identifiers), collected, cmp, suppressed);
      dependency.identifiers == r.ids && identifierAdded == r.added
  {
    identifierAdded := false;
    if collected != [] {
      var sorted := SortMatches(collected, cmp);
      assert collected[0] in multiset(sorted);
      var bestIdentifierQuality := sorted[0].identifierConfidence;
      var bestEvidenceQuality := sorted[0].EvidenceConfidence();
      var addedNonGuess := false;
      var prevAddedConfidence := PriorBest(dependency.identifiers);
      ghost var start := CommitState(dependency.identifiers, false, false);
      for n := 0 to |sorted|
        invariant CommitState(dependency.identifiers, identifierAdded, addedNonGuess) ==
          CommitAll(start, sorted[..n], bestIdentifierQuality, bestEvidenceQuality, prevAddedConfidence, suppressed)
      {
        var m := sorted[n];
        ghost var next := CommitStep(CommitState(dependency.identifiers, identifierAdded, addedNonGuess), m,
                                     bestIdentifierQuality, bestEvidenceQuality, prevAddedConfidence, suppressed);
        CommitAllSnoc(start, sorted, n, bestIdentifierQuality, bestEvidenceQuality, prevAddedConfidence, suppressed);
        if bestIdentifierQuality == m.identifierConfidence && bestEvidenceQuality == m.EvidenceConfidence() {
          var confidence;
          if bestIdentifierQuality == BestGuess {
            if addedNonGuess {
              continue;
            }
            confidence := Low;
          } else {
            confidence := bestEvidenceQuality;
          }
          var i := Identifier(m.identifier.cpe, confidence);
          assert confidence == CommitConfidence(bestIdentifierQuality, bestEvidenceQuality);
          if Ordinal(prevAddedConfidence) < Ordinal(i.confidence) {
            continue;
          }
          dependency.identifiers := dependency.identifiers + {i};
          dependency.identifiers := Suppress(dependency.identifiers, suppressed);
          if i in dependency.identifiers {
            identifierAdded := true;
            if !addedNonGuess && bestIdentifierQuality != BestGuess {
              addedNonGuess := true;
            }
          }
          assert CommitState(dependency.identifiers, identifierAdded, addedNonGuess) == next;
        }
      }
      assert sorted[..|sorted|] == sorted;
    }
  }
}
