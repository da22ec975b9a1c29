/**
 * Term accumulation (CPEAnalyzer.collectTerms and cleanseText,
 * CPEAnalyzer.java:328-382 and 551-553): every evidence value is cleansed to
 * the characters a CPE may hold, cut at a word boundary when it is longer than
 * 1000 characters, and counted in a phrase -> count map that the caller keeps
 * across confidence tiers.
 */
module TermCollection {
  import opened Wrappers
  import opened Text

  /** The length above which collectTerms truncates a value. */
  const MaxTermLength: nat := 1000

  /** The characters CLEANSE_CHARACTER_RX = [^A-Za-z0-9 ._:/-] leaves alone. */
  predicate IsCpeChar(c: char) {
    IsAlpha(c) || IsDigit(c) || c == ' ' || c == '.' || c == '_' || c == ':' || c == '/' || c == '-'
  }

  /** What a key of a term map looks like. */
  predicate IsTerm(t: string) {
    0 < |t| <= MaxTermLength && forall i :: 0 <= i < |t| ==> IsCpeChar(t[i])
  }

  /** cleanseText: every other character becomes one space. */
  function Cleanse(text: string): (r: string)
    ensures |r| == |text|
    ensures forall i :: 0 <= i < |r| ==> IsCpeChar(r[i])
    ensures forall i :: 0 <= i < |r| && IsCpeChar(text[i]) ==> r[i] == text[i]
    ensures forall i :: 0 <= i < |r| && !IsCpeChar(text[i]) ==> r[i] == ' '
  {
    seq(|text|, i requires 0 <= i < |text| => if IsCpeChar(text[i]) then text[i] else ' ')
  }

  lemma CleanseIdempotent(text: string)
    ensures Cleanse(Cleanse(text)) == Cleanse(text)
  {
    var once := Cleanse(text);
    assert forall i :: 0 <= i < |once| ==> Cleanse(once)[i] == once[i];
  }

  /** String.lastIndexOf(c, from) for `from < |s|`; -1 when there is none. */
  function LastIndexAtOrBefore(s: string, c: char, from: int): (r: int)
    requires -1 <= from < |s|
    ensures -1 <= r <= from
    ensures r >= 0 ==> s[r] == c
    ensures forall i :: r < i <= from && 0 <= i ==> s[i] != c
    decreases from + 1
  {
    if from < 0 then -1
    else if s[from] == c then from
    else LastIndexAtOrBefore(s, c, from - 1)
  }

  /** The word boundaries collectTerms tries, in the order it tries them. */
  const Boundaries: string := " .-_/"

  /**
   * The cut of a value longer than 1000 characters: before the last space at
   * an index in 1..1000, else the last '.', '-', '_', '/' in that order, else
   * after exactly 1000 characters.
   */
  function Truncate(v: string): (r: string)
    requires |v| > MaxTermLength
    ensures 0 < |r| <= MaxTermLength && r == v[..|r|]
    ensures |r| == MaxTermLength || v[|r|] in Boundaries
  {
    var space := LastIndexAtOrBefore(v, ' ', MaxTermLength);
    if space > 0 then CutBefore(v, space)
    else
      var dot := LastIndexAtOrBefore(v, '.', MaxTermLength);
      if dot > 0 then CutBefore(v, dot)
      else
        var hyphen := LastIndexAtOrBefore(v, '-', MaxTermLength);
        if hyphen > 0 then CutBefore(v, hyphen)
        else
          var underscore := LastIndexAtOrBefore(v, '_', MaxTermLength);
          if underscore > 0 then CutBefore(v, underscore)
          else
            var slash := LastIndexAtOrBefore(v, '/', MaxTermLength);
            if slash > 0 then CutBefore(v, slash)
            else CutBefore(v, MaxTermLength)
  }

  /** value.substring(0, pos) for a cut the window allows. */
  function CutBefore(v: string, pos: nat): (r: string)
    requires 0 < pos <= MaxTermLength < |v|
    requires pos == MaxTermLength || v[pos] in " .-_/"
    ensures 0 < |r| <= MaxTermLength && r == v[..|r|] && |r| == pos
    ensures |r| == MaxTermLength || v[|r|] in Boundaries
  {
    v[..pos]
  }

  /** `c` occurs at one of the indices 1..1000 of `v`. */
  predicate OccursInWindow(v: string, c: char)
    requires |v| > MaxTermLength
  {
    exists i :: 0 < i <= MaxTermLength && v[i] == c
  }

  lemma LastIndexFindsWindow(v: string, c: char)
    requires |v| > MaxTermLength
    ensures LastIndexAtOrBefore(v, c, MaxTermLength) > 0 <==> OccursInWindow(v, c)
  {
    var r := LastIndexAtOrBefore(v, c, MaxTermLength);
    if OccursInWindow(v, c) {
      var i :| 0 < i <= MaxTermLength && v[i] == c;
      assert r >= i;
    }
  }

  /**
   * The cut falls on the last occurrence in the window of the first boundary
   * character (in the order " .-_/") that occurs there at all.
   */
  lemma {:induction false} TruncateCutsAtPreferredBoundary(v: string, k: nat)
    requires |v| > MaxTermLength && k < |Boundaries|
    requires OccursInWindow(v, Boundaries[k])
    requires forall j :: 0 <= j < k ==> !OccursInWindow(v, Boundaries[j])
    ensures |Truncate(v)| > 0 && v[|Truncate(v)|] == Boundaries[k]
    ensures forall i :: |Truncate(v)| < i <= MaxTermLength ==> v[i] != Boundaries[k]
  {
    assert Boundaries == [' ', '.', '-', '_', '/'];
    var c := Boundaries[k];
    var p := LastIndexAtOrBefore(v, c, MaxTermLength);
    LastIndexFindsWindow(v, c);
    assert k >= 1 ==> !OccursInWindow(v, Boundaries[0]);
    assert k >= 2 ==> !OccursInWindow(v, Boundaries[1]);
    assert k >= 3 ==> !OccursInWindow(v, Boundaries[2]);
    assert k >= 4 ==> !OccursInWindow(v, Boundaries[3]);
    MissingBoundariesSkipped(v, k);
    CutAtFirstFound(v, k);
  }

  /** When the branches before the k-th find nothing and the k-th finds a position, the cut is there. */
  lemma CutAtFirstFound(v: string, k: nat)
    requires |v| > MaxTermLength && k < |Boundaries|
    requires LastIndexAtOrBefore(v, Boundaries[k], MaxTermLength) > 0
    requires k >= 1 ==> LastIndexAtOrBefore(v, ' ', MaxTermLength) <= 0
    requires k >= 2 ==> LastIndexAtOrBefore(v, '.', MaxTermLength) <= 0
    requires k >= 3 ==> LastIndexAtOrBefore(v, '-', MaxTermLength) <= 0
    requires k >= 4 ==> LastIndexAtOrBefore(v, '_', MaxTermLength) <= 0
    ensures Truncate(v) == v[..LastIndexAtOrBefore(v, Boundaries[k], MaxTermLength)]
  {
    assert Boundaries == [' ', '.', '-', '_', '/'];
    var p := LastIndexAtOrBefore(v, Boundaries[k], MaxTermLength);
    if k == 0 {
      assert p == LastIndexAtOrBefore(v, ' ', MaxTermLength);
    } else if k == 1 {
      assert p == LastIndexAtOrBefore(v, '.', MaxTermLength);
    } else if k == 2 {
      assert p == LastIndexAtOrBefore(v, '-', MaxTermLength);
    } else if k == 3 {
      assert p == LastIndexAtOrBefore(v, '_', MaxTermLength);
    } else {
      assert p == LastIndexAtOrBefore(v, '/', MaxTermLength);
    }
    assert Truncate(v) == CutBefore(v, p);
  }

  /** The branches for the boundaries before the k-th find nothing. */
  lemma MissingBoundariesSkipped(v: string, k: nat)
    requires |v| > MaxTermLength && k < |Boundaries|
    requires k >= 1 ==> !OccursInWindow(v, ' ')
    requires k >= 2 ==> !OccursInWindow(v, '.')
    requires k >= 3 ==> !OccursInWindow(v, '-')
    requires k >= 4 ==> !OccursInWindow(v, '_')
    ensures k >= 1 ==> LastIndexAtOrBefore(v, ' ', MaxTermLength) <= 0
    ensures k >= 2 ==> LastIndexAtOrBefore(v, '.', MaxTermLength) <= 0
    ensures k >= 3 ==> LastIndexAtOrBefore(v, '-', MaxTermLength) <= 0
    ensures k >= 4 ==> LastIndexAtOrBefore(v, '_', MaxTermLength) <= 0
  {
    LastIndexFindsWindow(v, ' ');
    LastIndexFindsWindow(v, '.');
    LastIndexFindsWindow(v, '-');
    LastIndexFindsWindow(v, '_');
  }

  lemma BoundaryPositions(v: string)
    requires |v| > MaxTermLength
    ensures Boundaries == [' ', '.', '-', '_', '/']
    ensures forall c :: LastIndexAtOrBefore(v, c, MaxTermLength) > 0 <==> OccursInWindow(v, c)
  {
    forall c {
      LastIndexFindsWindow(v, c);
    }
  }

  /** With no boundary character in the window the value is hard-cut at 1000. */
  lemma {:induction false} TruncateHardCut(v: string)
    requires |v| > MaxTermLength
    requires forall j :: 0 <= j < |Boundaries| ==> !OccursInWindow(v, Boundaries[j])
    ensures Truncate(v) == v[..MaxTermLength]
  {
    BoundaryPositions(v);
    assert !OccursInWindow(v, Boundaries[0]) && !OccursInWindow(v, Boundaries[1]);
    assert !OccursInWindow(v, Boundaries[2]) && !OccursInWindow(v, Boundaries[3]);
    assert !OccursInWindow(v, Boundaries[4]);
  }

  /** The term one evidence value contributes, or None when it is skipped. */
  function Normalize(raw: string): (r: Option<string>)
    ensures r.None? <==> raw == []
    ensures r.Some? ==> IsTerm(r.value) && StartsWith(Cleanse(raw), r.value)
    ensures r.Some? && |raw| <= MaxTermLength ==> r.value == Cleanse(raw)
  {
    var value := Cleanse(raw);
    if value == [] then None
    else if |value| > MaxTermLength then Some(Truncate(value))
    else Some(value)
  }

  /** MutableInt lookup: the count of `t`, 0 when absent. */
  function CountOf(counts: map<string, nat>, t: string): nat {
    if t in counts then counts[t] else 0
  }

  function AddTerm(counts: map<string, nat>, t: string): map<string, nat> {
    counts[t := CountOf(counts, t) + 1]
  }

  /** The counts after collectTerms has consumed `values`. */
  function CollectedCounts(counts: map<string, nat>, values: seq<string>): map<string, nat>
    decreases |values|
  {
    if values == [] then counts
    else
      var before := CollectedCounts(counts, values[..|values| - 1]);
      match Normalize(values[|values| - 1])
      case None => before
      case Some(t) => AddTerm(before, t)
  }

  /** The keys of the map in the order they were first put. */
  function CollectedKeys(keys: seq<string>, values: seq<string>): seq<string>
    decreases |values|
  {
    if values == [] then keys
    else
      var before := CollectedKeys(keys, values[..|values| - 1]);
      match Normalize(values[|values| - 1])
      case None => before
      case Some(t) => if t in before then before else before + [t]
  }

  /** How many of `values` normalise to `t`. */
  function Occurrences(values: seq<string>, t: string): nat
    decreases |values|
  {
    if values == [] then 0
    else Occurrences(values[..|values| - 1], t) + (if Normalize(values[|values| - 1]) == Some(t) then 1 else 0)
  }

  /**
   * A term's count grows by exactly the number of values that normalise to
   * it: a new term starts at 1, no term is removed, other counts stay.
   */
  lemma {:induction false} CountsGrowByOccurrences(counts: map<string, nat>, values: seq<string>, t: string)
    ensures CountOf(CollectedCounts(counts, values), t) == CountOf(counts, t) + Occurrences(values, t)
    ensures t in counts ==> t in CollectedCounts(counts, values)
    decreases |values|
  {
    if values != [] {
      CountsGrowByOccurrences(counts, values[..|values| - 1], t);
    }
  }

  /** A term is a key afterwards iff it was before or some value normalises to it. */
  lemma {:induction false} CollectedKeySet(counts: map<string, nat>, values: seq<string>, t: string)
    ensures t in CollectedCounts(counts, values) <==> t in counts || Occurrences(values, t) > 0
    decreases |values|
  {
    if values != [] {
      CollectedKeySet(counts, values[..|values| - 1], t);
    }
  }

  /** Every key of an accumulated map is a cleansed, non-empty, short term. */
  lemma {:induction false} CollectedKeysAreTerms(counts: map<string, nat>, values: seq<string>)
    requires forall k :: k in counts ==> IsTerm(k)
    ensures forall k :: k in CollectedCounts(counts, values) ==> IsTerm(k)
    decreases |values|
  {
    if values != [] {
      CollectedKeysAreTerms(counts, values[..|values| - 1]);
    }
  }

  /**
   * Collecting tier after tier into the same map is collecting all their
   * values at once: the map is never reset between tiers.
   */
  lemma {:induction false} CollectInSteps(counts: map<string, nat>, first: seq<string>, second: seq<string>)
    ensures CollectedCounts(CollectedCounts(counts, first), second) == CollectedCounts(counts, first + second)
    decreases |second|
  {
    if second == [] {
      assert first + second == first;
    } else {
      var all := first + second;
      assert all[..|all| - 1] == first + second[..|second| - 1];
      assert all[|all| - 1] == second[|second| - 1];
      CollectInSteps(counts, first, second[..|second| - 1]);
    }
  }

  /** The key order enumerates the counted terms once each. */
  ghost predicate Enumerates(keys: seq<string>, counts: map<string, nat>) {
    && (forall i, j :: 0 <= i < j < |keys| ==> keys[i] != keys[j])
    && (forall k :: k in counts <==> k in keys)
  }

  lemma {:induction false} CollectedKeysEnumerate(keys: seq<string>, counts: map<string, nat>, values: seq<string>)
    requires Enumerates(keys, counts)
    ensures Enumerates(CollectedKeys(keys, values), CollectedCounts(counts, values))
    decreases |values|
  {
    if values != [] {
      CollectedKeysEnumerate(keys, counts, values[..|values| - 1]);
    }
  }

  /** One more value that collectTerms skips. */
  lemma CollectSkip(keys: seq<string>, counts: map<string, nat>, values: seq<string>, n: nat)
    requires n < |values| && Normalize(values[n]).None?
    ensures CollectedCounts(counts, values[..n + 1]) == CollectedCounts(counts, values[..n])
    ensures CollectedKeys(keys, values[..n + 1]) == CollectedKeys(keys, values[..n])
  {
    assert values[..n + 1][..n] == values[..n];
  }

  /** One more value that collectTerms counts as the term `t`. */
  lemma CollectPut(keys: seq<string>, counts: map<string, nat>, values: seq<string>, n: nat, t: string)
    requires n < |values| && Normalize(values[n]) == Some(t)
    ensures CollectedCounts(counts, values[..n + 1]) == AddTerm(CollectedCounts(counts, values[..n]), t)
    ensures t in CollectedKeys(keys, values[..n]) ==>
      CollectedKeys(keys, values[..n + 1]) == CollectedKeys(keys, values[..n])
    ensures t !in CollectedKeys(keys, values[..n]) ==>
      CollectedKeys(keys, values[..n + 1]) == CollectedKeys(keys, values[..n]) + [t]
  {
    assert values[..n + 1][..n] == values[..n];
  }

  /** Counting one more term keeps the keys an enumeration of well-formed terms. */
  lemma PutKeepsValid(keys: seq<string>, counts: map<string, nat>, t: string)
    requires Enumerates(keys, counts) && IsTerm(t)
    requires forall k :: k in counts ==> IsTerm(k) && counts[k] >= 1
    ensures t in counts ==> Enumerates(keys, AddTerm(counts, t))
    ensures t !in counts ==> Enumerates(keys + [t], AddTerm(counts, t))
    ensures forall k :: k in AddTerm(counts, t) ==> IsTerm(k) && AddTerm(counts, t)[k] >= 1
  {
  }

  /**
   * The part of collectTerms that shortens a value longer than 1000
   * characters (CPEAnalyzer.java:334-373), with its `trimmed` flag.
   */
  method TrimTerm(value: string) returns (r: string)
    requires |value| > MaxTermLength
    ensures r == Truncate(value)
  {
    r := value;
    var trimmed := false;
    var pos := LastIndexAtOrBefore(value, ' ', MaxTermLength);
    if pos > 0 {
      r := value[..pos];
      trimmed := true;
    } else {
      pos := LastIndexAtOrBefore(value, '.', MaxTermLength);
    }
    if !trimmed {
      if pos > 0 {
        r := value[..pos];
        trimmed := true;
      } else {
        pos := LastIndexAtOrBefore(value, '-', MaxTermLength);
      }
    }
    if !trimmed {
      if pos > 0 {
        r := value[..pos];
        trimmed := true;
      } else {
        pos := LastIndexAtOrBefore(value, '_', MaxTermLength);
      }
    }
    if !trimmed {
      if pos > 0 {
        r := value[..pos];
        trimmed := true;
      } else {
        pos := LastIndexAtOrBefore(value, '/', MaxTermLength);
      }
    }
    if !trimmed && pos > 0 {
      r := value[..pos];
      trimmed := true;
    }
    if !trimmed {
      r := value[..MaxTermLength];
    }
  }

  /**
   * A Map<String, MutableInt> of phrase counts that collectTerms updates in
   * place; `keys` is the order in which the phrases were first put.
   */
  class TermCounts {
    var keys: seq<string>
    var counts: map<string, nat>

    ghost predicate Valid()
      reads this
    {
      && Enumerates(keys, counts)
      && (forall k :: k in counts ==> IsTerm(k) && counts[k] >= 1)
    }

    constructor ()
      ensures Valid() && keys == [] && counts == map[]
    {
      keys := [];
      counts := map[];
    }

    /** The increment-or-put of collectTerms (CPEAnalyzer.java:374-379). */
    method Put(t: string)
      requires Valid() && IsTerm(t)
      modifies this
      ensures Valid()
      ensures counts == AddTerm(old(counts), t)
      ensures keys == if t in old(keys) then old(keys) else old(keys) + [t]
    {
      PutKeepsValid(keys, counts, t);
      if t in counts {
        counts := counts[t := counts[t] + 1];
      } else {
        counts := counts[t := 1];
        keys := keys + [t];
      }
    }

    /** collectTerms(terms, evidence). */
    method CollectTerms(evidence: seq<string>)
      requires Valid()
      modifies this
      ensures Valid()
      ensures counts == CollectedCounts(old(counts), evidence)
      ensures keys == CollectedKeys(old(keys), evidence)
    {
      for n := 0 to |evidence|
        invariant Valid()
        invariant counts == CollectedCounts(old(counts), evidence[..n])
        invariant keys == CollectedKeys(old(keys), evidence[..n])
      {
        var value := Cleanse(evidence[n]);
        if value == [] {
          CollectSkip(old(keys), old(counts), evidence, n);
        } else {
          if |value| > MaxTermLength {
            value := TrimTerm(value);
          }
          CollectPut(old(keys), old(counts), evidence, n, value);
          Put(value);
        }
      }
      assert evidence[..|evidence|] == evidence;
    }
  }
}
