/**
 * The Lucene query text built from the two term maps (CPEAnalyzer.buildSearch,
 * appendWeightedSearch, findBoostTerm and equalsIgnoreCaseAndNonAlpha,
 * CPEAnalyzer.java:464-589). Keyword detection and escaping belong to
 * LuceneUtils and are parameters here.
 */
module QueryBuilder {
  import opened Wrappers
  import opened Text
  import opened TermCollection

  /** WEIGHTING_BOOST: added to a phrase count when a word is a weighting. */
  const WeightingBoost: nat := 1
  /** Fields.PRODUCT and Fields.VENDOR of the CPE index. */
  const ProductField: string := "product"
  const VendorField: string := "vendor"

  /** LuceneUtils.isKeyword and the text appendEscapedLuceneQuery writes. */
  datatype QuerySyntax = QuerySyntax(isKeyword: string -> bool, escape: string -> string)

  /** The letters of `s`, lower-cased: the removal of CLEANSE_NONALPHA_RX. */
  function AlphaKey(s: string): (r: string)
    ensures |r| <= |s|
    ensures forall i :: 0 <= i < |r| ==> IsLower(r[i])
    decreases |s|
  {
    if s == [] then []
    else AlphaKey(s[..|s| - 1]) + (if IsAlpha(s[|s| - 1]) then [LowerChar(s[|s| - 1])] else [])
  }

  /** equalsIgnoreCaseAndNonAlpha, where None is a null argument. */
  predicate EqualsIgnoreCaseAndNonAlpha(l: Option<string>, r: Option<string>) {
    l.Some? && r.Some? && AlphaKey(l.value) == AlphaKey(r.value)
  }

  lemma {:induction false} AlphaKeyIgnoresCase(s: string)
    ensures AlphaKey(ToLower(s)) == AlphaKey(s)
    decreases |s|
  {
    if s != [] {
      assert ToLower(s)[..|s| - 1] == ToLower(s[..|s| - 1]);
      AlphaKeyIgnoresCase(s[..|s| - 1]);
    }
  }

  lemma {:induction false} AlphaKeyIgnoresCleansing(s: string)
    ensures AlphaKey(Cleanse(s)) == AlphaKey(s)
    decreases |s|
  {
    if s != [] {
      assert Cleanse(s)[..|s| - 1] == Cleanse(s[..|s| - 1]);
      AlphaKeyIgnoresCleansing(s[..|s| - 1]);
    }
  }

  /**
   * The weighting match is an equivalence on present strings, false on null,
   * and blind to case and to the characters cleansing replaces.
   */
  lemma BoostMatchIsLoose(l: Option<string>, r: Option<string>)
    ensures EqualsIgnoreCaseAndNonAlpha(l, r) <==> EqualsIgnoreCaseAndNonAlpha(r, l)
    ensures l.None? || r.None? ==> !EqualsIgnoreCaseAndNonAlpha(l, r)
    ensures l.Some? ==> EqualsIgnoreCaseAndNonAlpha(l, l)
    ensures l.Some? ==> EqualsIgnoreCaseAndNonAlpha(l, Some(ToLower(l.value)))
    ensures l.Some? ==> EqualsIgnoreCaseAndNonAlpha(l, Some(Cleanse(l.value)))
  {
    if l.Some? {
      AlphaKeyIgnoresCase(l.value);
      AlphaKeyIgnoresCleansing(l.value);
    }
  }

  /** findBoostTerm: the first weighting that matches `term`, None for null. */
  function FindBoostTerm(term: string, boost: seq<string>): (r: Option<string>)
    ensures r.None? <==> forall b :: b in boost ==> !EqualsIgnoreCaseAndNonAlpha(Some(term), Some(b))
    ensures r.Some? ==> EqualsIgnoreCaseAndNonAlpha(Some(term), r)
    ensures r.Some? ==> exists k :: (0 <= k < |boost| && boost[k] == r.value &&
      forall j :: 0 <= j < k ==> !EqualsIgnoreCaseAndNonAlpha(Some(term), Some(boost[j])))
  {
    if boost == [] then None
    else if EqualsIgnoreCaseAndNonAlpha(Some(term), Some(boost[0])) then
      assert boost[0] == boost[0];
      Some(boost[0])
    else
      assert forall k :: 0 <= k < |boost[1..]| ==> boost[1..][k] == boost[k + 1];
      FindBoostTerm(term, boost[1..])
  }

  predicate IsSpace(c: char) { c == ' ' }

  /** `phrase.split(" ")`. */
  function Words(phrase: string): seq<string> {
    JavaSplit(phrase, IsSpace)
  }

  /** A word as the query writes it: escaped, and quoted when a keyword. */
  function QueryTerm(word: string, syn: QuerySyntax): string {
    if syn.isKeyword(word) then "\"" + syn.escape(word) + "\"" else syn.escape(word)
  }

  /** The `^n` after a word of a phrase counted `count` times. */
  function BoostSuffix(word: string, count: nat, boost: seq<string>): string {
    match FindBoostTerm(word, boost)
    case Some(_) => "^" + NatToString(count + WeightingBoost)
    case None => if count > 1 then "^" + NatToString(count) else ""
  }

  /** What a word adds to the phrase's boostedTerms. */
  function ExtraTerm(word: string, count: nat, boost: seq<string>): string {
    match FindBoostTerm(word, boost)
    case Some(b) => if b != word then " " + b + "^" + NatToString(count + WeightingBoost) else ""
    case None => ""
  }

  /** The space-separated query units of the non-empty words of `ws`. */
  function WordUnits(ws: seq<string>, count: nat, boost: seq<string>, syn: QuerySyntax): seq<string>
    decreases |ws|
  {
    if ws == [] then []
    else
      var before := WordUnits(ws[..|ws| - 1], count, boost, syn);
      var w := ws[|ws| - 1];
      if w == "" then before else before + [QueryTerm(w, syn) + BoostSuffix(w, count, boost)]
  }

  /** The boostedTerms text of the words `ws`. */
  function WordExtras(ws: seq<string>, count: nat, boost: seq<string>): string
    decreases |ws|
  {
    if ws == [] then ""
    else
      var w := ws[|ws| - 1];
      WordExtras(ws[..|ws| - 1], count, boost) + (if w == "" then "" else ExtraTerm(w, count, boost))
  }

  /** Only non-empty words, which each give a unit, contribute boostedTerms. */
  lemma {:induction false} ExtrasNeedUnits(ws: seq<string>, count: nat, boost: seq<string>, syn: QuerySyntax)
    ensures WordUnits(ws, count, boost, syn) == [] ==> WordExtras(ws, count, boost) == ""
    decreases |ws|
  {
    if ws != [] {
      ExtrasNeedUnits(ws[..|ws| - 1], count, boost, syn);
    }
  }

  /** The units of one phrase's words; its boostedTerms follow its last word. */
  function PhraseUnits(ws: seq<string>, count: nat, boost: seq<string>, syn: QuerySyntax): seq<string> {
    var u := WordUnits(ws, count, boost, syn);
    if u == [] then [] else u[..|u| - 1] + [u[|u| - 1] + WordExtras(ws, count, boost)]
  }

  /** The units of all phrases, in the map's iteration order. */
  function ClauseUnits(keys: seq<string>, counts: map<string, nat>, boost: seq<string>, syn: QuerySyntax): seq<string>
    decreases |keys|
  {
    if keys == [] then []
    else
      var k := keys[|keys| - 1];
      ClauseUnits(keys[..|keys| - 1], counts, boost, syn) + PhraseUnits(Words(k), CountOf(counts, k), boost, syn)
  }

  /** The text appendWeightedSearch appends for a non-empty map. */
  function FieldClause(field: string, keys: seq<string>, counts: map<string, nat>, boost: seq<string>, syn: QuerySyntax): string {
    field + ":(" + Join(ClauseUnits(keys, counts, boost, syn), " ") + ")"
  }

  /** One more word for the inner loop of appendWeightedSearch. */
  lemma WordStep(ws: seq<string>, j: nat, count: nat, boost: seq<string>, syn: QuerySyntax)
    requires j < |ws|
    ensures ws[j] == "" ==> WordUnits(ws[..j + 1], count, boost, syn) == WordUnits(ws[..j], count, boost, syn)
    ensures ws[j] == "" ==> WordExtras(ws[..j + 1], count, boost) == WordExtras(ws[..j], count, boost)
    ensures ws[j] != "" ==> (WordUnits(ws[..j + 1], count, boost, syn) ==
      WordUnits(ws[..j], count, boost, syn) + [QueryTerm(ws[j], syn) + BoostSuffix(ws[j], count, boost)])
    ensures ws[j] != "" ==> (WordExtras(ws[..j + 1], count, boost) ==
      WordExtras(ws[..j], count, boost) + ExtraTerm(ws[j], count, boost))
  {
    assert ws[..j + 1][..j] == ws[..j];
  }

  /** Appending a unit after a space, or first, extends the joined text. */
  lemma JoinAppendUnit(prefix: string, units: seq<string>, more: seq<string>, u: string)
    ensures prefix + Join(units + (more + [u]), " ") ==
      prefix + Join(units + more, " ") + (if units + more == [] then "" else " ") + u
  {
    assert units + (more + [u]) == (units + more) + [u];
    JoinSnoc(units + more, u, " ");
    var j := Join(units + more, " ");
    if units + more == [] {
      assert j == [];
      assert prefix + j + "" + u == prefix + u;
    } else {
      assert prefix + (j + " " + u) == prefix + j + " " + u;
    }
  }

  /** Writing the next non-empty word of a phrase, after a space unless it is the first, extends the clause by its unit. */
  lemma WordAppended(prefix: string, units: seq<string>, ws: seq<string>, j: nat, count: nat, boost: seq<string>,
                     syn: QuerySyntax, before: string, space: string)
    requires j < |ws| && ws[j] != ""
    requires before == prefix + Join(units + WordUnits(ws[..j], count, boost, syn), " ")
    requires space == if units + WordUnits(ws[..j], count, boost, syn) == [] then "" else " "
    ensures before + space + QueryTerm(ws[j], syn) + BoostSuffix(ws[j], count, boost) ==
      prefix + Join(units + WordUnits(ws[..j + 1], count, boost, syn), " ")
    ensures units + WordUnits(ws[..j + 1], count, boost, syn) != []
  {
    WordStep(ws, j, count, boost, syn);
    var more := WordUnits(ws[..j], count, boost, syn);
    var u := QueryTerm(ws[j], syn) + BoostSuffix(ws[j], count, boost);
    assert WordUnits(ws[..j + 1], count, boost, syn) == more + [u];
    JoinAppendUnit(prefix, units, more, u);
    assert before + space + QueryTerm(ws[j], syn) + BoostSuffix(ws[j], count, boost) == before + space + u;
  }

  /** A phrase's boostedTerms text extends the joined units by exactly itself. */
  lemma ClosePhrase(prefix: string, units: seq<string>, ws: seq<string>, count: nat, boost: seq<string>,
                    syn: QuerySyntax)
    ensures prefix + Join(units + PhraseUnits(ws, count, boost, syn), " ") ==
      prefix + Join(units + WordUnits(ws, count, boost, syn), " ") + WordExtras(ws, count, boost)
    ensures units + PhraseUnits(ws, count, boost, syn) != [] <==> units + WordUnits(ws, count, boost, syn) != []
  {
    var u := WordUnits(ws, count, boost, syn);
    var e := WordExtras(ws, count, boost);
    ExtrasNeedUnits(ws, count, boost, syn);
    if u == [] {
      assert units + PhraseUnits(ws, count, boost, syn) == units + u;
      assert e == [];
      assert prefix + Join(units + u, " ") + e == prefix + Join(units + u, " ");
    } else {
      var last := u[|u| - 1];
      assert units + PhraseUnits(ws, count, boost, syn) == (units + u[..|u| - 1]) + [last + e];
      assert units + u == (units + u[..|u| - 1]) + [last];
      JoinExtendLast(units + u[..|u| - 1], last, e, " ");
      var j := Join(units + u, " ");
      assert prefix + (j + e) == prefix + j + e;
    }
  }

  lemma ClauseStep(keys: seq<string>, i: nat, counts: map<string, nat>, boost: seq<string>, syn: QuerySyntax)
    requires i < |keys|
    ensures ClauseUnits(keys[..i + 1], counts, boost, syn) ==
      ClauseUnits(keys[..i], counts, boost, syn) + PhraseUnits(Words(keys[i]), CountOf(counts, keys[i]), boost, syn)
  {
    assert keys[..i + 1][..i] == keys[..i];
  }

  /**
   * The body of the inner loop of appendWeightedSearch for a non-empty word:
   * a space unless the word opens the clause, the escaped word (quoted when a
   * keyword), then `^(count+1)` when it matches a weighting, else `^count`
   * when the count exceeds 1. A matching weighting that differs from the word
   * is returned, with its boost, for the phrase's boostedTerms.
   */
  method AppendWord(sb: string, addSpace: bool, word: string, weighting: nat, weightedText: seq<string>, syn: QuerySyntax)
    returns (out: string, extra: string)
    ensures out == sb + (if addSpace then " " else "") + QueryTerm(word, syn) + BoostSuffix(word, weighting, weightedText)
    ensures extra == ExtraTerm(word, weighting, weightedText)
  {
    out := sb;
    if addSpace {
      out := out + " ";
    }
    ghost var base := out;
    assert base == sb + (if addSpace then " " else "");
    if syn.isKeyword(word) {
      out := out + "\"" + syn.escape(word) + "\"";
    } else {
      out := out + syn.escape(word);
    }
    assert out == base + QueryTerm(word, syn);
    extra := "";
    var boostTerm := FindBoostTerm(word, weightedText);
    if boostTerm.Some? {
      var suffix := "^" + NatToString(weighting + WeightingBoost);
      out := out + suffix;
      assert BoostSuffix(word, weighting, weightedText) == "^" + NatToString(weighting + WeightingBoost);
      if boostTerm.value != word {
        extra := " " + boostTerm.value + "^" + NatToString(weighting + WeightingBoost);
      }
    } else if weighting > 1 {
      var suffix := "^" + NatToString(weighting);
      out := out + suffix;
      assert BoostSuffix(word, weighting, weightedText) == "^" + NatToString(weighting);
    } else {
      assert BoostSuffix(word, weighting, weightedText) == "";
    }
    assert out == base + QueryTerm(word, syn) + BoostSuffix(word, weighting, weightedText);
  }

  /**
   * The inner loop of appendWeightedSearch for one phrase: each non-empty
   * word in turn, collecting the phrase's boostedTerms. The clause so far is
   * `units`.
   */
  method AppendWords(sb: string, addSpace: bool, ghost prefix: string, ghost units: seq<string>,
                     text: seq<string>, weighting: nat, weightedText: seq<string>, syn: QuerySyntax)
    returns (out: string, nowSpace: bool, boostedTerms: string)
    requires sb == prefix + Join(units, " ")
    requires addSpace <==> units != []
    ensures out == prefix + Join(units + WordUnits(text, weighting, weightedText, syn), " ")
    ensures nowSpace <==> units + WordUnits(text, weighting, weightedText, syn) != []
    ensures boostedTerms == WordExtras(text, weighting, weightedText)
  {
    out := sb;
    nowSpace := addSpace;
    boostedTerms := "";
    assert units + WordUnits(text[..0], weighting, weightedText, syn) == units;
    for j := 0 to |text|
      invariant out == prefix + Join(units + WordUnits(text[..j], weighting, weightedText, syn), " ")
      invariant nowSpace <==> units + WordUnits(text[..j], weighting, weightedText, syn) != []
      invariant boostedTerms == WordExtras(text[..j], weighting, weightedText)
    {
      var word := text[j];
      WordStep(text, j, weighting, weightedText, syn);
      if word != "" {
        WordAppended(prefix, units, text, j, weighting, weightedText, syn, out, if nowSpace then " " else "");
        var extra;
        out, extra := AppendWord(out, nowSpace, word, weighting, weightedText, syn);
        nowSpace := true;
        boostedTerms := boostedTerms + extra;
      }
    }
    assert text[..|text|] == text;
  }

  /**
   * The body of the outer loop of appendWeightedSearch for one phrase: its
   * words, then its boostedTerms.
   */
  method AppendPhrase(sb: string, addSpace: bool, ghost prefix: string, ghost units: seq<string>,
                      text: seq<string>, weighting: nat, weightedText: seq<string>, syn: QuerySyntax)
    returns (out: string, nowSpace: bool)
    requires sb == prefix + Join(units, " ")
    requires addSpace <==> units != []
    ensures out == prefix + Join(units + PhraseUnits(text, weighting, weightedText, syn), " ")
    ensures nowSpace <==> units + PhraseUnits(text, weighting, weightedText, syn) != []
  {
    var boostedTerms;
    out, nowSpace, boostedTerms := AppendWords(sb, addSpace, prefix, units, text, weighting, weightedText, syn);
    ClosePhrase(prefix, units, text, weighting, weightedText, syn);
    if |boostedTerms| > 0 {
      out := out + boostedTerms;
    } else {
      assert out == out + boostedTerms;
    }
  }

  /** Once every unit is written after `field:(`, the closing parenthesis completes the field clause. */
  lemma ClauseClosed(sb: string, field: string, keys: seq<string>, counts: map<string, nat>, boost: seq<string>,
                     syn: QuerySyntax, written: string)
    requires written == sb + field + ":(" + Join(ClauseUnits(keys, counts, boost, syn), " ")
    ensures written + ")" == sb + FieldClause(field, keys, counts, boost, syn)
  {
    ClosingParenRegroups(sb, field, Join(ClauseUnits(keys, counts, boost, syn), " "));
  }

  lemma ClosingParenRegroups(sb: string, field: string, body: string)
    ensures sb + field + ":(" + body + ")" == sb + (field + ":(" + body + ")")
  {
  }

  /**
   * appendWeightedSearch: false, appending nothing, for an empty map; else
   * `field:(` then every non-empty word of every phrase, space-separated,
   * each followed by its boost, each phrase by its boostedTerms, then `)`.
   */
  method AppendWeightedSearch(sb: string, field: string, terms: TermCounts, weightedText: seq<string>, syn: QuerySyntax)
    returns (ok: bool, out: string)
    requires terms.Valid()
    ensures ok <==> terms.counts != map[]
    ensures ok ==> out == sb + FieldClause(field, terms.keys, terms.counts, weightedText, syn)
    ensures !ok ==> out == sb
  {
    if terms.counts == map[] {
      return false, sb;
    }
    out := sb + field + ":(";
    ghost var prefix := out;
    var addSpace := false;
    var keys := terms.keys;
    for i := 0 to |keys|
      invariant out == prefix + Join(ClauseUnits(keys[..i], terms.counts, weightedText, syn), " ")
      invariant addSpace <==> ClauseUnits(keys[..i], terms.counts, weightedText, syn) != []
    {
      assert keys[i] in terms.counts;
      var weighting := terms.counts[keys[i]];
      var text := Words(keys[i]);
      ClauseStep(keys, i, terms.counts, weightedText, syn);
      out, addSpace := AppendPhrase(out, addSpace, prefix, ClauseUnits(keys[..i], terms.counts, weightedText, syn),
                                    text, weighting, weightedText, syn);
    }
    assert keys[..|keys|] == keys;
    ghost var body := Join(ClauseUnits(keys, terms.counts, weightedText, syn), " ");
    ClauseClosed(sb, field, keys, terms.counts, weightedText, syn, out);
    out := out + ")";
    ok := true;
  }

  /**
   * buildSearch: None (null) when either map is empty, else the product
   * clause, " AND ", then the vendor clause.
   */
  method BuildSearch(vendor: TermCounts, product: TermCounts, vendorWeighting: seq<string>,
                     productWeightings: seq<string>, syn: QuerySyntax) returns (r: Option<string>)
    requires vendor.Valid() && product.Valid()
    ensures r.None? <==> vendor.counts == map[] || product.counts == map[]
    ensures r.Some? ==> (r.value ==
      FieldClause(ProductField, product.keys, product.counts, productWeightings, syn) + " AND " +
      FieldClause(VendorField, vendor.keys, vendor.counts, vendorWeighting, syn))
  {
    var sb := "";
    var ok;
    ok, sb := AppendWeightedSearch(sb, ProductField, product, productWeightings, syn);
    if !ok {
      return None;
    }
    ghost var productClause := FieldClause(ProductField, product.keys, product.counts, productWeightings, syn);
    assert sb == productClause;
    sb := sb + " AND ";
    ok, sb := AppendWeightedSearch(sb, VendorField, vendor, vendorWeighting, syn);
    if !ok {
      return None;
    }
    return Some(sb);
  }

  /** A phrase with single spaces between non-empty words. */
  predicate SingleSpaced(phrase: string) {
    "" !in Pieces(phrase, IsSpace)
  }

  /** Query syntax that leaves every word as it is. */
  ghost predicate Verbatim(syn: QuerySyntax) {
    forall w :: !syn.isKeyword(w) && syn.escape(w) == w
  }

  /** Without weightings and with boosts off, a phrase's units are its words. */
  lemma {:induction false} PlainWordUnits(ws: seq<string>, syn: QuerySyntax)
    requires Verbatim(syn)
    requires "" !in ws
    ensures WordUnits(ws, 1, [], syn) == ws
    ensures WordExtras(ws, 1, []) == ""
    decreases |ws|
  {
    if ws != [] {
      var init, w := ws[..|ws| - 1], ws[|ws| - 1];
      assert ws == init + [w];
      PlainWordUnits(init, syn);
      assert QueryTerm(w, syn) == w;
      assert BoostSuffix(w, 1, []) == "" && ExtraTerm(w, 1, []) == "";
      assert w + "" == w;
    }
  }

  lemma {:induction false} JoinConcat(xs: seq<string>, ys: seq<string>, sep: string)
    ensures Join(xs + ys, sep) ==
      if xs == [] then Join(ys, sep) else if ys == [] then Join(xs, sep) else Join(xs, sep) + sep + Join(ys, sep)
    decreases |ys|
  {
    if ys == [] {
      assert xs + ys == xs;
    } else {
      var init := ys[..|ys| - 1];
      var last := ys[|ys| - 1];
      assert ys == init + [last];
      assert xs + ys == (xs + init) + [last];
      JoinConcat(xs, init, sep);
      JoinSnoc(xs + init, last, sep);
      JoinSnoc(init, last, sep);
    }
  }

  /** A single-spaced phrase, counted once, gives its words as units. */
  lemma PlainPhrase(phrase: string, syn: QuerySyntax)
    requires Verbatim(syn) && SingleSpaced(phrase)
    ensures PhraseUnits(Words(phrase), 1, [], syn) == Pieces(phrase, IsSpace)
    ensures Join(Pieces(phrase, IsSpace), " ") == phrase
    ensures Pieces(phrase, IsSpace) != []
  {
    var ps := Pieces(phrase, IsSpace);
    assert ps[|ps| - 1] in ps;
    assert Words(phrase) == ps;
    PlainWordUnits(ps, syn);
    var u := WordUnits(ps, 1, [], syn);
    assert u[..|u| - 1] + [u[|u| - 1] + ""] == ps by {
      assert u[|u| - 1] + "" == u[|u| - 1];
    }
    PiecesJoinRoundTrip(phrase, IsSpace, ' ');
  }

  lemma ClauseUnitsEmpty(keys: seq<string>, counts: map<string, nat>, syn: QuerySyntax)
    requires Verbatim(syn)
    requires forall k :: k in keys ==> k in counts && counts[k] == 1 && SingleSpaced(k)
    ensures ClauseUnits(keys, counts, [], syn) == [] <==> keys == []
  {
    if keys != [] {
      var k := keys[|keys| - 1];
      PlainPhrase(k, syn);
      assert CountOf(counts, k) == 1;
    }
  }

  /**
   * With no weightings, every count 1, verbatim syntax and single-spaced
   * phrases, a field clause lists exactly the phrases, joined by spaces.
   */
  lemma {:induction false} PlainClauseListsPhrases(keys: seq<string>, counts: map<string, nat>, syn: QuerySyntax)
    requires Verbatim(syn)
    requires forall k :: k in counts ==> counts[k] == 1
    requires forall k :: k in keys ==> k in counts && SingleSpaced(k)
    ensures Join(ClauseUnits(keys, counts, [], syn), " ") == Join(keys, " ")
    decreases |keys|
  {
    if keys != [] {
      var init, k := keys[..|keys| - 1], keys[|keys| - 1];
      assert keys == init + [k];
      PlainClauseListsPhrases(init, counts, syn);
      PlainPhrase(k, syn);
      assert CountOf(counts, k) == 1;
      var before := ClauseUnits(init, counts, [], syn);
      var pu := Pieces(k, IsSpace);
      assert ClauseUnits(keys, counts, [], syn) == before + pu;
      JoinConcat(before, pu, " ");
      ClauseUnitsEmpty(init, counts, syn);
      JoinSnoc(init, k, " ");
    }
  }

  // ---------------------------------------------------------------------------
  // The clause word by word, for any counts and weightings

  /** The non-empty words of `ws`, in order: the words the inner loop does not skip. */
  function NonEmptyWords(ws: seq<string>): (r: seq<string>)
    ensures |r| <= |ws|
    ensures forall w :: w in r <==> w in ws && w != ""
    decreases |ws|
  {
    if ws == [] then []
    else
      var init, w := ws[..|ws| - 1], ws[|ws| - 1];
      assert ws == init + [w];
      if w == "" then NonEmptyWords(init) else NonEmptyWords(init) + [w]
  }

  /** The non-empty words of every phrase, in the map's iteration order. */
  function ClauseWords(keys: seq<string>): seq<string>
    decreases |keys|
  {
    if keys == [] then [] else ClauseWords(keys[..|keys| - 1]) + NonEmptyWords(Words(keys[|keys| - 1]))
  }

  /**
   * One written word of a clause: the phrase it comes from, the word, the
   * phrase's count, and whether it is the phrase's last written word (after
   * which the phrase's boostedTerms go).
   */
  datatype Slot = Slot(key: string, word: string, count: nat, closes: bool)

  function PhraseSlots(key: string, counts: map<string, nat>): seq<Slot> {
    var ne := NonEmptyWords(Words(key));
    seq(|ne|, i requires 0 <= i < |ne| => Slot(key, ne[i], CountOf(counts, key), i == |ne| - 1))
  }

  /** The slots of a clause: those of each phrase, in the map's iteration order. */
  function ClauseSlots(keys: seq<string>, counts: map<string, nat>): seq<Slot>
    decreases |keys|
  {
    if keys == [] then []
    else ClauseSlots(keys[..|keys| - 1], counts) + PhraseSlots(keys[|keys| - 1], counts)
  }

  /** What follows a slot's weight suffix: the phrase's boostedTerms on its last written word, nothing elsewhere. */
  function Tail(s: Slot, boost: seq<string>): string {
    if s.closes then WordExtras(Words(s.key), s.count, boost) else ""
  }

  /** The text written for a slot: the word, its weight suffix, and its tail. */
  function Render(s: Slot, boost: seq<string>, syn: QuerySyntax): string {
    QueryTerm(s.word, syn) + BoostSuffix(s.word, s.count, boost) + Tail(s, boost)
  }

  /** The weight a slot carries, by whether its word matches a weighting and by its count. */
  ghost predicate WeightedAsWritten(s: Slot, u: string, boost: seq<string>, syn: QuerySyntax) {
    && (FindBoostTerm(s.word, boost).Some? ==>
          u == QueryTerm(s.word, syn) + ("^" + NatToString(s.count + 1)) + Tail(s, boost))
    && (FindBoostTerm(s.word, boost).None? && s.count > 1 ==>
          u == QueryTerm(s.word, syn) + ("^" + NatToString(s.count)) + Tail(s, boost))
    && (FindBoostTerm(s.word, boost).None? && s.count <= 1 ==> u == QueryTerm(s.word, syn) + Tail(s, boost))
    && (Verbatim(syn) ==> StartsWith(u, s.word))
  }

  lemma RenderWeight(s: Slot, boost: seq<string>, syn: QuerySyntax)
    ensures WeightedAsWritten(s, Render(s, boost, syn), boost, syn)
  {
    var t, tail := QueryTerm(s.word, syn), Tail(s, boost);
    if FindBoostTerm(s.word, boost).None? && s.count <= 1 {
      assert BoostSuffix(s.word, s.count, boost) == "";
      assert t + "" == t;
    }
    if Verbatim(syn) {
      assert t == s.word;
      assert Render(s, boost, syn)[..|t|] == t;
    }
  }

  lemma {:induction false} WordUnitsRender(ws: seq<string>, count: nat, boost: seq<string>, syn: QuerySyntax)
    ensures |WordUnits(ws, count, boost, syn)| == |NonEmptyWords(ws)|
    ensures forall i :: 0 <= i < |WordUnits(ws, count, boost, syn)| ==>
      WordUnits(ws, count, boost, syn)[i] ==
        QueryTerm(NonEmptyWords(ws)[i], syn) + BoostSuffix(NonEmptyWords(ws)[i], count, boost)
    decreases |ws|
  {
    if ws != [] {
      WordUnitsRender(ws[..|ws| - 1], count, boost, syn);
    }
  }

  lemma PhraseUnitsRender(key: string, counts: map<string, nat>, boost: seq<string>, syn: QuerySyntax)
    ensures var pu := PhraseUnits(Words(key), CountOf(counts, key), boost, syn);
      |pu| == |PhraseSlots(key, counts)| &&
      forall i :: 0 <= i < |pu| ==> pu[i] == Render(PhraseSlots(key, counts)[i], boost, syn)
  {
    var ws, count := Words(key), CountOf(counts, key);
    var u := WordUnits(ws, count, boost, syn);
    var ps := PhraseSlots(key, counts);
    var pu := PhraseUnits(ws, count, boost, syn);
    WordUnitsRender(ws, count, boost, syn);
    if u != [] {
      forall i | 0 <= i < |pu|
        ensures pu[i] == Render(ps[i], boost, syn)
      {
        if i < |u| - 1 {
          assert pu[i] == u[i];
          assert Render(ps[i], boost, syn) == u[i] + "";
        }
      }
    }
  }

  /**
   * Rendering: the units of a field clause are the rendered slots, one per
   * non-empty word of each phrase, in the map's iteration order.
   */
  lemma {:induction false} ClauseUnitsRender(keys: seq<string>, counts: map<string, nat>, boost: seq<string>,
                                             syn: QuerySyntax)
    ensures |ClauseUnits(keys, counts, boost, syn)| == |ClauseSlots(keys, counts)|
    ensures forall i :: 0 <= i < |ClauseUnits(keys, counts, boost, syn)| ==>
      ClauseUnits(keys, counts, boost, syn)[i] == Render(ClauseSlots(keys, counts)[i], boost, syn)
    decreases |keys|
  {
    if keys != [] {
      var init, k := keys[..|keys| - 1], keys[|keys| - 1];
      ClauseUnitsRender(init, counts, boost, syn);
      PhraseUnitsRender(k, counts, boost, syn);
      assert ClauseUnits(keys, counts, boost, syn) ==
        ClauseUnits(init, counts, boost, syn) + PhraseUnits(Words(k), CountOf(counts, k), boost, syn);
      assert ClauseSlots(keys, counts) == ClauseSlots(init, counts) + PhraseSlots(k, counts);
      RenderedConcat(ClauseUnits(init, counts, boost, syn), PhraseUnits(Words(k), CountOf(counts, k), boost, syn),
                     ClauseSlots(init, counts), PhraseSlots(k, counts), boost, syn);
    }
  }

  /** Two runs of rendered slots, concatenated, are the concatenated slots rendered. */
  lemma RenderedConcat(u1: seq<string>, u2: seq<string>, s1: seq<Slot>, s2: seq<Slot>, boost: seq<string>,
                       syn: QuerySyntax)
    requires |u1| == |s1| && |u2| == |s2|
    requires forall i :: 0 <= i < |u1| ==> u1[i] == Render(s1[i], boost, syn)
    requires forall i :: 0 <= i < |u2| ==> u2[i] == Render(s2[i], boost, syn)
    ensures forall i :: 0 <= i < |u1 + u2| ==> (u1 + u2)[i] == Render((s1 + s2)[i], boost, syn)
  {
    forall i | 0 <= i < |u1 + u2|
      ensures (u1 + u2)[i] == Render((s1 + s2)[i], boost, syn)
    {
      if i >= |u1| {
        assert (u1 + u2)[i] == u2[i - |u1|];
        assert (s1 + s2)[i] == s2[i - |s1|];
      }
    }
  }

  /**
   * The slots list exactly the non-empty words of the phrases, in order; each
   * carries the count of the phrase it comes from.
   */
  lemma {:induction false} ClauseSlotsAreWords(keys: seq<string>, counts: map<string, nat>)
    ensures |ClauseSlots(keys, counts)| == |ClauseWords(keys)|
    ensures forall i :: 0 <= i < |ClauseWords(keys)| ==>
      var s := ClauseSlots(keys, counts)[i];
      && s.word == ClauseWords(keys)[i]
      && s.key in keys && s.word in Words(s.key) && s.word != ""
      && s.count == CountOf(counts, s.key)
    decreases |keys|
  {
    if keys != [] {
      var init, k := keys[..|keys| - 1], keys[|keys| - 1];
      ClauseSlotsAreWords(init, counts);
      var slots, ps := ClauseSlots(init, counts), PhraseSlots(k, counts);
      var words, ne := ClauseWords(init), NonEmptyWords(Words(k));
      forall i | 0 <= i < |words + ne|
        ensures var s: Slot := (slots + ps)[i];
          && s.word == (words + ne)[i]
          && s.key in keys && s.word in Words(s.key) && s.word != ""
          && s.count == CountOf(counts, s.key)
      {
        if i < |words| {
          assert (slots + ps)[i] == slots[i];
          assert slots[i].key in init;
        } else {
          assert (slots + ps)[i] == ps[i - |slots|];
          assert ne[i - |words|] in ne;
        }
      }
    }
  }

  /**
   * The weight of each written word, for any counts and weightings: a word
   * that matches a weighting carries `^(count+1)`; an unmatched word carries
   * `^count` exactly when its phrase's count exceeds 1; the last word of a
   * phrase is followed by that phrase's boostedTerms. With verbatim syntax
   * every unit begins with its word.
   */
  lemma ClauseWeights(keys: seq<string>, counts: map<string, nat>, boost: seq<string>, syn: QuerySyntax)
    ensures |ClauseUnits(keys, counts, boost, syn)| == |ClauseSlots(keys, counts)| == |ClauseWords(keys)|
    ensures forall i :: 0 <= i < |ClauseUnits(keys, counts, boost, syn)| ==>
      && ClauseSlots(keys, counts)[i].word == ClauseWords(keys)[i]
      && WeightedAsWritten(ClauseSlots(keys, counts)[i], ClauseUnits(keys, counts, boost, syn)[i], boost, syn)
  {
    ClauseUnitsRender(keys, counts, boost, syn);
    ClauseSlotsAreWords(keys, counts);
    var units, slots := ClauseUnits(keys, counts, boost, syn), ClauseSlots(keys, counts);
    forall i | 0 <= i < |units|
      ensures WeightedAsWritten(slots[i], units[i], boost, syn)
    {
      RenderWeight(slots[i], boost, syn);
    }
  }

  /** `sub` inside either part is inside the concatenation. */
  lemma ContainsInConcat(a: string, b: string, sub: string)
    ensures Contains(a, sub) ==> Contains(a + b, sub)
    ensures Contains(b, sub) ==> Contains(a + b, sub)
  {
    if Contains(a, sub) {
      var i :| 0 <= i <= |a| && StartsWith(a[i..], sub);
      assert (a + b)[i..][..|sub|] == a[i..][..|sub|];
    }
    if Contains(b, sub) {
      var i :| 0 <= i <= |b| && StartsWith(b[i..], sub);
      assert (a + b)[|a| + i..] == b[i..];
    }
  }

  /** A phrase's boostedTerms hold ` weighting^(count+1)` for each written word whose matching weighting differs from it. */
  lemma {:induction false} ExtrasListDifferingWeightings(ws: seq<string>, count: nat, boost: seq<string>)
    ensures forall w :: w in ws && w != "" && FindBoostTerm(w, boost).Some? && FindBoostTerm(w, boost).value != w ==>
      Contains(WordExtras(ws, count, boost), " " + FindBoostTerm(w, boost).value + "^" + NatToString(count + 1))
    decreases |ws|
  {
    if ws != [] {
      var init, last := ws[..|ws| - 1], ws[|ws| - 1];
      assert ws == init + [last];
      ExtrasListDifferingWeightings(init, count, boost);
      var before := WordExtras(init, count, boost);
      var extra := if last == "" then "" else ExtraTerm(last, count, boost);
      assert WordExtras(ws, count, boost) == before + extra;
      forall w | w in ws && w != "" && FindBoostTerm(w, boost).Some? && FindBoostTerm(w, boost).value != w
        ensures Contains(before + extra, " " + FindBoostTerm(w, boost).value + "^" + NatToString(count + 1))
      {
        ExtraTermContained(w, last, before, extra, count, boost);
      }
    }
  }

  lemma ExtraTermContained(w: string, last: string, before: string, extra: string, count: nat, boost: seq<string>)
    requires w != "" && FindBoostTerm(w, boost).Some? && FindBoostTerm(w, boost).value != w
    requires extra == if last == "" then "" else ExtraTerm(last, count, boost)
    requires w != last ==> Contains(before, " " + FindBoostTerm(w, boost).value + "^" + NatToString(count + 1))
    ensures Contains(before + extra, " " + FindBoostTerm(w, boost).value + "^" + NatToString(count + 1))
  {
    var sub := " " + FindBoostTerm(w, boost).value + "^" + NatToString(count + 1);
    ContainsInConcat(before, extra, sub);
    if w == last {
      assert extra == sub;
      assert StartsWith(extra[0..], sub);
    }
  }

  /** Whether a written word's matching weighting differs from it, so that it adds a boosted term. */
  predicate AddsBoostedTerm(w: string, boost: seq<string>) {
    w != "" && FindBoostTerm(w, boost).Some? && FindBoostTerm(w, boost).value != w
  }

  /** A phrase's boostedTerms are empty exactly when no written word has a differing weighting. */
  lemma {:induction false} ExtrasEmptyWhenNoneDiffer(ws: seq<string>, count: nat, boost: seq<string>)
    ensures WordExtras(ws, count, boost) == "" <==> forall w :: w in ws ==> !AddsBoostedTerm(w, boost)
    decreases |ws|
  {
    if ws != [] {
      var init, last := ws[..|ws| - 1], ws[|ws| - 1];
      assert ws == init + [last];
      ExtrasEmptyWhenNoneDiffer(init, count, boost);
      var before := WordExtras(init, count, boost);
      var extra := if last == "" then "" else ExtraTerm(last, count, boost);
      assert WordExtras(ws, count, boost) == before + extra;
      assert extra != "" <==> AddsBoostedTerm(last, boost);
      if before + extra == "" {
        forall w | w in ws
          ensures !AddsBoostedTerm(w, boost)
        {
          if w != last {
            assert w in init;
          }
        }
      } else if before != "" {
        var w :| w in init && AddsBoostedTerm(w, boost);
        assert w in ws;
      }
    }
  }
}
