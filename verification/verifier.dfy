/**
 * The check that an index hit is backed by the dependency's own evidence
 * (CPEAnalyzer.verifyEntry and collectionContainsString,
 * CPEAnalyzer.java:600-676).
 */
module EntryVerifier {
  import opened Wrappers
  import opened Text
  import opened Identifiers
  import opened Dependencies

  /** The class [\s_-]: Java's \s is space, tab, newline, vertical tab, form feed, carriage return. */
  predicate IsTokenSeparator(c: char) {
    c == ' ' || c == '\t' || c == '\n' || c == '\U{B}' || c == '\U{C}' || c == '\r' || c == '_' || c == '-'
  }

  /** The token list built so far and the short word (tempWord) waiting for the next one. */
  datatype MergeState = MergeState(list: seq<string>, pending: Option<string>)

  /**
   * One word of the split text: a waiting short word is joined with it; a
   * word of at most two characters waits; a longer stop-word is dropped;
   * any other word is a token.
   */
  function MergeStep(st: MergeState, word: string, stopWords: set<string>): MergeState {
    if st.pending.Some? then MergeState(st.list + [st.pending.value + word], None)
    else if |word| <= 2 then MergeState(st.list, Some(word))
    else if word in stopWords then st
    else MergeState(st.list + [word], None)
  }

  function MergeWords(words: seq<string>, stopWords: set<string>): MergeState
    decreases |words|
  {
    if words == [] then MergeState([], None)
    else MergeStep(MergeWords(words[..|words| - 1], stopWords), words[|words| - 1], stopWords)
  }

  /**
   * A short word still waiting at the end is appended to a copy of the last
   * token, as an extra token, or stands alone when there is none.
   */
  function FinishMerge(st: MergeState): seq<string> {
    match st.pending
    case None => st.list
    case Some(t) => if st.list != [] then st.list + [st.list[|st.list| - 1] + t] else [t]
  }

  /** The tokens collectionContainsString looks for. */
  function Tokens(text: string, stopWords: set<string>): seq<string> {
    FinishMerge(MergeWords(JavaSplit(text, IsTokenSeparator), stopWords))
  }

  /** Evidence value `e` satisfies token `word`. */
  predicate Satisfies(e: string, word: string) {
    Contains(ToLower(e), ToLower(word)) && !(word == "http" && Contains(e, "http:"))
  }

  /** Some evidence value satisfies `word`. */
  predicate TokenFound(word: string, evidence: seq<string>) {
    exists e :: e in evidence && Satisfies(e, word)
  }

  /**
   * collectionContainsString: false for null text and for text with no
   * tokens; otherwise every token is found in the evidence.
   */
  predicate CollectionContains(evidence: seq<string>, text: Option<string>, stopWords: set<string>) {
    && text.Some?
    && Tokens(text.value, stopWords) != []
    && forall t :: t in Tokens(text.value, stopWords) ==> TokenFound(t, evidence)
  }

  lemma MergePrefix(words: seq<string>, n: nat, stopWords: set<string>)
    requires n < |words|
    ensures MergeWords(words[..n + 1], stopWords) == MergeStep(MergeWords(words[..n], stopWords), words[n], stopWords)
  {
    assert words[..n + 1][..n] == words[..n];
  }

  /** Whether some evidence value satisfies `word`, by the loop over the evidence. */
  method FindToken(word: string, evidence: seq<string>) returns (found: bool)
    ensures found <==> TokenFound(word, evidence)
  {
    found := false;
    var m := 0;
    while m < |evidence|
      invariant 0 <= m <= |evidence|
      invariant forall q :: 0 <= q < m ==> !Satisfies(evidence[q], word)
    {
      if Contains(ToLower(evidence[m]), ToLower(word)) {
        if word == "http" && Contains(evidence[m], "http:") {
          m := m + 1;
          continue;
        }
        assert Satisfies(evidence[m], word);
        found := true;
        return;
      }
      m := m + 1;
    }
    forall e | e in evidence
      ensures !Satisfies(e, word)
    {
      var q :| 0 <= q < |evidence| && evidence[q] == e;
    }
  }

  /** collectionContainsString(evidence, text). */
  method CollectionContainsString(evidence: seq<string>, text: Option<string>, stopWords: set<string>)
    returns (isValid: bool)
    ensures isValid <==> CollectionContains(evidence, text, stopWords)
  {
    if text.None? {
      return false;
    }
    var words := JavaSplit(text.value, IsTokenSeparator);
    var list: seq<string> := [];
    var tempWord: Option<string> := None;
    for n := 0 to |words|
      invariant MergeState(list, tempWord) == MergeWords(words[..n], stopWords)
    {
      MergePrefix(words, n, stopWords);
      var word := words[n];
      if tempWord.Some? {
        list := list + [tempWord.value + word];
        tempWord := None;
      } else if |word| <= 2 {
        tempWord := Some(word);
      } else {
        if word in stopWords {
          continue;
        }
        list := list + [word];
      }
    }
    assert words[..|words|] == words;
    if tempWord.Some? {
      if list != [] {
        var tmp := list[|list| - 1] + tempWord.value;
        list := list + [tmp];
      } else {
        list := list + [tempWord.value];
      }
    }
    assert list == Tokens(text.value, stopWords);
    if list == [] {
      return false;
    }
    isValid := true;
    for k := 0 to |list|
      invariant isValid <==> forall t :: 0 <= t < k ==> TokenFound(list[t], evidence)
    {
      var found := FindToken(list[k], evidence);
      isValid := isValid && found;
    }
  }

  /** verifyEntry: the entry's product and vendor are both backed by evidence of their kind. */
  method VerifyEntry(entry: IndexEntry, dependency: Dependency, stopWords: set<string>) returns (isValid: bool)
    ensures isValid <==>
      && CollectionContains(ValuesOf(dependency.evidence, ProductEvidence), entry.product, stopWords)
      && CollectionContains(ValuesOf(dependency.evidence, VendorEvidence), entry.vendor, stopWords)
  {
    isValid := false;
    var productFound := CollectionContainsString(ValuesOf(dependency.evidence, ProductEvidence), entry.product, stopWords);
    if productFound {
      var vendorFound := CollectionContainsString(ValuesOf(dependency.evidence, VendorEvidence), entry.vendor, stopWords);
      if vendorFound {
        isValid := true;
      }
    }
  }

  /** The words that are not stop-words, in order. */
  function WithoutStopWords(words: seq<string>, stopWords: set<string>): (r: seq<string>)
    ensures forall w :: w in r <==> w in words && w !in stopWords
    decreases |words|
  {
    if words == [] then []
    else
      var w := words[|words| - 1];
      WithoutStopWords(words[..|words| - 1], stopWords) + (if w in stopWords then [] else [w])
  }

  /** With no word of two characters or fewer, nothing is merged. */
  lemma {:induction false} LongWordsAreTokens(words: seq<string>, stopWords: set<string>)
    requires forall k :: 0 <= k < |words| ==> |words[k]| > 2
    ensures MergeWords(words, stopWords) == MergeState(WithoutStopWords(words, stopWords), None)
    decreases |words|
  {
    if words != [] {
      LongWordsAreTokens(words[..|words| - 1], stopWords);
    }
  }

  /** The tokens of a text whose pieces are known. */
  lemma TokensOfWords(text: string, words: seq<string>, stopWords: set<string>)
    requires Pieces(text, IsTokenSeparator) == words
    requires text != [] && words != [] && words[|words| - 1] != ""
    ensures Tokens(text, stopWords) == FinishMerge(MergeWords(words, stopWords))
  {
  }

  /** A word with no separator character in it. */
  predicate IsWord(w: string) {
    forall i :: 0 <= i < |w| ==> !IsTokenSeparator(w[i])
  }

  /** The pieces of `w1 c w2` for one separator `c`. */
  lemma SplitTwo(w1: string, c: char, w2: string)
    requires IsWord(w1) && IsWord(w2) && IsTokenSeparator(c)
    ensures Pieces(w1 + [c] + w2, IsTokenSeparator) == [w1, w2]
  {
    PiecesOfWordThenSep(w1, c, w2, IsTokenSeparator);
    PiecesOfWord(w2, IsTokenSeparator);
  }

  /**
   * A short word is joined with the word after it, even a stop-word
   * ("m core sample" gives "mcore" and "sample").
   */
  lemma ShortWordJoinsNext(short: string, c: char, next: string, d: char, last: string, stopWords: set<string>)
    requires IsWord(short) && IsWord(next) && IsWord(last) && IsTokenSeparator(c) && IsTokenSeparator(d)
    requires |short| <= 2 && |last| > 2 && last !in stopWords
    ensures Tokens(short + [c] + next + [d] + last, stopWords) == [short + next, last]
  {
    var text := short + [c] + next + [d] + last;
    var words := [short, next, last];
    assert Pieces(text, IsTokenSeparator) == words by {
      SplitTwo(next, d, last);
      assert text == short + [c] + (next + [d] + last);
      PiecesOfWordThenSep(short, c, next + [d] + last, IsTokenSeparator);
    }
    assert MergeWords(words, stopWords) == MergeState([short + next, last], None) by {
      assert words[..2] == [short, next] && words[..2][..1] == [short];
      assert MergeWords([short], stopWords) == MergeState([], Some(short));
      assert MergeWords([short, next], stopWords) == MergeState([short + next], None);
    }
    TokensOfWords(text, words, stopWords);
  }

  /** A stop-word longer than two characters that is not joined is dropped. */
  lemma LongStopWordDropped(stop: string, c: char, last: string, stopWords: set<string>)
    requires IsWord(stop) && IsWord(last) && IsTokenSeparator(c)
    requires |stop| > 2 && stop in stopWords && |last| > 2 && last !in stopWords
    ensures Tokens(stop + [c] + last, stopWords) == [last]
  {
    SplitTwo(stop, c, last);
    TokensOfWords(stop + [c] + last, [stop, last], stopWords);
    assert [stop, last][..1] == [stop];
    assert MergeWords([stop], stopWords) == MergeState([], None);
  }

  /**
   * A trailing short word is appended to a copy of the last token, which
   * stays ("jquery-ui" gives "jquery" and "jqueryui").
   */
  lemma TrailingShortWordIsExtraToken(word: string, c: char, short: string, stopWords: set<string>)
    requires IsWord(word) && IsWord(short) && IsTokenSeparator(c)
    requires |word| > 2 && word !in stopWords && 0 < |short| <= 2
    ensures Tokens(word + [c] + short, stopWords) == [word, word + short]
  {
    SplitTwo(word, c, short);
    TokensOfWords(word + [c] + short, [word, short], stopWords);
    assert [word, short][..1] == [word];
    assert MergeWords([word], stopWords) == MergeState([word], None);
  }

  /** The token `http` is not satisfied by a URL, but is by other text containing it. */
  lemma HttpNeedsMoreThanUrl()
    ensures !TokenFound("http", ["http://example.org"])
    ensures TokenFound("http", ["HTTP Client"])
  {
    var url := "http://example.org";
    assert StartsWith(url[0..], "http:");
    var word := "http";
    assert ToLower(word) == word by {
      forall i | 0 <= i < |word|
        ensures ToLower(word)[i] == word[i]
      {
        assert !IsUpper(word[i]);
      }
    }
    var client := "HTTP Client";
    var lowered := ToLower(client);
    assert lowered[..4] == word by {
      forall i | 0 <= i < 4
        ensures lowered[i] == word[i]
      {
        assert lowered[i] == LowerChar(client[i]);
      }
    }
    assert StartsWith(lowered[0..], ToLower(word));
    assert ':' !in client;
    if Contains(client, "http:") {
      ContainsHasChars(client, "http:", ':');
    }
    assert Satisfies(client, word);
  }

  /** More evidence never turns a verified entry down. */
  lemma MoreEvidenceKeepsMatch(evidence: seq<string>, more: seq<string>, text: Option<string>, stopWords: set<string>)
    requires CollectionContains(evidence, text, stopWords)
    requires forall e :: e in evidence ==> e in more
    ensures CollectionContains(more, text, stopWords)
  {
  }
}
