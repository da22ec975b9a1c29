/**
 * The java.lang.String operations the analyzer relies on: ASCII character
 * classes, lower-casing, substring search, String.split with a one-character
 * pattern, joining and decimal rendering of an int.
 */
module Text {

  predicate IsUpper(c: char) { 'A' <= c <= 'Z' }
  predicate IsLower(c: char) { 'a' <= c <= 'z' }
  predicate IsDigit(c: char) { '0' <= c <= '9' }
  /** The class [A-Za-z]. */
  predicate IsAlpha(c: char) { IsUpper(c) || IsLower(c) }

  /** The characters a `.` in a java.util.regex pattern does not match. */
  predicate IsLineTerminator(c: char) {
    c == '\n' || c == '\r' || c == '\U{85}' || c == '\U{2028}' || c == '\U{2029}'
  }

  /** `s` matches `.*` (no DOTALL flag). */
  predicate SingleLine(s: string) {
    forall i :: 0 <= i < |s| ==> !IsLineTerminator(s[i])
  }

  function LowerChar(c: char): (r: char)
    ensures IsUpper(c) ==> IsLower(r)
    ensures !IsUpper(c) ==> r == c
  {
    if IsUpper(c) then (c as int + 32) as char else c
  }

  /** String.toLowerCase, restricted to the ASCII letters. */
  function ToLower(s: string): (r: string)
    ensures |r| == |s|
    ensures forall i :: 0 <= i < |s| ==> r[i] == LowerChar(s[i])
  {
    seq(|s|, i requires 0 <= i < |s| => LowerChar(s[i]))
  }

  predicate StartsWith(s: string, prefix: string) {
    |prefix| <= |s| && s[..|prefix|] == prefix
  }

  /** String.contains. */
  predicate Contains(s: string, sub: string) {
    exists i :: 0 <= i <= |s| && StartsWith(s[i..], sub)
  }

  /**
   * The pieces between separator characters, empty pieces included: what
   * String.split returns before it drops trailing empty strings.
   */
  function Pieces(s: string, isSep: char -> bool): (r: seq<string>)
    ensures |r| >= 1
    ensures forall k, i :: 0 <= k < |r| && 0 <= i < |r[k]| ==> !isSep(r[k][i])
    decreases |s|
  {
    if s == [] then [""]
    else
      var rest := Pieces(s[1..], isSep);
      if isSep(s[0]) then [""] + rest
      else [[s[0]] + rest[0]] + rest[1..]
  }

  function DropTrailingEmpty(ps: seq<string>): (r: seq<string>)
    ensures |r| <= |ps| && r == ps[..|r|]
    ensures r != [] ==> r[|r| - 1] != ""
    ensures forall k :: |r| <= k < |ps| ==> ps[k] == ""
  {
    if ps != [] && ps[|ps| - 1] == "" then DropTrailingEmpty(ps[..|ps| - 1]) else ps
  }

  /**
   * String.split(regex) with limit 0 where the regex matches exactly one
   * character from a class: the empty string splits into one empty piece,
   * otherwise trailing empty pieces are dropped.
   */
  function JavaSplit(s: string, isSep: char -> bool): seq<string> {
    if s == [] then [""] else DropTrailingEmpty(Pieces(s, isSep))
  }

  /** The non-empty strings of `ps`, in order. */
  function NonEmpty(ps: seq<string>): (r: seq<string>)
    ensures |r| <= |ps|
    ensures forall k :: 0 <= k < |r| ==> r[k] != "" && r[k] in ps
    ensures forall p :: p in ps && p != "" ==> p in r
  {
    if ps == [] then []
    else if ps[|ps| - 1] == "" then NonEmpty(ps[..|ps| - 1])
    else NonEmpty(ps[..|ps| - 1]) + [ps[|ps| - 1]]
  }

  /** StringUtils.join. */
  function Join(xs: seq<string>, sep: string): string {
    if |xs| == 0 then ""
    else if |xs| == 1 then xs[0]
    else xs[0] + sep + Join(xs[1..], sep)
  }

  lemma {:induction false} JoinSnoc(xs: seq<string>, x: string, sep: string)
    ensures Join(xs + [x], sep) == if xs == [] then x else Join(xs, sep) + sep + x
  {
    if |xs| >= 2 {
      assert (xs + [x])[1..] == xs[1..] + [x];
      JoinSnoc(xs[1..], x, sep);
    } else if |xs| == 1 {
      assert (xs + [x])[1..] == [x];
    }
  }

  /** Appending to the last joined element appends to the joined string. */
  lemma {:induction false} JoinExtendLast(xs: seq<string>, x: string, extra: string, sep: string)
    ensures Join(xs + [x + extra], sep) == Join(xs + [x], sep) + extra
  {
    JoinSnoc(xs, x + extra, sep);
    JoinSnoc(xs, x, sep);
  }

  /** A text without separators is a single piece. */
  lemma {:induction false} PiecesOfWord(w: string, isSep: char -> bool)
    requires forall i :: 0 <= i < |w| ==> !isSep(w[i])
    ensures Pieces(w, isSep) == [w]
    decreases |w|
  {
    if w != [] {
      PiecesOfWord(w[1..], isSep);
      assert [w[0]] + w[1..] == w;
    }
  }

  /** A separator after a word ends that word's piece. */
  lemma {:induction false} PiecesOfWordThenSep(w: string, c: char, rest: string, isSep: char -> bool)
    requires forall i :: 0 <= i < |w| ==> !isSep(w[i])
    requires isSep(c)
    ensures Pieces(w + [c] + rest, isSep) == [w] + Pieces(rest, isSep)
    decreases |w|
  {
    var s := w + [c] + rest;
    if w == [] {
      assert s == [c] + rest;
      assert s[1..] == rest;
    } else {
      PiecesOfWordThenSep(w[1..], c, rest, isSep);
      assert s[1..] == w[1..] + [c] + rest;
      assert [w[0]] + w[1..] == w;
    }
  }

  /** A substring's characters all occur in the text. */
  lemma ContainsHasChars(s: string, sub: string, c: char)
    requires Contains(s, sub) && c in sub
    ensures c in s
  {
    var i :| 0 <= i <= |s| && StartsWith(s[i..], sub);
    var k :| 0 <= k < |sub| && sub[k] == c;
    assert s[i + k] == c;
  }

  /** Splitting on one character and joining with it gives the text back. */
  lemma {:induction false} PiecesJoinRoundTrip(s: string, isSep: char -> bool, d: char)
    requires forall c :: isSep(c) <==> c == d
    ensures Join(Pieces(s, isSep), [d]) == s
    decreases |s|
  {
    if s != [] {
      var rest := Pieces(s[1..], isSep);
      PiecesJoinRoundTrip(s[1..], isSep, d);
      if s[0] == d {
        assert ([""] + rest)[1..] == rest;
      } else if |rest| >= 2 {
        var r := [[s[0]] + rest[0]] + rest[1..];
        assert r[1..] == rest[1..];
        assert Join(rest, [d]) == rest[0] + [d] + Join(rest[1..], [d]);
        assert s == [s[0]] + s[1..];
      } else {
        assert s == [s[0]] + s[1..];
      }
    }
  }

  function DigitChar(d: nat): (c: char)
    requires d < 10
    ensures IsDigit(c)
  {
    "0123456789"[d]
  }

  /** The decimal form StringBuilder.append(int) writes for a non-negative int. */
  function NatToString(n: nat): (r: string)
    ensures |r| >= 1
    ensures forall i :: 0 <= i < |r| ==> IsDigit(r[i])
  {
    if n < 10 then [DigitChar(n)] else NatToString(n / 10) + [DigitChar(n % 10)]
  }
}
