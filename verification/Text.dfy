/** The string operations of the host language that the checkers rely on. */
module Text {

  /** The characters matched by \s and removed by trim. */
  predicate IsSpace(c: char) {
    || '\t' <= c <= '\r'
    || c == ' ' || c == '\U{00A0}' || c == '\U{1680}'
    || '\U{2000}' <= c <= '\U{200A}'
    || c == '\U{2028}' || c == '\U{2029}' || c == '\U{202F}' || c == '\U{205F}' || c == '\U{3000}' || c == '\U{FEFF}'
  }

  /** startsWith at a position; false when fewer characters are left. */
  predicate MatchesAt(s: string, pat: string, i: nat) {
    i + |pat| <= |s| && s[i..i + |pat|] == pat
  }

  /** The first occurrence of pat in s at or after from, or -1. */
  function IndexOf(s: string, pat: string, from: nat): (r: int)
    ensures r == -1 || (from <= r && MatchesAt(s, pat, r))
    ensures forall k: nat :: from <= k && MatchesAt(s, pat, k) ==> 0 <= r <= k
    decreases |s| - from
  {
    if from + |pat| > |s| then -1
    else if MatchesAt(s, pat, from) then from
    else IndexOf(s, pat, from + 1)
  }

  function Split(s: string, sep: string): (r: seq<string>)
    requires sep != ""
    ensures |r| > 0
  {
    var k := IndexOf(s, sep, 0);
    if k < 0 then [s] else [s[..k]] + Split(s[k + |sep|..], sep)
  }

  function Join(parts: seq<string>, sep: string): string {
    if parts == [] then ""
    else if |parts| == 1 then parts[0]
    else parts[0] + sep + Join(parts[1..], sep)
  }

  predicate IsBlank(s: string) {
    forall i :: 0 <= i < |s| ==> IsSpace(s[i])
  }

  function TrimStart(s: string): (r: string)
    ensures |r| <= |s|
  {
    if s != "" && IsSpace(s[0]) then TrimStart(s[1..]) else s
  }

  function TrimEnd(s: string): string {
    if s != "" && IsSpace(s[|s| - 1]) then TrimEnd(s[..|s| - 1]) else s
  }

  function Trim(s: string): string { TrimEnd(TrimStart(s)) }

  /** Splitting and joining with the same separator gives the text back. */
  lemma {:induction false} SplitJoin(s: string, sep: string)
    requires sep != ""
    ensures Join(Split(s, sep), sep) == s
  {
    var k := IndexOf(s, sep, 0);
    if k >= 0 {
      SplitJoin(s[k + |sep|..], sep);
      assert Split(s, sep)[1..] == Split(s[k + |sep|..], sep);
      assert s == s[..k] + sep + s[k + |sep|..];
    }
  }

  /** Text without the separator in front of a separator is the first piece. */
  lemma SplitAt(piece: string, sep: string, rest: string)
    requires |sep| == 1 && sep[0] !in piece
    ensures Split(piece + sep + rest, sep) == [piece] + Split(rest, sep)
  {
    var s := piece + sep + rest;
    assert MatchesAt(s, sep, |piece|);
    assert s[..|piece|] == piece && s[|piece| + 1..] == rest;
  }

  lemma SplitWhole(piece: string, sep: string)
    requires |sep| == 1 && sep[0] !in piece
    ensures Split(piece, sep) == [piece]
  {
  }
}
