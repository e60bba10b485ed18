/** Statements, their normalised form and the texts hidden in their literals. */
module SqlStatements {
  import opened Sequences
  import opened Text
  import opened SqlLexer

  /** Tokens [a, z): f is the first one that is not blank or comment. */
  datatype Stmt = Stmt(a: nat, f: nat, z: nat)

  const BREAKPOINT := "--> statement-breakpoint"

  predicate IsTrivia(k: Kind) { k == Ws || k == Line || k == Block }

  predicate IsBreakpoint(src: string, t: Tok) { t.k == Line && MatchesAt(src, BREAKPOINT, t.s) }

  // ---------- splitting ----------

  /** The statements from token j on, inside one that began at a and whose first word is f (-1: none yet). */
  function SplitFrom(src: string, toks: seq<Tok>, j: nat, a: nat, f: int): seq<Stmt>
    requires j <= |toks|
    decreases |toks| - j
  {
    if j == |toks| then (if f >= 0 then [Stmt(a, f, j)] else [])
    else if toks[j].k == Semi || (IsBreakpoint(src, toks[j]) && f >= 0) then
      (if f >= 0 then [Stmt(a, f, j)] else []) + SplitFrom(src, toks, j + 1, j + 1, -1)
    else
      SplitFrom(src, toks, j + 1, a, if f < 0 && !IsTrivia(toks[j].k) then j else f)
  }

  function Statements(src: string, toks: seq<Tok>): seq<Stmt> { SplitFrom(src, toks, 0, 0, -1) }

  method SplitTokens(src: string, toks: seq<Tok>) returns (out: seq<Stmt>)
    ensures out == Statements(src, toks)
  {
    out := [];
    var a: nat := 0;
    var f: int := -1;
    for j := 0 to |toks|
      invariant out + SplitFrom(src, toks, j, a, f) == Statements(src, toks)
    {
      var t := toks[j];
      var breakpoint := IsBreakpoint(src, t);
      if t.k == Semi || (breakpoint && f >= 0) {
        if f >= 0 {
          Snoc(out, Stmt(a, f, j), SplitFrom(src, toks, j + 1, j + 1, -1));
          out := out + [Stmt(a, f, j)];
        }
        a := j + 1;
        f := -1;
      } else if f < 0 && !IsTrivia(t.k) {
        f := j;
      }
    }
    if f >= 0 {
      out := out + [Stmt(a, f, |toks|)];
    }
  }

  predicate IsSubstance(t: Tok) { !IsTrivia(t.k) && t.k != Semi }

  ghost predicate Inside(st: Stmt, k: nat) { st.f <= k < st.z }

  /** It starts with a word, its lead is blanks and comments, no semicolon is inside. */
  ghost predicate WellFormed(toks: seq<Tok>, st: Stmt) {
    && st.a <= st.f < st.z <= |toks|
    && IsSubstance(toks[st.f])
    && (forall k: nat :: st.a <= k < st.f ==> IsTrivia(toks[k].k))
    && (forall k: nat :: st.f <= k < st.z ==> toks[k].k != Semi)
  }

  /** Well-formed statements that follow each other, the first not before from. */
  ghost predicate InOrder(toks: seq<Tok>, stmts: seq<Stmt>, from: nat) {
    && (forall i :: 0 <= i < |stmts| ==> from <= stmts[i].a && WellFormed(toks, stmts[i]))
    && (forall i, j :: 0 <= i < j < |stmts| ==> stmts[i].z < stmts[j].a)
  }

  lemma InOrderCons(toks: seq<Tok>, st: Stmt, rest: seq<Stmt>)
    requires WellFormed(toks, st) && InOrder(toks, rest, st.z + 1)
    ensures InOrder(toks, [st] + rest, st.a)
  {
  }

  ghost predicate Pending(toks: seq<Tok>, j: nat, a: nat, f: int) {
    && a <= j <= |toks| && f < j
    && (f >= 0 ==> a <= f && IsSubstance(toks[f]) && forall k :: f <= k < j ==> toks[k].k != Semi)
    && (forall k :: a <= k < (if f >= 0 then f else j) ==> IsTrivia(toks[k].k))
  }

  lemma PendingNext(toks: seq<Tok>, j: nat, a: nat, f: int)
    requires Pending(toks, j, a, f) && j < |toks| && toks[j].k != Semi
    ensures Pending(toks, j + 1, a, if f < 0 && !IsTrivia(toks[j].k) then j else f)
  {
  }

  lemma PendingDone(toks: seq<Tok>, j: nat, a: nat, f: int)
    requires Pending(toks, j, a, f) && f >= 0
    ensures WellFormed(toks, Stmt(a, f, j))
  {
  }

  lemma {:induction false} SplitInOrder(src: string, toks: seq<Tok>, j: nat, a: nat, f: int)
    requires Pending(toks, j, a, f)
    ensures InOrder(toks, SplitFrom(src, toks, j, a, f), a)
    decreases |toks| - j
  {
    assert a <= j <= |toks|;
    if f >= 0 {
      PendingDone(toks, j, a, f);
    }
    if j < |toks| {
      if toks[j].k == Semi || (IsBreakpoint(src, toks[j]) && f >= 0) {
        SplitInOrder(src, toks, j + 1, j + 1, -1);
        if f >= 0 {
          hide Pending, WellFormed, InOrder, IsBreakpoint;
          InOrderCons(toks, Stmt(a, f, j), SplitFrom(src, toks, j + 1, j + 1, -1));
        }
      } else {
        PendingNext(toks, j, a, f);
        hide Pending, WellFormed, InOrder, IsBreakpoint;
        SplitInOrder(src, toks, j + 1, a, if f < 0 && !IsTrivia(toks[j].k) then j else f);
      }
    }
  }

  lemma {:induction false} SplitCovers(src: string, toks: seq<Tok>, j: nat, a: nat, f: int, k: nat)
    requires Pending(toks, j, a, f) && k < |toks| && IsSubstance(toks[k])
    requires k >= j || 0 <= f <= k
    ensures exists i :: 0 <= i < |SplitFrom(src, toks, j, a, f)| && Inside(SplitFrom(src, toks, j, a, f)[i], k)
    decreases |toks| - j
  {
    var out := SplitFrom(src, toks, j, a, f);
    if j == |toks| {
      assert Inside(out[0], k);
    } else if toks[j].k == Semi || (IsBreakpoint(src, toks[j]) && f >= 0) {
      if k < j {
        assert Inside(out[0], k);
      } else {
        var rest := SplitFrom(src, toks, j + 1, j + 1, -1);
        SplitCovers(src, toks, j + 1, j + 1, -1, k);
        var i :| 0 <= i < |rest| && Inside(rest[i], k);
        assert Inside(out[if f >= 0 then i + 1 else i], k);
      }
    } else {
      SplitCovers(src, toks, j + 1, a, if f < 0 && !IsTrivia(toks[j].k) then j else f, k);
    }
  }

  /** Every token that is neither blank, comment nor semicolon is in exactly one statement. */
  lemma EachTokenInOneStatement(src: string, toks: seq<Tok>, k: nat) returns (i: nat)
    requires k < |toks| && IsSubstance(toks[k])
    ensures i < |Statements(src, toks)| && Inside(Statements(src, toks)[i], k)
    ensures forall j :: 0 <= j < |Statements(src, toks)| && Inside(Statements(src, toks)[j], k) ==> j == i
    ensures InOrder(toks, Statements(src, toks), 0)
  {
    hide SplitFrom;
    SplitInOrder(src, toks, 0, 0, -1);
    SplitCovers(src, toks, 0, 0, -1, k);
    var stmts := Statements(src, toks);
    i :| 0 <= i < |stmts| && Inside(stmts[i], k);
    assert forall j :: 0 <= j < i ==> stmts[j].z < stmts[i].a;
    assert forall j :: i < j < |stmts| ==> stmts[i].z < stmts[j].a;
  }

  // ---------- the normalised statement ----------

  /** Comments and blanks become a space, literals and quoted identifiers a placeholder. */
  function Piece(src: string, t: Tok): string
    requires t.s <= t.e <= |src|
  {
    if IsTrivia(t.k) then " "
    else if t.k == Str then "''"
    else if t.k == Ident then "\"_\""
    else if t.k == Dollar then " $$ "
    else src[t.s..t.e]
  }

  ghost predicate InText(src: string, toks: seq<Tok>) {
    forall j :: 0 <= j < |toks| ==> toks[j].s <= toks[j].e <= |src|
  }

  function Raw(src: string, toks: seq<Tok>, f: nat, z: nat): string
    requires f <= z <= |toks| && InText(src, toks)
  {
    if f == z then "" else Raw(src, toks, f, z - 1) + Piece(src, toks[z - 1])
  }

  function Collapse(s: string): string
    decreases |s|
  {
    if s == "" then ""
    else if IsSpace(s[0]) then " " + Collapse(TrimStart(s[1..]))
    else [s[0]] + Collapse(s[1..])
  }

  function UpperChar(u: Unicode, c: char): string {
    if 'a' <= c <= 'z' then [(c as int - 32) as char]
    else if c < '\U{0080}' then [c]
    else u.upper(c)
  }

  function Upper(u: Unicode, s: string): string {
    if s == "" then "" else UpperChar(u, s[0]) + Upper(u, s[1..])
  }

  function Cleaned(u: Unicode, src: string, toks: seq<Tok>, st: Stmt): string
    requires st.f <= st.z <= |toks| && InText(src, toks)
  {
    Upper(u, Trim(Collapse(Raw(src, toks, st.f, st.z))))
  }

  // ---------- the text inside a literal ----------

  /** Two quotes stand for one. */
  function Undouble(s: string): (r: string)
    ensures |r| <= |s|
  {
    if |s| >= 2 && s[0] == '\'' && s[1] == '\'' then "'" + Undouble(s[2..])
    else if s == "" then ""
    else [s[0]] + Undouble(s[1..])
  }

  function Escaped(c: char): char {
    if c == 'n' then '\n' else if c == 'r' then '\r' else if c == 't' then '\t' else c
  }

  /** As above, and a backslash takes the next character literally or as a control character. */
  function Unescape(s: string): (r: string)
    ensures |r| <= |s|
  {
    if |s| >= 2 && s[0] == '\'' && s[1] == '\'' then "'" + Unescape(s[2..])
    else if |s| >= 2 && s[0] == '\\' then [Escaped(s[1])] + Unescape(s[2..])
    else if s == "" then ""
    else [s[0]] + Unescape(s[1..])
  }

  function Unquote(src: string, t: Tok): (r: string)
    requires t.s < t.e <= |src|
    ensures |r| < t.e - t.s
  {
    var end := if t.e - t.s >= 2 && src[t.e - 1] == '\'' then t.e - 1 else t.e;
    var text := src[t.s + 1..end];
    if t.esc then Unescape(text) else Undouble(text)
  }

  function Double(s: string): string {
    if s == "" then "" else (if s[0] == '\'' then "''" else [s[0]]) + Double(s[1..])
  }

  function Quote(s: string): string { "'" + Double(s) + "'" }

  lemma {:induction false} UndoubleDouble(s: string)
    ensures Undouble(Double(s)) == s
  {
    if s != "" {
      UndoubleDouble(s[1..]);
      var rest := Double(s[1..]);
      if s[0] == '\'' {
        assert Double(s)[2..] == rest;
      } else {
        assert Double(s)[1..] == rest;
      }
    }
  }

  /** Inside quoted text the scan runs to the closing quote. */
  lemma {:induction false} DoubledEnd(src: string, i: nat, s: string, end: nat)
    requires i + |Double(s)| < end <= |src|
    requires src[i..i + |Double(s)|] == Double(s)
    requires HasAt(src, i + |Double(s)|, '\'') && !HasAt(src, i + |Double(s)| + 1, '\'')
    ensures QuotedEnd(src, i, end, '\'', false) == i + |Double(s)| + 1
    decreases |s|
  {
    if s != "" {
      var k := if s[0] == '\'' then 2 else 1;
      var rest := Double(s[1..]);
      assert Double(s)[..k] == (if s[0] == '\'' then "''" else [s[0]]) && Double(s)[k..] == rest;
      assert src[i] == Double(s)[0];
      if k == 2 {
        assert src[i + 1] == Double(s)[1];
      }
      assert src[i + k..i + k + |rest|] == src[i..i + |Double(s)|][k..];
      DoubledEnd(src, i + k, s[1..], end);
    }
  }

  lemma QuoteIsString(u: Unicode, s: string)
    ensures |Quote(s)| >= 2 && Quote(s)[0] == '\'' && Quote(s)[|Quote(s)| - 1] == '\''
    ensures Next(u, Quote(s), 0, |Quote(s)|, false) == Tok(Str, 0, |Quote(s)|, 0, 0, false)
  {
    var q := Quote(s);
    assert q[1..1 + |Double(s)|] == Double(s);
    DoubledEnd(q, 1, s, |q|);
    assert q[0] == '\'';
  }

  lemma UnquoteQuote(s: string)
    ensures Unquote(Quote(s), Tok(Str, 0, |Quote(s)|, 0, 0, false)) == s
  {
    var q := Quote(s);
    assert q[|q| - 1] == '\'' && q[1..|q| - 1] == Double(s);
    UndoubleDouble(s);
  }

  /** Quoting a text and lexing it gives one string token, which unquotes to the text. */
  lemma QuoteRoundTrip(u: Unicode, s: string)
    ensures
      var q := Quote(s);
      var t := Tok(Str, 0, |q|, 0, 0, false);
      Lex(u, q, 0, |q|, false) == [t] && Unquote(q, t) == s
  {
    hide *;
    QuoteIsString(u, s);
    LexFirst(u, Quote(s), 0, |Quote(s)|, false);
    LexEmpty(u, Quote(s), |Quote(s)|, IsE(Quote(s), Tok(Str, 0, |Quote(s)|, 0, 0, false)));
    UnquoteQuote(s);
  }

  // ---------- parts between top-level commas ----------

  function Depth(s: string, i: nat): int
    requires i <= |s|
  {
    if i == 0 then 0
    else Depth(s, i - 1) + if s[i - 1] == '(' then 1 else if s[i - 1] == ')' then -1 else 0
  }

  /** A comma outside all parentheses. */
  predicate IsCut(s: string, i: nat)
    requires i < |s|
  {
    s[i] == ',' && Depth(s, i) == 0
  }

  function PartsFrom(s: string, start: nat, i: nat): (r: seq<string>)
    requires start <= i <= |s|
    ensures |r| > 0
    decreases |s| - i
  {
    if i == |s| then [s[start..]]
    else if IsCut(s, i) then [s[start..i]] + PartsFrom(s, i + 1, i + 1)
    else PartsFrom(s, start, i + 1)
  }

  lemma {:induction false} PartsJoin(s: string, start: nat, i: nat)
    requires start <= i <= |s|
    ensures Join(PartsFrom(s, start, i), ",") == s[start..]
    decreases |s| - i
  {
    if i < |s| {
      if IsCut(s, i) {
        PartsJoin(s, i + 1, i + 1);
        assert PartsFrom(s, start, i)[1..] == PartsFrom(s, i + 1, i + 1);
        assert s[start..] == s[start..i] + "," + s[i + 1..];
      } else {
        PartsJoin(s, start, i + 1);
      }
    }
  }

  /** The parts are the stretches between one cut and the next. */
  method TopLevelParts(s: string) returns (parts: seq<string>)
    ensures parts == PartsFrom(s, 0, 0)
    ensures Join(parts, ",") == s
  {
    parts := [];
    var depth := 0;
    var start := 0;
    var i := 0;
    while i < |s|
      invariant start <= i <= |s| && depth == Depth(s, i)
      invariant parts + PartsFrom(s, start, i) == PartsFrom(s, 0, 0)
    {
      if s[i] == '(' {
        depth := depth + 1;
      } else if s[i] == ')' {
        depth := depth - 1;
      } else if s[i] == ',' && depth == 0 {
        Snoc(parts, s[start..i], PartsFrom(s, i + 1, i + 1));
        parts := parts + [s[start..i]];
        start := i + 1;
      }
      i := i + 1;
    }
    parts := parts + [s[start..]];
    PartsJoin(s, 0, 0);
  }
}
