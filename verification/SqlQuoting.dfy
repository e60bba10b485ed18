/** Quoting never hides a destructive statement inside a DO block. */
module SqlQuoting {
  import opened Text
  import opened SqlLexer
  import opened SqlStatements
  import opened SqlRules
  import opened SqlCheck

  ghost predicate Flags(reports: seq<Report>, r: Rule) {
    exists line :: Violation(line, r) in reports
  }

  // ---------- where a flag comes from ----------

  lemma FlagsConcat(a: seq<Report>, b: seq<Report>, r: Rule)
    ensures Flags(a + b, r) <==> Flags(a, r) || Flags(b, r)
  {
    if Flags(a, r) {
      var line :| Violation(line, r) in a;
      assert Violation(line, r) in a + b;
    }
    if Flags(b, r) {
      var line :| Violation(line, r) in b;
      assert Violation(line, r) in a + b;
    }
  }

  lemma ViolationsFlag(rules: seq<Rule>, line: nat, r: Rule)
    ensures Flags(Violations(rules, line), r) <==> r in rules
  {
    if r in rules {
      var i :| 0 <= i < |rules| && rules[i] == r;
      assert Violations(rules, line)[i] == Violation(line, r);
    }
  }

  lemma {:induction false} CommentsSilent(u: Unicode, g: Range, comments: seq<Tok>, r: Rule)
    requires InText(g.src, comments)
    ensures !Flags(CommentReports(u, g, comments), r)
  {
    if comments != [] {
      CommentsSilent(u, g, comments[..|comments| - 1], r);
    }
  }

  ghost predicate StatementFlags(u: Unicode, g: Range, mode: Mode, inherited: set<string>, n: nat, r: Rule)
    requires Valid(g) && n < |Stmts(u, g)|
  {
    Flags(RuleReports(u, g, mode, inherited, n), r)
  }

  lemma OneMoreFlag(u: Unicode, g: Range, mode: Mode, inherited: set<string>, n: nat, r: Rule)
    requires Valid(g) && n < |Stmts(u, g)|
    ensures Flags(FirstReports(u, g, mode, inherited, n + 1), r)
       <==> Flags(FirstReports(u, g, mode, inherited, n), r) || StatementFlags(u, g, mode, inherited, n, r)
  {
    var comments, rules := CommentReports(u, g, Comments(u, g, n)), RuleReports(u, g, mode, inherited, n);
    CommentsSilent(u, g, Comments(u, g, n), r);
    FlagsConcat(comments, rules, r);
    FlagsConcat(FirstReports(u, g, mode, inherited, n), comments + rules, r);
  }

  lemma NothingFirst(u: Unicode, g: Range, mode: Mode, inherited: set<string>, r: Rule)
    requires Valid(g)
    ensures !Flags(FirstReports(u, g, mode, inherited, 0), r)
  {
  }

  lemma {:induction false} FlaggedStatement(u: Unicode, g: Range, mode: Mode, inherited: set<string>, n: nat, r: Rule)
    returns (k: nat)
    requires Valid(g) && n <= |Stmts(u, g)| && Flags(FirstReports(u, g, mode, inherited, n), r)
    ensures k < n && StatementFlags(u, g, mode, inherited, k, r)
  {
    hide *;
    NothingFirst(u, g, mode, inherited, r);
    OneMoreFlag(u, g, mode, inherited, n - 1, r);
    if StatementFlags(u, g, mode, inherited, n - 1, r) {
      k := n - 1;
    } else {
      k := FlaggedStatement(u, g, mode, inherited, n - 1, r);
    }
  }

  lemma {:induction false} StatementIsReported(u: Unicode, g: Range, mode: Mode, inherited: set<string>, n: nat,
                                               k: nat, r: Rule)
    requires Valid(g) && k < n <= |Stmts(u, g)| && StatementFlags(u, g, mode, inherited, k, r)
    ensures Flags(FirstReports(u, g, mode, inherited, n), r)
  {
    hide *;
    OneMoreFlag(u, g, mode, inherited, n - 1, r);
    if k < n - 1 {
      StatementIsReported(u, g, mode, inherited, n - 1, k, r);
    }
  }

  ghost predicate TokenFlags(u: Unicode, g: Range, mode: Mode, allow: set<string>, j: nat, r: Rule)
    requires Valid(g) && j < |Toks(u, g)|
  {
    Flags(TokenReports(u, g, Toks(u, g)[j], mode, allow), r)
  }

  lemma OneMoreLiteral(u: Unicode, g: Range, f: nat, z: nat, mode: Mode, allow: set<string>, r: Rule)
    requires Valid(g) && f <= z < |Toks(u, g)|
    ensures Flags(LiteralReports(u, g, f, z + 1, mode, allow), r)
       <==> Flags(LiteralReports(u, g, f, z, mode, allow), r) || TokenFlags(u, g, mode, allow, z, r)
    ensures !Flags(LiteralReports(u, g, f, f, mode, allow), r)
  {
    FlagsConcat(LiteralReports(u, g, f, z, mode, allow), TokenReports(u, g, Toks(u, g)[z], mode, allow), r);
  }

  lemma {:induction false} FlaggedToken(u: Unicode, g: Range, f: nat, z: nat, mode: Mode, allow: set<string>, r: Rule)
    returns (j: nat)
    requires Valid(g) && f < z <= |Toks(u, g)| && Flags(LiteralReports(u, g, f, z, mode, allow), r)
    ensures f <= j < z && TokenFlags(u, g, mode, allow, j, r)
    decreases z - f
  {
    hide *;
    OneMoreLiteral(u, g, f, z - 1, mode, allow, r);
    if TokenFlags(u, g, mode, allow, z - 1, r) {
      j := z - 1;
    } else {
      j := FlaggedToken(u, g, f, z - 1, mode, allow, r);
    }
  }

  lemma {:induction false} TokenIsReported(u: Unicode, g: Range, f: nat, z: nat, mode: Mode, allow: set<string>,
                                           j: nat, r: Rule)
    requires Valid(g) && f <= j < z <= |Toks(u, g)| && TokenFlags(u, g, mode, allow, j, r)
    ensures Flags(LiteralReports(u, g, f, z, mode, allow), r)
    decreases z - f
  {
    hide *;
    OneMoreLiteral(u, g, f, z - 1, mode, allow, r);
    if j < z - 1 {
      TokenIsReported(u, g, f, z - 1, mode, allow, j, r);
    }
  }

  /** Some literal of tokens [f, z) has the rule reported inside. */
  ghost predicate LiteralFlags(u: Unicode, g: Range, f: nat, z: nat, mode: Mode, allow: set<string>, r: Rule)
    requires Valid(g) && f <= z <= |Toks(u, g)|
  {
    exists j: nat :: f <= j < z && TokenFlags(u, g, mode, allow, j, r)
  }

  lemma LiteralReportsFlag(u: Unicode, g: Range, f: nat, z: nat, mode: Mode, allow: set<string>, r: Rule)
    requires Valid(g) && f < z <= |Toks(u, g)|
    ensures Flags(LiteralReports(u, g, f, z, mode, allow), r) <==> LiteralFlags(u, g, f, z, mode, allow, r)
  {
    hide Flags, LiteralReports, TokenFlags, Toks;
    if Flags(LiteralReports(u, g, f, z, mode, allow), r) {
      var j := FlaggedToken(u, g, f, z, mode, allow, r);
    }
    if LiteralFlags(u, g, f, z, mode, allow, r) {
      var j: nat :| f <= j < z && TokenFlags(u, g, mode, allow, j, r);
      TokenIsReported(u, g, f, z, mode, allow, j, r);
    }
  }

  /** A statement is flagged by its own text or through a literal that is looked into. */
  lemma RuleReportsFlag(u: Unicode, g: Range, mode: Mode, inherited: set<string>, n: nat, r: Rule)
    requires Valid(g) && n < |Stmts(u, g)|
    ensures
      var st, stmt, allow := Stmts(u, g)[n], StmtText(u, g, n), Allowed(u, g, n, inherited);
      StatementFlags(u, g, mode, inherited, n, r) <==>
      || Breaks(r, stmt, mode, allow)
      || (Descends(mode, stmt) && LiteralFlags(u, g, st.f, st.z, ChildMode(stmt), allow, r))
  {
    var st, stmt, allow := Stmts(u, g)[n], StmtText(u, g, n), Allowed(u, g, n, inherited);
    var line := LineOf(g, Toks(u, g)[st.f].s);
    var own, inner :=
      Violations(Broken(RULES, stmt, mode, allow), line), LiteralReports(u, g, st.f, st.z, ChildMode(stmt), allow);
    assert RuleReports(u, g, mode, inherited, n) == own + (if Descends(mode, stmt) then inner else []);
    assert StatementFlags(u, g, mode, inherited, n, r) <==>
      Flags(own + (if Descends(mode, stmt) then inner else []), r);
    NothingFlagged(r);
    hide *;
    BrokenIff(RULES, stmt, mode, allow, r);
    EveryRule(r);
    ViolationsFlag(Broken(RULES, stmt, mode, allow), line, r);
    LiteralReportsFlag(u, g, st.f, st.z, ChildMode(stmt), allow, r);
    FlagsConcat(own, inner, r);
    FlagsConcat(own, [], r);
  }

  lemma NothingFlagged(r: Rule)
    ensures !Flags([], r)
  {
  }

  lemma EveryRule(r: Rule)
    ensures r in RULES
  {
    assert RULES[0] == Drop && RULES[1] == Rename && RULES[2] == AlterType && RULES[3] == AddNotNull;
    assert RULES[4] == SetNotNull && RULES[5] == AddCheck && RULES[6] == CreateOrReplace && RULES[7] == AlterPolicy;
    assert RULES[8] == Revoke && RULES[9] == Execute;
  }

  /** A rule that is lifted outside is reported nowhere inside. */
  lemma {:induction false} LiftedIsSilent(u: Unicode, g: Range, mode: Mode, inherited: set<string>, r: Rule)
    requires Valid(g) && Name(r) in inherited
    ensures !Flags(Reports(u, g, mode, inherited), r)
    decreases g.end - g.from
  {
    if Flags(Reports(u, g, mode, inherited), r) {
      var n := FlaggedStatement(u, g, mode, inherited, |Stmts(u, g)|, r);
      var mode', allow, j := FlaggedLiteral(u, g, mode, inherited, n, r);
      LiftedIsSilent(u, Child(g, Toks(u, g)[j]), mode', allow, r);
    }
  }

  lemma FlaggedLiteral(u: Unicode, g: Range, mode: Mode, inherited: set<string>, n: nat, r: Rule)
    returns (mode': Mode, allow: set<string>, j: nat)
    requires Valid(g) && n < |Stmts(u, g)| && StatementFlags(u, g, mode, inherited, n, r)
    requires Name(r) in inherited
    ensures j < |Toks(u, g)| && IsLiteral(Toks(u, g)[j]) && inherited <= allow
    ensures Flags(Reports(u, Child(g, Toks(u, g)[j]), mode', allow), r)
  {
    RuleReportsFlag(u, g, mode, inherited, n, r);
    var st, stmt := Stmts(u, g)[n], StmtText(u, g, n);
    mode', allow := ChildMode(stmt), Allowed(u, g, n, inherited);
    assert inherited <= allow;
    assert LiteralFlags(u, g, st.f, st.z, mode', allow, r);
    j := LiteralWitness(u, g, st.f, st.z, mode', allow, r);
  }

  lemma LiteralWitness(u: Unicode, g: Range, f: nat, z: nat, mode: Mode, allow: set<string>, r: Rule) returns (j: nat)
    requires Valid(g) && f <= z <= |Toks(u, g)| && LiteralFlags(u, g, f, z, mode, allow, r)
    ensures f <= j < z && TokenFlags(u, g, mode, allow, j, r)
    ensures IsLiteral(Toks(u, g)[j]) && Flags(Reports(u, Child(g, Toks(u, g)[j]), mode, allow), r)
  {
    j :| f <= j < z && TokenFlags(u, g, mode, allow, j, r);
    TokenFlagged(u, g, mode, allow, j, r);
  }

  lemma TokenFlagged(u: Unicode, g: Range, mode: Mode, allow: set<string>, j: nat, r: Rule)
    requires Valid(g) && j < |Toks(u, g)|
    ensures TokenFlags(u, g, mode, allow, j, r)
       <==> IsLiteral(Toks(u, g)[j]) && Flags(Reports(u, Child(g, Toks(u, g)[j]), mode, allow), r)
  {
    hide Reports, Toks, Child;
  }

  // ---------- the same text in another place ----------

  /** h reads like g, and a comment that starts a line in h starts one in g. */
  ghost predicate SameText(g: Range, h: Range) {
    && Valid(g) && Valid(h)
    && View(g.src, g.end, h.src, h.end, h.from - g.from, g.from, g.end)
    && Shut(g.src, g.end, h.src, h.end, h.from - g.from, g.end)
    && (StartsLine(h.src, h.from) ==> StartsLine(g.src, g.from))
  }

  lemma SameToks(u: Unicode, g: Range, h: Range)
    requires SameText(g, h)
    ensures Moved(Toks(u, g), Toks(u, h), h.from - g.from)
  {
    hide Lex, Moved, View, Shut;
    LexMoves(u, g.src, g.end, h.src, h.end, h.from - g.from, g.from, false);
  }

  lemma NoDollarInBreakpoint()
    ensures forall k :: 0 <= k < |BREAKPOINT| ==> BREAKPOINT[k] != '$'
  {
  }

  lemma BreakpointBeyond(src: string, s: nat, end: nat)
    requires s < end <= |src| && Harmless(src, end) && end < s + |BREAKPOINT|
    ensures !MatchesAt(src, BREAKPOINT, s)
  {
    NoDollarInBreakpoint();
  }

  lemma BreakpointMoves(g: Range, h: Range, x: Tok, y: Tok)
    requires SameText(g, h) && g.from <= x.s < x.e <= g.end && Shifted(x, y, h.from - g.from)
    ensures IsBreakpoint(h.src, y) == IsBreakpoint(g.src, x)
  {
    if x.s + |BREAKPOINT| <= g.end {
      SliceMoves(g.src, g.end, h.src, h.end, h.from - g.from, x.s, g.end, x.s + |BREAKPOINT|);
    } else {
      BreakpointBeyond(g.src, x.s, g.end);
      BreakpointBeyond(h.src, y.s, h.end);
    }
  }

  lemma {:induction false} SplitSame(src: string, toks: seq<Tok>, src': string, toks': seq<Tok>, j: nat, a: nat, f: int)
    requires |toks| == |toks'| && j <= |toks|
    requires forall k :: 0 <= k < |toks| ==>
      toks'[k].k == toks[k].k && IsBreakpoint(src', toks'[k]) == IsBreakpoint(src, toks[k])
    ensures SplitFrom(src', toks', j, a, f) == SplitFrom(src, toks, j, a, f)
    decreases |toks| - j
  {
    if j < |toks| {
      if toks[j].k == Semi || (IsBreakpoint(src, toks[j]) && f >= 0) {
        SplitSame(src, toks, src', toks', j + 1, j + 1, -1);
      } else {
        SplitSame(src, toks, src', toks', j + 1, a, if f < 0 && !IsTrivia(toks[j].k) then j else f);
      }
    }
  }

  lemma SameStmts(u: Unicode, g: Range, h: Range)
    requires SameText(g, h)
    ensures Stmts(u, h) == Stmts(u, g)
  {
    SameToks(u, g, h);
    var xs, ys := Toks(u, g), Toks(u, h);
    forall k | 0 <= k < |xs| ensures ys[k].k == xs[k].k && IsBreakpoint(h.src, ys[k]) == IsBreakpoint(g.src, xs[k]) {
      BreakpointMoves(g, h, xs[k], ys[k]);
    }
    SplitSame(g.src, xs, h.src, ys, 0, 0, -1);
  }

  lemma SameSlice(g: Range, h: Range, x: Tok, y: Tok)
    requires SameText(g, h) && g.from <= x.s < x.e <= g.end && Shifted(x, y, h.from - g.from)
    ensures y.e <= |h.src| && h.src[y.s..y.e] == g.src[x.s..x.e]
  {
    SliceMoves(g.src, g.end, h.src, h.end, h.from - g.from, x.s, g.end, x.e);
  }

  lemma {:induction false} RawSame(src: string, toks: seq<Tok>, src': string, toks': seq<Tok>, f: nat, z: nat)
    requires |toks| == |toks'| && f <= z <= |toks| && InText(src, toks) && InText(src', toks')
    requires forall k :: f <= k < z ==> Piece(src', toks'[k]) == Piece(src, toks[k])
    ensures Raw(src', toks', f, z) == Raw(src, toks, f, z)
    decreases z - f
  {
    hide Piece;
    if f < z {
      RawSame(src, toks, src', toks', f, z - 1);
    }
  }

  lemma SamePieces(g: Range, h: Range, xs: seq<Tok>, ys: seq<Tok>)
    requires SameText(g, h) && Moved(xs, ys, h.from - g.from) && InText(g.src, xs) && InText(h.src, ys)
    requires forall k :: 0 <= k < |xs| ==> g.from <= xs[k].s < xs[k].e <= g.end
    ensures forall k :: 0 <= k < |xs| ==> Piece(h.src, ys[k]) == Piece(g.src, xs[k])
  {
    forall k | 0 <= k < |xs| ensures Piece(h.src, ys[k]) == Piece(g.src, xs[k]) {
      SameSlice(g, h, xs[k], ys[k]);
    }
  }

  lemma SameStmtText(u: Unicode, g: Range, h: Range, n: nat)
    requires SameText(g, h) && n < |Stmts(u, g)|
    ensures n < |Stmts(u, h)| && StmtText(u, h, n) == StmtText(u, g, n)
  {
    SameStmts(u, g, h);
    SameToks(u, g, h);
    var xs, ys, st := Toks(u, g), Toks(u, h), Stmts(u, g)[n];
    SamePieces(g, h, xs, ys);
    hide SameText, Piece, Toks, Statements, Upper, Trim, Collapse;
    RawSame(g.src, xs, h.src, ys, st.f, st.z);
  }

  // ---------- fewer comments count as annotations ----------

  lemma {:induction false} StartsLineMoves(g: Range, h: Range, p: nat)
    requires SameText(g, h) && g.from <= p <= g.end
    requires StartsLine(h.src, p + (h.from - g.from))
    ensures StartsLine(g.src, p)
    decreases p
  {
    if p > g.from {
      assert h.src[p - 1 + (h.from - g.from)] == g.src[p - 1];
      if g.src[p - 1] != '\n' {
        StartsLineMoves(g, h, p - 1);
      }
    }
  }

  lemma {:induction false} NewlinesMove(a: string, enda: nat, b: string, endb: nat, d: int, i: nat, j: nat)
    requires View(a, enda, b, endb, d, i, enda) && i <= j <= enda
    ensures Newlines(b, i + d, j + d) == Newlines(a, i, j)
    decreases j
  {
    if i < j {
      NewlinesMove(a, enda, b, endb, d, i, j - 1);
    }
  }

  lemma {:induction false} LiftedConcat(u: Unicode, src: string, xs: seq<Tok>, ys: seq<Tok>)
    requires InText(src, xs) && InText(src, ys)
    ensures InText(src, xs + ys) && LiftedBy(u, src, xs + ys) == LiftedBy(u, src, xs) + LiftedBy(u, src, ys)
  {
    if ys == [] {
      assert xs + ys == xs;
    } else {
      var front := ys[..|ys| - 1];
      LiftedConcat(u, src, xs, front);
      assert (xs + ys)[..|xs + ys| - 1] == xs + front;
    }
  }

  lemma LiftedOne(u: Unicode, src: string, t: Tok)
    requires t.s <= t.e <= |src|
    ensures LiftedBy(u, src, [t]) == Lifts(ParseNote(u, src[t.s..t.e]))
  {
    assert [t][..0] == [];
  }

  lemma LiftedCons(u: Unicode, src: string, t: Tok, rest: seq<Tok>)
    requires t.s <= t.e <= |src| && InText(src, rest)
    ensures InText(src, [t] + rest)
    ensures LiftedBy(u, src, [t] + rest) == Lifts(ParseNote(u, src[t.s..t.e])) + LiftedBy(u, src, rest)
  {
    LiftedConcat(u, src, [t], rest);
    LiftedOne(u, src, t);
  }

  /** The rules lifted by the comments above token j. */
  ghost function LiftedAbove(u: Unicode, src: string, toks: seq<Tok>, a: nat, j: nat): set<string>
    requires a <= j <= |toks| && InText(src, toks)
    decreases j - a
  {
    if j == a then {}
    else
      var t := toks[j - 1];
      if t.k == Ws && Newlines(src, t.s, t.e) <= 1 then LiftedAbove(u, src, toks, a, j - 1)
      else if t.k == Line && StartsLine(src, t.s)
        then Lifts(ParseNote(u, src[t.s..t.e])) + LiftedAbove(u, src, toks, a, j - 1)
      else {}
  }

  lemma {:induction false} LiftedByAbove(u: Unicode, src: string, toks: seq<Tok>, a: nat, j: nat)
    requires a <= j <= |toks| && InText(src, toks)
    ensures InText(src, Above(src, toks, a, j))
    ensures LiftedBy(u, src, Above(src, toks, a, j)) == LiftedAbove(u, src, toks, a, j)
    decreases j - a
  {
    if j > a {
      LiftedByAbove(u, src, toks, a, j - 1);
      LiftedCons(u, src, toks[j - 1], Above(src, toks, a, j - 1));
    }
  }

  lemma {:induction false} FewerAbove(u: Unicode, g: Range, h: Range, xs: seq<Tok>, ys: seq<Tok>, a: nat, j: nat)
    requires SameText(g, h) && Moved(xs, ys, h.from - g.from) && a <= j <= |xs|
    requires InText(g.src, xs) && InText(h.src, ys)
    requires forall k :: 0 <= k < |xs| ==> g.from <= xs[k].s < xs[k].e <= g.end
    ensures LiftedAbove(u, h.src, ys, a, j) <= LiftedAbove(u, g.src, xs, a, j)
    decreases j - a
  {
    if j > a {
      var x, y := xs[j - 1], ys[j - 1];
      FewerAbove(u, g, h, xs, ys, a, j - 1);
      LineComment(g, h, x, y);
      hide SameText, Moved, InText, StartsLine, Newlines, ParseNote, Lifts;
    }
  }

  /** A token counts as a comment line only where it does in g, and reads the same. */
  lemma LineComment(g: Range, h: Range, x: Tok, y: Tok)
    requires SameText(g, h) && g.from <= x.s < x.e <= g.end && Shifted(x, y, h.from - g.from)
    ensures y.k == x.k && y.s <= y.e <= |h.src| && h.src[y.s..y.e] == g.src[x.s..x.e]
    ensures Newlines(h.src, y.s, y.e) == Newlines(g.src, x.s, x.e)
    ensures StartsLine(h.src, y.s) ==> StartsLine(g.src, x.s)
  {
    SameSlice(g, h, x, y);
    ViewShrinks(g.src, g.end, h.src, h.end, h.from - g.from, g.from, g.end, x.s);
    NewlinesMove(g.src, g.end, h.src, h.end, h.from - g.from, x.s, x.e);
    if StartsLine(h.src, y.s) {
      StartsLineMoves(g, h, x.s);
    }
  }

  lemma {:induction false} SameTrailing(u: Unicode, g: Range, h: Range, j: nat)
    requires SameText(g, h) && j <= |Toks(u, g)| == |Toks(u, h)|
    ensures InText(g.src, Trailing(g.src, Toks(u, g), j)) && InText(h.src, Trailing(h.src, Toks(u, h), j))
    ensures LiftedBy(u, h.src, Trailing(h.src, Toks(u, h), j)) == LiftedBy(u, g.src, Trailing(g.src, Toks(u, g), j))
    decreases |Toks(u, g)| - j
  {
    hide Toks, ParseNote;
    TrailingInText(g.src, Toks(u, g), j);
    TrailingInText(h.src, Toks(u, h), j);
    if j < |Toks(u, g)| {
      SameToks(u, g, h);
      var x, y := Toks(u, g)[j], Toks(u, h)[j];
      SameSlice(g, h, x, y);
      LiftedOne(u, g.src, x);
      LiftedOne(u, h.src, y);
      SameTrailing(u, g, h, j + 1);
    }
  }

  /** In another place a statement has at most the annotations it has at the start of a text. */
  lemma FewerLifted(u: Unicode, g: Range, h: Range, n: nat)
    requires SameText(g, h) && n < |Stmts(u, g)| && Stmts(u, h) == Stmts(u, g)
    ensures LiftedBy(u, h.src, Comments(u, h, n)) <= LiftedBy(u, g.src, Comments(u, g, n))
  {
    SameToks(u, g, h);
    var st := Stmts(u, g)[n];
    FewerAbove(u, g, h, Toks(u, g), Toks(u, h), st.a, st.f);
    LiftedByAbove(u, g.src, Toks(u, g), st.a, st.f);
    LiftedByAbove(u, h.src, Toks(u, h), st.a, st.f);
    SameTrailing(u, g, h, st.f);
    LiftedConcat(u, g.src, Above(g.src, Toks(u, g), st.a, st.f), Trailing(g.src, Toks(u, g), st.f));
    LiftedConcat(u, h.src, Above(h.src, Toks(u, h), st.a, st.f), Trailing(h.src, Toks(u, h), st.f));
  }

  // ---------- the check finds no less in another place ----------

  lemma SameUnquote(g: Range, h: Range, x: Tok, y: Tok)
    requires SameText(g, h) && g.from <= x.s < x.e <= g.end && Shifted(x, y, h.from - g.from)
    ensures y.s < y.e <= |h.src| && Unquote(h.src, y) == Unquote(g.src, x)
  {
    hide Unescape, Undouble;
    var d := h.from - g.from;
    var end := if x.e - x.s >= 2 && g.src[x.e - 1] == '\'' then x.e - 1 else x.e;
    assert h.src[x.e - 1 + d] == g.src[x.e - 1];
    SliceMoves(g.src, g.end, h.src, h.end, d, x.s + 1, g.end, end);
  }

  lemma SameLiteral(g: Range, h: Range, x: Tok, y: Tok)
    requires SameText(g, h) && Shifted(x, y, h.from - g.from) && IsLiteral(x)
    requires g.from <= x.s < x.e <= g.end && h.from <= y.s < y.e <= h.end
    requires x.k == Dollar ==> x.s + 2 <= x.bs <= x.be <= x.e && Enclosed(g.src, x, g.end) && Enclosed(h.src, y, h.end)
    ensures SameText(Child(g, x), Child(h, y))
  {
    if x.k != Dollar {
      SameUnquote(g, h, x, y);
    }
  }

  lemma SameChild(u: Unicode, g: Range, h: Range, j: nat)
    requires SameText(g, h) && j < |Toks(u, g)| == |Toks(u, h)| && IsLiteral(Toks(u, g)[j])
    ensures IsLiteral(Toks(u, h)[j])
    ensures SameText(Child(g, Toks(u, g)[j]), Child(h, Toks(u, h)[j]))
  {
    SameToks(u, g, h);
    var x, y := Toks(u, g)[j], Toks(u, h)[j];
    if x.k == Dollar {
      BodiesEnclosed(u, g.src, g.from, g.end, false, x);
      BodiesEnclosed(u, h.src, h.from, h.end, false, y);
    }
    hide SameText, Child, Enclosed;
    SameLiteral(g, h, x, y);
  }

  /** The order of strictness of the modes. */
  predicate AtLeast(strict: Mode, mode: Mode) { strict == mode || mode == Top || (mode == Lit && strict == Do) }

  /**
   * What is reported for a text is reported wherever the text is checked at least as strictly, unless it is lifted
   * there.
   */
  lemma {:induction false} FoundEverywhere(u: Unicode, g: Range, h: Range, mode: Mode, strict: Mode,
                                           here: set<string>, there: set<string>, r: Rule)
    requires SameText(g, h) && AtLeast(strict, mode) && Name(r) !in there
    requires Flags(Reports(u, g, mode, here), r)
    ensures Flags(Reports(u, h, strict, there), r)
    decreases g.end - g.from, 2
  {
    SameStmts(u, g, h);
    var n := FlaggedStatement(u, g, mode, here, |Stmts(u, g)|, r);
    FoundInStatement(u, g, h, mode, strict, here, there, n, r);
    StatementIsReported(u, h, strict, there, |Stmts(u, h)|, n, r);
  }

  lemma BreaksMore(r: Rule, stmt: string, mode: Mode, strict: Mode, allow: set<string>, allow': set<string>)
    requires AtLeast(strict, mode) && Name(r) !in allow' && Breaks(r, stmt, mode, allow)
    ensures Breaks(r, stmt, strict, allow')
  {
  }

  lemma DescendsMore(stmt: string, mode: Mode, strict: Mode)
    requires AtLeast(strict, mode) && Descends(mode, stmt)
    ensures Descends(strict, stmt)
  {
  }

  lemma StillNotLifted(u: Unicode, g: Range, h: Range, n: nat, here: set<string>, there: set<string>, name: string)
    requires SameText(g, h) && n < |Stmts(u, g)| && Stmts(u, h) == Stmts(u, g)
    requires name !in there && name !in Allowed(u, g, n, here)
    ensures name !in Allowed(u, h, n, there)
  {
    FewerLifted(u, g, h, n);
  }

  lemma {:induction false} FoundInStatement(u: Unicode, g: Range, h: Range, mode: Mode, strict: Mode,
                                            here: set<string>, there: set<string>, n: nat, r: Rule)
    requires SameText(g, h) && AtLeast(strict, mode) && Name(r) !in there
    requires n < |Stmts(u, g)| && Stmts(u, h) == Stmts(u, g)
    requires StatementFlags(u, g, mode, here, n, r)
    ensures StatementFlags(u, h, strict, there, n, r)
    decreases g.end - g.from, 1
  {
    var st := Stmts(u, g)[n];
    assert st.f <= st.z <= |Toks(u, g)| && |Toks(u, h)| == |Toks(u, g)| by {
      SameToks(u, g, h);
    }
    SameStmtText(u, g, h, n);
    RuleReportsFlag(u, g, mode, here, n, r);
    RuleReportsFlag(u, h, strict, there, n, r);
    var stmt := StmtText(u, g, n);
    var allow, allow' := Allowed(u, g, n, here), Allowed(u, h, n, there);
    if Breaks(r, stmt, mode, allow) {
      assert Name(r) !in allow;
      hide *;
      StillNotLifted(u, g, h, n, here, there, Name(r));
      BreaksMore(r, stmt, mode, strict, allow, allow');
    } else {
      hide *;
      var j := LiteralWitness(u, g, st.f, st.z, ChildMode(stmt), allow, r);
      NotLifted(u, g, ChildMode(stmt), allow, j, r);
      StillNotLifted(u, g, h, n, here, there, Name(r));
      DescendsMore(stmt, mode, strict);
      FoundInLiteral(u, g, h, ChildMode(stmt), allow, allow', j, r);
      LiteralFound(u, h, st.f, st.z, ChildMode(stmt), allow', j, r);
    }
  }

  lemma LiteralFound(u: Unicode, g: Range, f: nat, z: nat, mode: Mode, allow: set<string>, j: nat, r: Rule)
    requires Valid(g) && f <= j < z <= |Toks(u, g)| && TokenFlags(u, g, mode, allow, j, r)
    ensures LiteralFlags(u, g, f, z, mode, allow, r)
  {
  }

  lemma NotLifted(u: Unicode, g: Range, mode: Mode, allow: set<string>, j: nat, r: Rule)
    requires Valid(g) && j < |Toks(u, g)| && TokenFlags(u, g, mode, allow, j, r)
    ensures IsLiteral(Toks(u, g)[j]) && Name(r) !in allow
  {
    if IsLiteral(Toks(u, g)[j]) && Name(r) in allow {
      LiftedIsSilent(u, Child(g, Toks(u, g)[j]), mode, allow, r);
    }
  }

  lemma {:induction false} FoundInLiteral(u: Unicode, g: Range, h: Range, mode: Mode,
                                          here: set<string>, there: set<string>, j: nat, r: Rule)
    requires SameText(g, h) && Name(r) !in there
    requires j < |Toks(u, g)| == |Toks(u, h)| && IsLiteral(Toks(u, g)[j])
    requires TokenFlags(u, g, mode, here, j, r)
    ensures TokenFlags(u, h, mode, there, j, r)
    decreases g.end - g.from, 0
  {
    SameChild(u, g, h, j);
    FoundEverywhere(u, Child(g, Toks(u, g)[j]), Child(h, Toks(u, h)[j]), mode, mode, here, there, r);
  }

  // ---------- any nesting ----------

  /** A text on its own. */
  function Whole(s: string): (g: Range)
    ensures Valid(g)
  {
    Range(s, 0, |s|, 1)
  }

  /** A stretch that reads s, with nothing behind it that could be taken for a part of it. */
  ghost predicate Reads(g: Range, s: string) {
    Valid(g) && g.src[g.from..g.end] == s && Harmless(g.src, g.end)
  }

  lemma ReadsSame(g: Range, s: string)
    requires Reads(g, s)
    ensures SameText(Whole(s), g)
  {
    forall j | 0 <= j < |s| ensures s[j] == g.src[j + g.from] {
      assert g.src[g.from..g.end][j] == g.src[g.from + j];
    }
  }

  /** A range with the mode in which it is checked and the rules lifted around it. */
  datatype Spot = Spot(g: Range, mode: Mode, lifted: set<string>)

  /** Statement n of the spot is looked into, and its token j is a literal. */
  ghost predicate LooksInto(u: Unicode, spot: Spot, n: nat, j: nat)
    requires Valid(spot.g)
  {
    && n < |Stmts(u, spot.g)| && Stmts(u, spot.g)[n].f <= j < Stmts(u, spot.g)[n].z
    && IsLiteral(Toks(u, spot.g)[j]) && Descends(spot.mode, StmtText(u, spot.g, n))
  }

  /** The inside of that literal. */
  ghost function Inner(u: Unicode, spot: Spot, n: nat, j: nat): (inner: Spot)
    requires Valid(spot.g) && LooksInto(u, spot, n, j)
    ensures Valid(inner.g)
  {
    Spot(Child(spot.g, Toks(u, spot.g)[j]), ChildMode(StmtText(u, spot.g, n)), Allowed(u, spot.g, n, spot.lifted))
  }

  ghost predicate SpotFlags(u: Unicode, spot: Spot, r: Rule)
    requires Valid(spot.g)
  {
    Flags(Reports(u, spot.g, spot.mode, spot.lifted), r)
  }

  /**
   * Following the path, a statement and a literal of it on every layer, leads from the spot to text s, through
   * literals that are looked into, past no comment that lifts rule r.
   */
  ghost predicate Buried(u: Unicode, spot: Spot, path: seq<(nat, nat)>, s: string, r: Rule)
    requires Valid(spot.g)
    decreases |path|
  {
    if path == [] then Reads(spot.g, s) && Name(r) !in spot.lifted
    else LooksInto(u, spot, path[0].0, path[0].1) && Buried(u, Inner(u, spot, path[0].0, path[0].1), path[1..], s, r)
  }

  /** What is reported in a literal that is looked into is reported for the range. */
  lemma LiteralReaches(u: Unicode, spot: Spot, n: nat, j: nat, r: Rule)
    requires Valid(spot.g) && LooksInto(u, spot, n, j) && SpotFlags(u, Inner(u, spot, n, j), r)
    ensures SpotFlags(u, spot, r)
  {
    var g, stmt, allow := spot.g, StmtText(u, spot.g, n), Allowed(u, spot.g, n, spot.lifted);
    Reaches(u, g, spot.mode, spot.lifted, n, j, r);
  }

  lemma Reaches(u: Unicode, g: Range, mode: Mode, inherited: set<string>, n: nat, j: nat, r: Rule)
    requires Valid(g) && n < |Stmts(u, g)| && Stmts(u, g)[n].f <= j < Stmts(u, g)[n].z <= |Toks(u, g)|
    requires IsLiteral(Toks(u, g)[j]) && Descends(mode, StmtText(u, g, n))
    requires Flags(Reports(u, Child(g, Toks(u, g)[j]), ChildMode(StmtText(u, g, n)), Allowed(u, g, n, inherited)), r)
    ensures Flags(Reports(u, g, mode, inherited), r)
  {
    hide *;
    var stmt, allow := StmtText(u, g, n), Allowed(u, g, n, inherited);
    TokenFlagged(u, g, ChildMode(stmt), allow, j, r);
    LiteralFound(u, g, Stmts(u, g)[n].f, Stmts(u, g)[n].z, ChildMode(stmt), allow, j, r);
    RuleReportsFlag(u, g, mode, inherited, n, r);
    StatementIsReported(u, g, mode, inherited, |Stmts(u, g)|, n, r);
    AllStatements(u, g, mode, inherited);
  }

  lemma AllStatements(u: Unicode, g: Range, mode: Mode, inherited: set<string>)
    requires Valid(g)
    ensures Reports(u, g, mode, inherited) == FirstReports(u, g, mode, inherited, |Stmts(u, g)|)
  {
  }

  lemma FoundWhereRead(u: Unicode, spot: Spot, s: string, r: Rule)
    requires Reads(spot.g, s) && Name(r) !in spot.lifted
    requires Flags(Reports(u, Whole(s), Top, {}), r)
    ensures SpotFlags(u, spot, r)
  {
    ReadsSame(spot.g, s);
    FoundEverywhere(u, Whole(s), spot.g, Top, spot.mode, {}, spot.lifted, r);
  }

  /**
   * However deep a text is buried in literals of a DO block, with whatever around it on each layer, a rule
   * reported for the text alone is reported for the whole.
   */
  lemma {:induction false} QuotingNeverHides(u: Unicode, spot: Spot, path: seq<(nat, nat)>, s: string, r: Rule)
    requires Valid(spot.g) && Buried(u, spot, path, s, r)
    requires Flags(Reports(u, Whole(s), Top, {}), r)
    ensures SpotFlags(u, spot, r)
    decreases |path|
  {
    hide LooksInto, Inner, SpotFlags, Reports, Flags;
    if path == [] {
      FoundWhereRead(u, spot, s, r);
    } else {
      QuotingNeverHides(u, Inner(u, spot, path[0].0, path[0].1), path[1..], s, r);
      LiteralReaches(u, spot, path[0].0, path[0].1, r);
    }
  }
}
