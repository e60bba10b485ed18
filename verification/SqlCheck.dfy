/** The recursive check of a migration file and of the texts its DO blocks hide. */
module SqlCheck {
  import opened Sequences
  import opened Text
  import opened SqlLexer
  import opened SqlStatements
  import opened SqlRules

  datatype Report =
    | Violation(line: nat, rule: Rule) | NamelessNote(line: nat) | UnknownName(line: nat) | NoReason(line: nat)

  /** The stretch [from, end) of src; base is the file line on which src begins. */
  datatype Range = Range(src: string, from: nat, end: nat, base: nat)

  predicate Valid(g: Range) { g.from <= g.end <= |g.src| }

  function LineOf(g: Range, pos: nat): nat
    requires pos <= |g.src|
  {
    g.base + Newlines(g.src, 0, pos)
  }

  function Toks(u: Unicode, g: Range): (toks: seq<Tok>)
    requires Valid(g)
    ensures Tiles(toks, g.from, g.end) && InText(g.src, toks)
    ensures forall t :: t in toks && t.k == Dollar ==> t.s + 2 <= t.bs <= t.be <= t.e
  {
    LexTiles(u, g.src, g.from, g.end, false);
    Lex(u, g.src, g.from, g.end, false)
  }

  function Stmts(u: Unicode, g: Range): (stmts: seq<Stmt>)
    requires Valid(g)
    ensures InOrder(Toks(u, g), stmts, 0)
  {
    SplitInOrder(g.src, Toks(u, g), 0, 0, -1);
    Statements(g.src, Toks(u, g))
  }

  /** The normalised text of statement n. */
  function StmtText(u: Unicode, g: Range, n: nat): string
    requires Valid(g) && n < |Stmts(u, g)|
  {
    Cleaned(u, g.src, Toks(u, g), Stmts(u, g)[n])
  }

  function Comments(u: Unicode, g: Range, n: nat): (comments: seq<Tok>)
    requires Valid(g) && n < |Stmts(u, g)|
    ensures InText(g.src, comments)
  {
    var st := Stmts(u, g)[n];
    AnnotationsInText(g.src, Toks(u, g), st);
    Annotations(g.src, Toks(u, g), st)
  }

  lemma {:induction false} AboveInText(src: string, toks: seq<Tok>, a: nat, j: nat)
    requires a <= j <= |toks| && InText(src, toks)
    ensures InText(src, Above(src, toks, a, j))
    decreases j
  {
    if j > a {
      AboveInText(src, toks, a, j - 1);
    }
  }

  lemma {:induction false} TrailingInText(src: string, toks: seq<Tok>, j: nat)
    requires j <= |toks| && InText(src, toks)
    ensures InText(src, Trailing(src, toks, j))
    decreases |toks| - j
  {
    if j < |toks| {
      TrailingInText(src, toks, j + 1);
    }
  }

  lemma AnnotationsInText(src: string, toks: seq<Tok>, st: Stmt)
    requires st.a <= st.f <= |toks| && InText(src, toks)
    ensures InText(src, Annotations(src, toks, st))
  {
    AboveInText(src, toks, st.a, st.f);
    TrailingInText(src, toks, st.f);
  }

  /** The rules lifted for statement n: those lifted outside and those its own comments lift. */
  function Allowed(u: Unicode, g: Range, n: nat, inherited: set<string>): set<string>
    requires Valid(g) && n < |Stmts(u, g)|
  {
    inherited + LiftedBy(u, g.src, Comments(u, g, n))
  }

  predicate Known(name: string) { exists r :: r in RULES && Name(r) == name }

  function NoteReports(note: Note, line: nat): seq<Report> {
    match note
    case NoNote => []
    case Nameless => [NamelessNote(line)]
    case Named(names, reason) =>
      (if exists n :: n in names && !Known(n) then [UnknownName(line)] else [])
      + (if reason then [] else [NoReason(line)])
  }

  function CommentReports(u: Unicode, g: Range, comments: seq<Tok>): seq<Report>
    requires InText(g.src, comments)
  {
    if comments == [] then []
    else
      var c := comments[|comments| - 1];
      CommentReports(u, g, comments[..|comments| - 1]) + NoteReports(ParseNote(u, g.src[c.s..c.e]), LineOf(g, c.s))
  }

  function Violations(rules: seq<Rule>, line: nat): seq<Report> {
    seq(|rules|, i requires 0 <= i < |rules| => Violation(line, rules[i]))
  }

  /** Literals are looked into in a DO statement, and inside DO blocks everywhere but in function bodies. */
  predicate Descends(mode: Mode, stmt: string) {
    IsDo(stmt) || (mode != Top && !CreatesFunction(stmt))
  }

  function ChildMode(stmt: string): Mode { if IsDo(stmt) then Do else Lit }

  predicate IsLiteral(t: Tok) { t.k == Str || t.k == Dollar }

  /** The text inside a literal of g: a stretch of the same text for a dollar quote, else the unquoted text. */
  function Child(g: Range, t: Tok): (h: Range)
    requires Valid(g) && g.from <= t.s < t.e <= g.end
    requires t.k == Dollar ==> t.s + 2 <= t.bs <= t.be <= t.e
    ensures Valid(h) && h.end - h.from < g.end - g.from
  {
    if t.k == Dollar then Range(g.src, t.bs, t.be, g.base)
    else
      var inner := Unquote(g.src, t);
      Range(inner, 0, |inner|, LineOf(g, t.s))
  }

  /** Everything reported for a range, statement by statement. */
  function Reports(u: Unicode, g: Range, mode: Mode, inherited: set<string>): seq<Report>
    requires Valid(g)
    decreases g.end - g.from, 4, 0
  {
    FirstReports(u, g, mode, inherited, |Stmts(u, g)|)
  }

  /** The reports on the first n statements. */
  function FirstReports(u: Unicode, g: Range, mode: Mode, inherited: set<string>, n: nat): seq<Report>
    requires Valid(g) && n <= |Stmts(u, g)|
    decreases g.end - g.from, 3, n
  {
    if n == 0 then []
    else
      FirstReports(u, g, mode, inherited, n - 1)
      + (CommentReports(u, g, Comments(u, g, n - 1)) + RuleReports(u, g, mode, inherited, n - 1))
  }

  function RuleReports(u: Unicode, g: Range, mode: Mode, inherited: set<string>, n: nat): seq<Report>
    requires Valid(g) && n < |Stmts(u, g)|
    decreases g.end - g.from, 2, 0
  {
    var st := Stmts(u, g)[n];
    var stmt := StmtText(u, g, n);
    var allow := Allowed(u, g, n, inherited);
    Violations(Broken(RULES, stmt, mode, allow), LineOf(g, Toks(u, g)[st.f].s))
    + (if Descends(mode, stmt) then LiteralReports(u, g, st.f, st.z, ChildMode(stmt), allow) else [])
  }

  /** The reports on the literals among tokens [f, z). */
  function LiteralReports(u: Unicode, g: Range, f: nat, z: nat, mode: Mode, allow: set<string>): seq<Report>
    requires Valid(g) && f <= z <= |Toks(u, g)|
    decreases g.end - g.from, 1, z - f
  {
    if f == z then []
    else LiteralReports(u, g, f, z - 1, mode, allow) + TokenReports(u, g, Toks(u, g)[z - 1], mode, allow)
  }

  function TokenReports(u: Unicode, g: Range, t: Tok, mode: Mode, allow: set<string>): seq<Report>
    requires Valid(g) && t in Toks(u, g)
    decreases g.end - g.from, 0, 0
  {
    if IsLiteral(t) then Reports(u, Child(g, t), mode, allow) else []
  }

  // ---------- the check as it runs ----------

  class Checker {
    var hits: seq<Report>

    constructor ()
      ensures hits == []
    {
      hits := [];
    }

    method CheckRange(u: Unicode, g: Range, mode: Mode, inherited: set<string>)
      requires Valid(g)
      modifies this
      ensures hits == old(hits) + Reports(u, g, mode, inherited)
      decreases g.end - g.from, 4
    {
      var toks := LexText(u, g.src, g.from, g.end);
      var stmts := SplitTokens(g.src, toks);
      for n := 0 to |stmts|
        invariant hits == old(hits) + FirstReports(u, g, mode, inherited, n)
      {
        var allow := CheckComments(u, g, toks, stmts, n, inherited);
        CheckStatement(u, g, mode, inherited, allow, toks, stmts, n);
        Concat(old(hits), FirstReports(u, g, mode, inherited, n),
               CommentReports(u, g, Comments(u, g, n)) + RuleReports(u, g, mode, inherited, n));
        Concat(old(hits) + FirstReports(u, g, mode, inherited, n),
               CommentReports(u, g, Comments(u, g, n)), RuleReports(u, g, mode, inherited, n));
      }
    }

    /** Reports faulty annotations of statement n and collects the rules it is allowed to break. */
    method CheckComments(u: Unicode, g: Range, toks: seq<Tok>, stmts: seq<Stmt>, n: nat, inherited: set<string>)
      returns (allow: set<string>)
      requires Valid(g) && toks == Toks(u, g) && stmts == Stmts(u, g) && n < |stmts|
      modifies this
      ensures hits == old(hits) + CommentReports(u, g, Comments(u, g, n))
      ensures allow == Allowed(u, g, n, inherited)
      decreases g.end - g.from, 3
    {
      hide Toks, Stmts, ParseNote, NoteReports, Lifts, LineOf, Above, Trailing, Broken;
      var comments := FindAnnotations(g.src, toks, stmts[n]);
      assert comments == Comments(u, g, n);
      allow := inherited;
      for i := 0 to |comments|
        invariant hits == old(hits) + CommentReports(u, g, comments[..i])
        invariant allow == inherited + LiftedBy(u, g.src, comments[..i])
      {
        var c := comments[i];
        assert comments[..i + 1][..i] == comments[..i];
        var note := ParseNote(u, g.src[c.s..c.e]);
        Concat(old(hits), CommentReports(u, g, comments[..i]), NoteReports(note, LineOf(g, c.s)));
        hits := hits + NoteReports(note, LineOf(g, c.s));
        allow := allow + Lifts(note);
      }
      assert comments[..|comments|] == comments;
    }

    /** The rule tests on statement n and the descent into its literals, after its annotations were read. */
    method CheckStatement(u: Unicode, g: Range, mode: Mode, ghost inherited: set<string>, allow: set<string>,
                          toks: seq<Tok>, stmts: seq<Stmt>, n: nat)
      requires Valid(g) && toks == Toks(u, g) && stmts == Stmts(u, g) && n < |stmts|
      requires allow == Allowed(u, g, n, inherited)
      modifies this
      ensures hits == old(hits) + RuleReports(u, g, mode, inherited, n)
      decreases g.end - g.from, 3
    {
      var st := stmts[n];
      var stmt := Cleaned(u, g.src, toks, st);
      assert stmt == StmtText(u, g, n);
      var found := Violations(Broken(RULES, stmt, mode, allow), LineOf(g, toks[st.f].s));
      hits := hits + found;
      if Descends(mode, stmt) {
        CheckLiterals(u, g, toks, st, ChildMode(stmt), allow);
        Concat(old(hits), found, LiteralReports(u, g, st.f, st.z, ChildMode(stmt), allow));
      }
    }

    method CheckLiterals(u: Unicode, g: Range, toks: seq<Tok>, st: Stmt, mode: Mode, allow: set<string>)
      requires Valid(g) && toks == Toks(u, g) && st.f <= st.z <= |toks|
      modifies this
      ensures hits == old(hits) + LiteralReports(u, g, st.f, st.z, mode, allow)
      decreases g.end - g.from, 2
    {
      for j := st.f to st.z
        invariant hits == old(hits) + LiteralReports(u, g, st.f, j, mode, allow)
      {
        var t := toks[j];
        if IsLiteral(t) {
          CheckRange(u, Child(g, t), mode, allow);
        }
        Concat(old(hits), LiteralReports(u, g, st.f, j, mode, allow), TokenReports(u, g, t, mode, allow));
      }
    }
  }
}
