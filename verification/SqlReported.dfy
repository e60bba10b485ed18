/** When a file is reported: the rules in terms of what its statements show and of their word tokens. */
module SqlReported {
  import opened Sequences
  import opened Text
  import opened SqlLexer
  import opened SqlStatements
  import opened SqlRules
  import opened SqlCheck
  import opened SqlQuoting
  import opened SqlVisible
  import opened SqlWords
  import opened SqlMeaning
  import opened SqlColumns
  import opened SqlTokens

  /** What statement n shows. */
  function SeenAt(u: Unicode, g: Range, n: nat): seq<Cell>
    requires Valid(g) && n < |Stmts(u, g)|
  {
    Seen(u, g.src, Toks(u, g), Stmts(u, g)[n])
  }

  lemma ToksLexed(u: Unicode, g: Range)
    requires Valid(g)
    ensures Lexed(u, g.src, Toks(u, g), g.end)
  {
    hide Maximal, Lex;
    LexIsMaximal(u, g.src, g.from, g.end, false);
  }

  lemma LexedIsInked(u: Unicode, src: string, toks: seq<Tok>, end: nat)
    requires Proper(u) && Lexed(u, src, toks, end)
    ensures InText(src, toks) && Inked(src, toks)
  {
    hide Maximal, Proper, Inked;
    forall t | t in toks ensures Maximal(u, src, t, end) {
      var j :| 0 <= j < |toks| && toks[j] == t;
    }
    MaximalIsInked(u, src, toks, end);
  }

  lemma StatementShows(u: Unicode, g: Range, n: nat)
    requires Proper(u) && Valid(g) && n < |Stmts(u, g)|
    ensures StmtText(u, g, n) == Shows(SeenAt(u, g, n)) && Clean(SeenAt(u, g, n))
  {
    hide Lexed, Proper, Inked, Seen, Cleaned, Clean, Toks, Stmts, Lex;
    ToksLexed(u, g);
    LexedIsInked(u, g.src, Toks(u, g), g.end);
    CleanedShows(u, g.src, Toks(u, g), Stmts(u, g)[n]);
    SeenIsClean(u, g.src, Toks(u, g), Stmts(u, g)[n]);
  }

  lemma CleanIsVisible(cells: seq<Cell>)
    requires Clean(cells)
    ensures Visibles(cells)
  {
  }

  /** The statement breaks the rule itself. */
  ghost predicate BreaksItself(u: Unicode, g: Range, mode: Mode, inherited: set<string>, n: nat, r: Rule)
    requires Valid(g) && n < |Stmts(u, g)|
  {
    (mode == Do || r != Execute) && Name(r) !in Allowed(u, g, n, inherited) && Meant(r, SeenAt(u, g, n))
  }

  /** Its literals are looked into. */
  ghost predicate LooksInside(u: Unicode, g: Range, mode: Mode, n: nat)
    requires Valid(g) && n < |Stmts(u, g)|
  {
    MeansDo(SeenAt(u, g, n)) || (mode != Top && !MeansFunction(SeenAt(u, g, n)))
  }

  /**
   * A rule is reported for a statement exactly if the statement shows what the rule looks for and no comment lifts it,
   * or if it is reported for a literal that is looked into.
   */
  lemma ReportedExactly(u: Unicode, g: Range, mode: Mode, inherited: set<string>, n: nat, r: Rule)
    requires Proper(u) && Valid(g) && n < |Stmts(u, g)|
    ensures
      var st, allow := Stmts(u, g)[n], Allowed(u, g, n, inherited);
      StatementFlags(u, g, mode, inherited, n, r) <==>
      || BreaksItself(u, g, mode, inherited, n, r)
      || (LooksInside(u, g, mode, n) &&
          LiteralFlags(u, g, st.f, st.z, if MeansDo(SeenAt(u, g, n)) then Do else Lit, allow, r))
  {
    hide Test, Meant, IsDo, MeansDo, CreatesFunction, MeansFunction, Toks, Stmts, StmtText, SeenAt, Allowed, Clean,
      Proper, StatementFlags, LiteralFlags;
    StatementShows(u, g, n);
    RuleReportsFlag(u, g, mode, inherited, n, r);
    CleanIsVisible(SeenAt(u, g, n));
    TestMeans(r, SeenAt(u, g, n));
    DoMeans(SeenAt(u, g, n));
  }

  /** The report names the line of the statement. */
  lemma ReportedThere(u: Unicode, g: Range, mode: Mode, inherited: set<string>, n: nat, r: Rule)
    requires Proper(u) && Valid(g) && n < |Stmts(u, g)| && BreaksItself(u, g, mode, inherited, n, r)
    ensures
      Violation(LineOf(g, Toks(u, g)[Stmts(u, g)[n].f].s), r) in Reports(u, g, mode, inherited)
  {
    var stmt, allow := StmtText(u, g, n), Allowed(u, g, n, inherited);
    var line := LineOf(g, Toks(u, g)[Stmts(u, g)[n].f].s);
    assert Violation(line, r) in RuleReports(u, g, mode, inherited, n) by {
      assert RuleReports(u, g, mode, inherited, n) == Violations(Broken(RULES, stmt, mode, allow), line)
        + (if Descends(mode, stmt)
           then LiteralReports(u, g, Stmts(u, g)[n].f, Stmts(u, g)[n].z, ChildMode(stmt), allow) else []);
      hide *;
      StatementBreaks(u, g, mode, inherited, n, r);
      BrokenIff(RULES, stmt, mode, allow, r);
      EveryRule(r);
      ViolationThere(Broken(RULES, stmt, mode, allow), line, r);
    }
    assert Reports(u, g, mode, inherited) == FirstReports(u, g, mode, inherited, |Stmts(u, g)|);
    hide *;
    ReportKept(u, g, mode, inherited, |Stmts(u, g)|, n, Violation(line, r));
  }

  lemma StatementBreaks(u: Unicode, g: Range, mode: Mode, inherited: set<string>, n: nat, r: Rule)
    requires Proper(u) && Valid(g) && n < |Stmts(u, g)| && BreaksItself(u, g, mode, inherited, n, r)
    ensures Breaks(r, StmtText(u, g, n), mode, Allowed(u, g, n, inherited))
  {
    hide Test, Meant, Toks, Stmts, StmtText, SeenAt, Allowed, Clean, Proper;
    StatementShows(u, g, n);
    CleanIsVisible(SeenAt(u, g, n));
    TestMeans(r, SeenAt(u, g, n));
  }

  lemma ViolationThere(rules: seq<Rule>, line: nat, r: Rule)
    requires r in rules
    ensures Violation(line, r) in Violations(rules, line)
  {
    var i :| 0 <= i < |rules| && rules[i] == r;
    assert Violations(rules, line)[i] == Violation(line, r);
  }

  lemma FirstReportsNext(u: Unicode, g: Range, mode: Mode, inherited: set<string>, n: nat)
    requires Valid(g) && n < |Stmts(u, g)|
    ensures FirstReports(u, g, mode, inherited, n + 1) == FirstReports(u, g, mode, inherited, n)
      + (CommentReports(u, g, Comments(u, g, n)) + RuleReports(u, g, mode, inherited, n))
  {
    hide RuleReports, CommentReports, Comments, Toks, Stmts;
  }

  lemma {:induction false} ReportKept(u: Unicode, g: Range, mode: Mode, inherited: set<string>, n: nat, k: nat,
                                      report: Report)
    requires Valid(g) && k < n <= |Stmts(u, g)| && report in RuleReports(u, g, mode, inherited, k)
    ensures report in FirstReports(u, g, mode, inherited, n)
  {
    hide *;
    FirstReportsNext(u, g, mode, inherited, n - 1);
    if k < n - 1 {
      ReportKept(u, g, mode, inherited, n - 1, k, report);
    }
  }

  /** Without DO statements a rule is reported for a file exactly if some statement breaks it. */
  lemma FileExactly(u: Unicode, g: Range, r: Rule)
    requires Proper(u) && Valid(g) && forall n :: 0 <= n < |Stmts(u, g)| ==> !MeansDo(SeenAt(u, g, n))
    ensures Flags(Reports(u, g, Top, {}), r) <==>
      exists n :: 0 <= n < |Stmts(u, g)| && BreaksItself(u, g, Top, {}, n, r)
  {
    assert Reports(u, g, Top, {}) == FirstReports(u, g, Top, {}, |Stmts(u, g)|);
    hide Reports, FirstReports, Stmts, Toks, SeenAt, BreaksItself, Proper, Flags, StatementFlags, MeansDo;
    if Flags(Reports(u, g, Top, {}), r) {
      var n := FlaggedStatement(u, g, Top, {}, |Stmts(u, g)|, r);
      ReportedExactly(u, g, Top, {}, n, r);
    }
    forall n | 0 <= n < |Stmts(u, g)| && BreaksItself(u, g, Top, {}, n, r) ensures Flags(Reports(u, g, Top, {}), r) {
      ReportedExactly(u, g, Top, {}, n, r);
      StatementIsReported(u, g, Top, {}, |Stmts(u, g)|, n, r);
    }
  }

  // ---------- in terms of tokens ----------

  /** The words a rule looks for, for the rules that look for nothing else. */
  function WordsOf(r: Rule): seq<string> {
    match r
    case Drop => ["DROP"]
    case Rename => ["RENAME"]
    case SetNotNull => ["SET", "NOT", "NULL"]
    case CreateOrReplace => ["CREATE", "OR", "REPLACE"]
    case AlterPolicy => ["ALTER", "POLICY"]
    case Revoke => ["REVOKE"]
    case _ => []
  }

  lemma WordsAreSolid(r: Rule)
    requires WordsOf(r) != []
    ensures SolidWords(WordsOf(r))
    ensures forall cells :: Meant(r, cells) <==> Says(cells, Join(WordsOf(r), " "))
  {
    hide Says;
    SolidRuleWords();
    JoinOne("DROP");
    JoinOne("RENAME");
    JoinOne("REVOKE");
    JoinPair("ALTER", "POLICY");
    JoinThree("SET", "NOT", "NULL");
    JoinThree("CREATE", "OR", "REPLACE");
    JoinedPhrases();
  }

  lemma SolidRuleWords()
    ensures Solid("DROP") && Solid("RENAME") && Solid("REVOKE") && Solid("ALTER") && Solid("POLICY")
    ensures Solid("SET") && Solid("NOT") && Solid("NULL") && Solid("CREATE") && Solid("OR") && Solid("REPLACE")
  {
  }

  lemma JoinedPhrases()
    ensures "ALTER POLICY" == "ALTER" + " " + "POLICY" && "SET NOT NULL" == "SET" + " " + ("NOT" + " " + "NULL")
    ensures "CREATE OR REPLACE" == "CREATE" + " " + ("OR" + " " + "REPLACE")
  {
  }

  lemma JoinOne(a: string)
    ensures Join([a], " ") == a
  {
  }

  lemma JoinPair(a: string, b: string)
    ensures Join([a, b], " ") == a + " " + b
  {
    assert [a, b][1..] == [b];
    JoinOne(b);
  }

  lemma JoinThree(a: string, b: string, c: string)
    ensures Join([a, b, c], " ") == a + " " + (b + " " + c)
  {
    assert [a, b, c][1..] == [b, c];
    JoinPair(b, c);
    assert Join([a, b, c], " ") == a + " " + Join([b, c], " ");
  }

  /** The words of the rule follow one another somewhere in statement n. */
  ghost predicate HasRun(u: Unicode, g: Range, n: nat, words: seq<string>)
    requires Valid(g) && n < |Stmts(u, g)|
  {
    exists j: nat :: Stmts(u, g)[n].f <= j && Run(g.src, Toks(u, g), j, Stmts(u, g)[n].z, words)
  }

  /** The letters that are seen do not depend on whether the first one counts as having a gap in front. */
  lemma {:induction false} GoesOnFlushed(cells: seq<Cell>, k: nat, phrase: string)
    requires 0 < k
    ensures GoesOn(Flush(cells), k, phrase) == GoesOn(cells, k, phrase)
    decreases |phrase|
  {
    assert k < |cells| ==> Flush(cells)[k] == cells[k];
    if |phrase| > 1 && phrase[0] == ' ' {
      GoesOnFlushed(cells, k + 1, phrase[2..]);
    } else if phrase != "" && phrase[0] != ' ' {
      GoesOnFlushed(cells, k + 1, phrase[1..]);
    }
  }

  lemma SaysFlushed(cells: seq<Cell>, k: nat, phrase: string)
    ensures SaysAt(Flush(cells), k, phrase) == SaysAt(cells, k, phrase)
  {
    hide GoesOn;
    if phrase != "" {
      GoesOnFlushed(cells, k + 1, phrase[1..]);
    }
  }

  lemma LettersFirst(u: Unicode, cells: seq<Cell>)
    requires cells != []
    ensures Letters(u, cells) == Side(Spelled(u, cells[0].c), cells[0].gap) + Letters(u, cells[1..])
  {
  }

  lemma FlushConcat(a: seq<Cell>, b: seq<Cell>)
    requires a != []
    ensures Flush(a + b) == Flush(a) + b
  {
  }

  lemma FlushSide(s: string, gap: bool)
    requires s != ""
    ensures Side(s, gap) != [] && Flush(Side(s, gap)) == Side(s, false)
  {
  }

  lemma FlushFirst(cells: seq<Cell>)
    requires cells != []
    ensures Flush(cells) != [] && Flush(cells)[0] == Cell(cells[0].c, false) && Flush(cells)[1..] == cells[1..]
  {
  }

  lemma LettersFlushed(u: Unicode, cells: seq<Cell>)
    requires Proper(u) && Visibles(cells)
    ensures Letters(u, Flush(cells)) == Flush(Letters(u, cells))
  {
    if cells == [] {
      NoLetters(u);
    } else {
      var c := cells[0];
      UpperOfOne(u, c.c);
      hide Letters, Flush, Side, Spelled, Proper;
      FlushFirst(cells);
      LettersFirst(u, cells);
      LettersFirst(u, Flush(cells));
      FlushSide(Spelled(u, c.c), c.gap);
      FlushConcat(Side(Spelled(u, c.c), c.gap), Letters(u, cells[1..]));
    }
  }

  lemma SaidSomewhere(cells: seq<Cell>, phrase: string)
    ensures Says(cells, phrase) <==> exists k: nat :: SaysAt(cells, k, phrase)
  {
    hide SaysAt;
    forall k: nat | SaysAt(cells, k, phrase) ensures k < |cells| {
      SaysInside(cells, k, phrase);
    }
  }

  /** What the statement shows is what its tokens show. */
  lemma SeenIsSpoken(u: Unicode, g: Range, n: nat, phrase: string)
    requires Proper(u) && Valid(g) && n < |Stmts(u, g)|
    ensures
      Says(SeenAt(u, g, n), phrase) <==>
      exists k: nat :: SaysAt(Spoken(u, g.src, Toks(u, g), Stmts(u, g)[n].f, Stmts(u, g)[n].z), k, phrase)
  {
    hide Proper, Lexed, Inked, Visibles, Toks, Stmts, Letters, Visible, SaysAt, Says, Flush, Cells, Raw;
    var st := Stmts(u, g)[n];
    var visible := Visible(g.src, Toks(u, g), st.f, st.z);
    ToksLexed(u, g);
    LexedIsInked(u, g.src, Toks(u, g), g.end);
    VisibleCells(g.src, Toks(u, g), st.f, st.z);
    CellsAreVisible(Raw(g.src, Toks(u, g), st.f, st.z), false);
    LettersFlushed(u, visible);
    assert SeenAt(u, g, n) == Flush(Letters(u, visible));
    assert Spoken(u, g.src, Toks(u, g), st.f, st.z) == Letters(u, visible);
    SaidEitherWay(Letters(u, visible), phrase);
  }

  lemma SaidEitherWay(cells: seq<Cell>, phrase: string)
    ensures Says(Flush(cells), phrase) <==> exists k: nat :: SaysAt(cells, k, phrase)
  {
    SaidSomewhere(Flush(cells), phrase);
    hide SaysAt, Says, Flush;
    forall k: nat ensures SaysAt(Flush(cells), k, phrase) == SaysAt(cells, k, phrase) {
      SaysFlushed(cells, k, phrase);
    }
  }

  /** Words that follow one another in a statement are seen. */
  lemma RunIsSeen(u: Unicode, g: Range, n: nat, words: seq<string>)
    requires Proper(u) && Valid(g) && n < |Stmts(u, g)| && SolidWords(words) && HasRun(u, g, n, words)
    ensures Says(SeenAt(u, g, n), Join(words, " "))
  {
    hide Proper, Lexed, Toks, Stmts, SaysAt, Run, Join, SolidWords, Spoken, SeenAt, Place;
    var st, toks := Stmts(u, g)[n], Toks(u, g);
    ToksLexed(u, g);
    var j: nat :| st.f <= j && Run(g.src, toks, j, st.z, words);
    RunSaid(u, g.src, toks, g.end, st.f, j, st.z, words);
    SeenIsSpoken(u, g, n, Join(words, " "));
  }

  /** Among words of ASCII letters, digits and underscores, what is seen is a run of tokens. */
  lemma SeenIsRun(u: Unicode, g: Range, n: nat, words: seq<string>)
    requires Proper(u) && Valid(g) && n < |Stmts(u, g)| && SolidWords(words) && Says(SeenAt(u, g, n), Join(words, " "))
    requires PlainWords(g.src, Toks(u, g), Stmts(u, g)[n].f, Stmts(u, g)[n].z)
    ensures HasRun(u, g, n, words)
  {
    hide Proper, Lexed, Toks, Stmts, SaysAt, Run, Join, SolidWords, Spoken, SeenAt, PlainWords, Place;
    var st, toks := Stmts(u, g)[n], Toks(u, g);
    ToksLexed(u, g);
    SeenIsSpoken(u, g, n, Join(words, " "));
    var k: nat :| SaysAt(Spoken(u, g.src, toks, st.f, st.z), k, Join(words, " "));
    SolidFirst(words);
    var j := SaidByRun(u, g.src, toks, g.end, st.f, st.z, k, words);
  }

  /**
   * A statement in which the words of a rule follow one another as tokens, in any mixture of cases and with blanks or
   * comments between them, is reported on its line unless a comment lifts the rule.
   */
  lemma RunIsReported(u: Unicode, g: Range, mode: Mode, inherited: set<string>, n: nat, r: Rule)
    requires Proper(u) && Valid(g) && n < |Stmts(u, g)| && Name(r) !in Allowed(u, g, n, inherited)
    requires WordsOf(r) != [] && HasRun(u, g, n, WordsOf(r))
    ensures Violation(LineOf(g, Toks(u, g)[Stmts(u, g)[n].f].s), r) in Reports(u, g, mode, inherited)
  {
    hide Toks, Stmts, Says, SolidWords, SeenAt, Allowed, HasRun, Proper, Meant, Reports, LineOf;
    WordsAreSolid(r);
    RunIsSeen(u, g, n, WordsOf(r));
    ReportedThere(u, g, mode, inherited, n, r);
  }

  /** The same for a check that is added to a table or a domain. */
  lemma CheckIsReported(u: Unicode, g: Range, mode: Mode, inherited: set<string>, n: nat)
    requires Proper(u) && Valid(g) && n < |Stmts(u, g)| && "add-check" !in Allowed(u, g, n, inherited)
    requires HasRun(u, g, n, ["ALTER", "TABLE"]) || HasRun(u, g, n, ["ALTER", "DOMAIN"])
    requires HasRun(u, g, n, ["CHECK"])
    ensures Violation(LineOf(g, Toks(u, g)[Stmts(u, g)[n].f].s), AddCheck) in Reports(u, g, mode, inherited)
  {
    hide Toks, Stmts, Says, Join, SeenAt, Allowed, HasRun, Proper, Reports, LineOf;
    CheckWords();
    if HasRun(u, g, n, ["ALTER", "TABLE"]) {
      RunIsSeen(u, g, n, ["ALTER", "TABLE"]);
    } else {
      RunIsSeen(u, g, n, ["ALTER", "DOMAIN"]);
    }
    RunIsSeen(u, g, n, ["CHECK"]);
    ReportedThere(u, g, mode, inherited, n, AddCheck);
  }

  lemma CheckWords()
    ensures SolidWords(["ALTER", "TABLE"]) && Join(["ALTER", "TABLE"], " ") == "ALTER TABLE"
    ensures SolidWords(["ALTER", "DOMAIN"]) && Join(["ALTER", "DOMAIN"], " ") == "ALTER DOMAIN"
    ensures SolidWords(["CHECK"]) && Join(["CHECK"], " ") == "CHECK"
  {
    JoinPair("ALTER", "TABLE");
    JoinPair("ALTER", "DOMAIN");
    JoinOne("CHECK");
  }

  /**
   * In a file without DO statements whose words are plain, such a rule is reported exactly if its words follow one
   * another in some statement on which no comment lifts it.
   */
  lemma RunsExactly(u: Unicode, g: Range, r: Rule)
    requires Proper(u) && Valid(g) && WordsOf(r) != []
    requires forall n :: 0 <= n < |Stmts(u, g)| ==>
      !MeansDo(SeenAt(u, g, n)) && PlainWords(g.src, Toks(u, g), Stmts(u, g)[n].f, Stmts(u, g)[n].z)
    ensures Flags(Reports(u, g, Top, {}), r) <==>
      exists n :: 0 <= n < |Stmts(u, g)| && Name(r) !in Allowed(u, g, n, {}) && HasRun(u, g, n, WordsOf(r))
  {
    hide Toks, Stmts, Says, SolidWords, SeenAt, Allowed, HasRun, Proper, Meant, Reports, PlainWords, Flags, MeansDo;
    WordsAreSolid(r);
    FileExactly(u, g, r);
    forall n | 0 <= n < |Stmts(u, g)|
      ensures BreaksItself(u, g, Top, {}, n, r) <==> Name(r) !in Allowed(u, g, n, {}) && HasRun(u, g, n, WordsOf(r))
    {
      if HasRun(u, g, n, WordsOf(r)) {
        RunIsSeen(u, g, n, WordsOf(r));
      } else if Meant(r, SeenAt(u, g, n)) {
        SeenIsRun(u, g, n, WordsOf(r));
      }
    }
  }

  // ---------- words that are not plain ----------

  const DOLLAR_WORD := "x$drop"

  lemma {:induction false} PartsToEnd(u: Unicode, src: string, i: nat)
    requires i <= |src| && forall p :: i <= p < |src| ==> IsWordPart(u, src[p])
    ensures WordEnd(u, src, i, |src|) == |src|
    decreases |src| - i
  {
    if i < |src| {
      PartsToEnd(u, src, i + 1);
    }
  }

  lemma DollarWordToken(u: Unicode)
    ensures Toks(u, SqlQuoting.Whole(DOLLAR_WORD)) == [Tok(Word, 0, 6, 0, 0, false)]
  {
    var s, t := DOLLAR_WORD, Tok(Word, 0, 6, 0, 0, false);
    PartsToEnd(u, s, 1);
    assert Next(u, s, 0, 6, false) == t;
    LexFirst(u, s, 0, 6, false);
    LexEmpty(u, s, 6, IsE(s, t));
  }

  lemma DollarWordStatement(u: Unicode)
    ensures Stmts(u, SqlQuoting.Whole(DOLLAR_WORD)) == [Stmt(0, 0, 1)]
    ensures Allowed(u, SqlQuoting.Whole(DOLLAR_WORD), 0, {}) == {}
  {
    DollarWordToken(u);
    var g := SqlQuoting.Whole(DOLLAR_WORD);
    var toks := Toks(u, g);
    assert SplitFrom(g.src, toks, 1, 0, 0) == [Stmt(0, 0, 1)];
    assert Trailing(g.src, toks, 1) == [] && g.src[0..6] == g.src;
    assert Comments(u, g, 0) == [];
  }

  lemma DollarCells()
    ensures SaysAt(Side(DOLLAR_WORD, false), 2, "DROP")
  {
    var cells := Side(DOLLAR_WORD, false);
    assert GoesOn(cells, 6, "");
    assert "DROP"[1..][1..][1..] == "P" && "P"[1..] == "";
    assert GoesOn(cells, 5, "P");
    assert "DROP"[1..][1..] == "OP" && "OP"[1..] == "P";
    assert GoesOn(cells, 4, "OP");
    assert "DROP"[1..] == "ROP" && "ROP"[1..] == "OP";
    assert GoesOn(cells, 3, "ROP");
  }

  lemma DollarSpoken(u: Unicode, toks: seq<Tok>)
    requires toks == [Tok(Word, 0, 6, 0, 0, false)] && InText(DOLLAR_WORD, toks)
    ensures Spoken(u, DOLLAR_WORD, toks, 0, 1) == Side(DOLLAR_WORD, false)
  {
    assert DOLLAR_WORD[0..6] == DOLLAR_WORD;
    assert Visible(DOLLAR_WORD, toks, 0, 0) == [];
    assert Visible(DOLLAR_WORD, toks, 0, 1) == [] + Side(DOLLAR_WORD, false) == Side(DOLLAR_WORD, false);
    LettersOfAscii(u, DOLLAR_WORD, false);
  }

  lemma DollarWordSays(u: Unicode)
    requires Proper(u)
    ensures |Stmts(u, SqlQuoting.Whole(DOLLAR_WORD))| == 1
    ensures Says(SeenAt(u, SqlQuoting.Whole(DOLLAR_WORD), 0), "DROP")
  {
    hide Toks, Stmts, SaysAt, Spoken, Says, SeenAt;
    DollarWordToken(u);
    DollarWordStatement(u);
    DollarSpoken(u, Toks(u, SqlQuoting.Whole(DOLLAR_WORD)));
    DollarCells();
    SeenIsSpoken(u, SqlQuoting.Whole(DOLLAR_WORD), 0, "DROP");
  }

  /** Behind a dollar sign in a longer word the letters of a rule are reported although no token spells them. */
  lemma DollarWordReported(u: Unicode)
    requires Proper(u)
    ensures |Stmts(u, SqlQuoting.Whole(DOLLAR_WORD))| == 1
    ensures Flags(Reports(u, SqlQuoting.Whole(DOLLAR_WORD), Top, {}), Drop)
    ensures !HasRun(u, SqlQuoting.Whole(DOLLAR_WORD), 0, ["DROP"])
  {
    DollarWordToken(u);
    DollarWordStatement(u);
    DollarWordSays(u);
    ReportedThere(u, SqlQuoting.Whole(DOLLAR_WORD), Top, {}, 0, Drop);
  }
}
