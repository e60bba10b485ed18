/** The rules on what a statement shows: letters in any case, and gaps. */
module SqlWords {
  import opened Sequences
  import opened Text
  import opened SqlLexer
  import opened SqlStatements
  import opened SqlRules
  import opened SqlVisible

  // ---------- phrases ----------

  /** The letters, digits and the underscore that make up words for the rules. */
  predicate InWord(c: char) {
    'A' <= c <= 'Z' || 'a' <= c <= 'z' || '0' <= c <= '9' || c == '_'
  }

  /** The character, or the same letter in small. */
  predicate Alike(c: char, capital: char) {
    c == capital || ('A' <= capital <= 'Z' && c == capital - 'A' + 'a')
  }

  predicate GapAt(cells: seq<Cell>, k: nat) { k < |cells| && cells[k].gap }

  predicate Begins(cells: seq<Cell>, k: nat)
    requires k < |cells|
  {
    k == 0 || cells[k].gap || !InWord(cells[k - 1].c)
  }

  predicate Closes(cells: seq<Cell>, k: nat) {
    k < |cells| ==> cells[k].gap || !InWord(cells[k].c)
  }

  /** From cell k on the phrase goes on, with a gap exactly where it has a blank, and its last word ends. */
  predicate GoesOn(cells: seq<Cell>, k: nat, phrase: string)
    decreases |phrase|
  {
    if phrase == "" then Closes(cells, k)
    else if phrase[0] == ' ' then
      |phrase| > 1 && GapAt(cells, k) && Alike(cells[k].c, phrase[1]) && GoesOn(cells, k + 1, phrase[2..])
    else k < |cells| && !cells[k].gap && Alike(cells[k].c, phrase[0]) && GoesOn(cells, k + 1, phrase[1..])
  }

  /** The phrase stands at cell k as whole words, in any mixture of cases. */
  predicate SaysAt(cells: seq<Cell>, k: nat, phrase: string) {
    && phrase != "" && k < |cells| && Begins(cells, k)
    && Alike(cells[k].c, phrase[0]) && GoesOn(cells, k + 1, phrase[1..])
  }

  ghost predicate Says(cells: seq<Cell>, phrase: string) {
    exists k: nat :: k < |cells| && SaysAt(cells, k, phrase)
  }

  // ---------- what the rules forbid ----------

  /** EXECUTE that is neither a privilege nor a trigger's function. */
  predicate RunsAt(cells: seq<Cell>, k: nat) {
    && SaysAt(cells, k, "EXECUTE")
    && !GoesOn(cells, k + 7, " ON") && !GoesOn(cells, k + 7, " FUNCTION") && !GoesOn(cells, k + 7, " PROCEDURE")
  }

  /** Cells [b, e) are a name without gaps behind ALTER or ALTER COLUMN at a, in front of TYPE or SET DATA TYPE. */
  ghost predicate GetsType(cells: seq<Cell>, a: nat, b: nat, e: nat) {
    && ((b == a + 5 && SaysAt(cells, a, "ALTER")) || (b == a + 11 && SaysAt(cells, a, "ALTER COLUMN")))
    && GapAt(cells, b) && !SaysAt(cells, b, "COLUMN") && !SaysAt(cells, b, "TABLE")
    && b < e < |cells| && (forall k :: b < k < e ==> !cells[k].gap) && cells[e].gap
    && (SaysAt(cells, e, "TYPE") || SaysAt(cells, e, "SET DATA TYPE"))
  }

  /** How many parentheses are open in front of cell k. */
  function Parens(cells: seq<Cell>, k: nat): int
    requires k <= |cells|
  {
    if k == 0 then 0
    else Parens(cells, k - 1) + if cells[k - 1].c == '(' then 1 else if cells[k - 1].c == ')' then -1 else 0
  }

  predicate Separates(cells: seq<Cell>, k: nat) {
    k < |cells| && cells[k].c == ',' && Parens(cells, k) == 0
  }

  /** Cells [a, b) are all between two commas outside parentheses. */
  ghost predicate Clause(cells: seq<Cell>, a: nat, b: nat) {
    && a <= b <= |cells|
    && (a == 0 || Separates(cells, a - 1)) && (b == |cells| || Separates(cells, b))
    && forall k :: a <= k < b ==> !Separates(cells, k)
  }

  /** ADD followed by a column. */
  predicate NewColumn(cells: seq<Cell>, k: nat) {
    && SaysAt(cells, k, "ADD") && GapAt(cells, k + 3)
    && !SaysAt(cells, k + 3, "CONSTRAINT") && !SaysAt(cells, k + 3, "PRIMARY") && !SaysAt(cells, k + 3, "UNIQUE")
    && !SaysAt(cells, k + 3, "CHECK") && !SaysAt(cells, k + 3, "FOREIGN") && !SaysAt(cells, k + 3, "EXCLUDE")
  }

  ghost predicate Between(cells: seq<Cell>, a: nat, b: nat, phrase: string) {
    exists k: nat :: a <= k < b && SaysAt(cells, k, phrase)
  }

  const SERIALS: set<string> :=
    { "SERIAL", "SERIAL2", "SERIAL4", "SERIAL8", "SMALLSERIAL", "SMALLSERIAL2", "SMALLSERIAL4", "SMALLSERIAL8",
      "BIGSERIAL", "BIGSERIAL2", "BIGSERIAL4", "BIGSERIAL8" }

  /** The first column a clause adds, at m, must have a value and is given none. */
  ghost predicate NeedsValue(cells: seq<Cell>, a: nat, b: nat, m: nat) {
    && Clause(cells, a, b) && a <= m < b && NewColumn(cells, m) && (forall k :: a <= k < m ==> !NewColumn(cells, k))
    && (Between(cells, m, b, "NOT NULL") || Between(cells, m, b, "PRIMARY KEY"))
    && !Between(cells, m, b, "DEFAULT") && !Between(cells, m, b, "GENERATED")
    && forall serial :: serial in SERIALS ==> !Between(cells, m, b, serial)
  }

  /** What each rule looks for. */
  ghost predicate Meant(r: Rule, cells: seq<Cell>) {
    match r
    case Drop => Says(cells, "DROP")
    case Rename => Says(cells, "RENAME")
    case AlterType => Says(cells, "ALTER TABLE") && exists a: nat, b: nat, e: nat :: GetsType(cells, a, b, e)
    case AddNotNull => Says(cells, "ALTER TABLE") && exists a: nat, b: nat, m: nat :: NeedsValue(cells, a, b, m)
    case SetNotNull => Says(cells, "SET NOT NULL")
    case AddCheck => (Says(cells, "ALTER TABLE") || Says(cells, "ALTER DOMAIN")) && Says(cells, "CHECK")
    case CreateOrReplace => Says(cells, "CREATE OR REPLACE")
    case AlterPolicy => Says(cells, "ALTER POLICY")
    case Revoke => Says(cells, "REVOKE")
    case Execute => exists k: nat :: RunsAt(cells, k)
  }

  predicate MeansDo(cells: seq<Cell>) { SaysAt(cells, 0, "DO") }

  ghost predicate MeansFunction(cells: seq<Cell>) {
    || Says(cells, "CREATE FUNCTION") || Says(cells, "CREATE PROCEDURE")
    || Says(cells, "CREATE OR REPLACE FUNCTION") || Says(cells, "CREATE OR REPLACE PROCEDURE")
  }

  // ---------- the text behind a cell ----------

  function Shows(cells: seq<Cell>): string { Capitals(Spread(cells)) }

  /** The text from cell k on, with the blank in front of it. */
  function Tail(cells: seq<Cell>, k: nat): string
    requires k <= |cells|
  {
    Shows(cells[k..])
  }

  /** Where that text begins, and where the character of the cell is. */
  function Off(cells: seq<Cell>, k: nat): nat
    requires k <= |cells|
  {
    |Spread(cells[..k])|
  }

  function At(cells: seq<Cell>, k: nat): nat
    requires k < |cells|
  {
    Off(cells, k) + if cells[k].gap then 1 else 0
  }

  lemma TextFrom(cells: seq<Cell>, k: nat)
    requires k <= |cells|
    ensures Off(cells, k) + |Tail(cells, k)| == |Shows(cells)|
    ensures Shows(cells)[Off(cells, k)..] == Tail(cells, k)
    ensures Shows(cells)[..Off(cells, k)] == Capitals(Spread(cells[..k]))
  {
    SpreadConcat(cells[..k], cells[k..]);
    CapitalsConcat(Spread(cells[..k]), Spread(cells[k..]));
    assert cells == cells[..k] + cells[k..];
  }

  lemma TailNext(cells: seq<Cell>, k: nat)
    requires k < |cells|
    ensures Tail(cells, k) == Blank(cells[k].gap) + ([Capital(cells[k].c)] + Tail(cells, k + 1))
    ensures Off(cells, k + 1) == At(cells, k) + 1
  {
    var c := cells[k];
    SpreadFirst(cells[k..]);
    assert cells[k..][1..] == cells[k + 1..];
    CapitalsConcat(Blank(c.gap) + [c.c], Spread(cells[k + 1..]));
    CapitalsConcat(Blank(c.gap), [c.c]);
    assert Capitals(Blank(c.gap)) == Blank(c.gap) && Capitals([c.c]) == [Capital(c.c)];
    OneSpread(cells, k);
    Concat(Blank(c.gap), [Capital(c.c)], Tail(cells, k + 1));
  }

  lemma OneSpread(cells: seq<Cell>, k: nat)
    requires k < |cells|
    ensures Spread(cells[..k + 1]) == Spread(cells[..k]) + (Blank(cells[k].gap) + [cells[k].c])
  {
    assert cells[..k + 1] == cells[..k] + [cells[k]];
    SpreadConcat(cells[..k], [cells[k]]);
    SpreadFirst([cells[k]]);
    assert Spread([cells[k]][1..]) == "";
  }

  lemma TailEnd(cells: seq<Cell>)
    ensures Tail(cells, |cells|) == "" && Off(cells, 0) == 0 && Off(cells, |cells|) == |Shows(cells)|
  {
    assert cells[..|cells|] == cells;
  }

  /** The character of a cell in the text, what is in front of it and what behind. */
  lemma AtCell(cells: seq<Cell>, k: nat)
    requires k < |cells|
    ensures At(cells, k) < |Shows(cells)| && Shows(cells)[At(cells, k)] == Capital(cells[k].c)
    ensures Shows(cells)[At(cells, k)..] == [Capital(cells[k].c)] + Tail(cells, k + 1)
    ensures cells[k].gap ==> At(cells, k) > 0 && Shows(cells)[At(cells, k) - 1] == ' '
  {
    hide Shows, Tail, Spread, Capital;
    TextFrom(cells, k);
    TailNext(cells, k);
    Dropped(Shows(cells), Off(cells, k), Blank(cells[k].gap), [Capital(cells[k].c)] + Tail(cells, k + 1));
  }

  lemma Dropped(s: string, off: nat, lead: string, rest: string)
    requires off <= |s| && s[off..] == lead + rest && rest != ""
    ensures off + |lead| < |s| && s[off + |lead|..] == rest && s[off + |lead|] == rest[0]
    ensures lead != "" ==> s[off] == lead[0]
  {
    assert s == s[..off] + (lead + rest);
  }

  lemma BeforeCell(cells: seq<Cell>, k: nat)
    requires k < |cells| && !cells[k].gap
    ensures k > 0 ==>
      0 < At(cells, k) <= |Shows(cells)| && Shows(cells)[At(cells, k) - 1] == Capital(cells[k - 1].c)
    ensures k == 0 ==> At(cells, k) == 0
  {
    hide Shows, Tail, Spread, Capital;
    if k > 0 {
      AtCell(cells, k - 1);
      TailNext(cells, k - 1);
    } else {
      TailEnd(cells);
    }
  }

  lemma {:induction false} OnlyCellsFrom(cells: seq<Cell>, k: nat, p: nat)
    requires k <= |cells| && Off(cells, k) <= p < |Shows(cells)| && Shows(cells)[p] != ' '
    ensures exists j: nat :: k <= j < |cells| && At(cells, j) == p
    decreases |cells| - k
  {
    hide Shows, Spread;
    TextFrom(cells, k);
    TailEnd(cells);
    if k < |cells| {
      AtCell(cells, k);
      TailNext(cells, k);
      if p > At(cells, k) {
        OnlyCellsFrom(cells, k + 1, p);
      }
    }
  }

  /** Whatever is no blank is the character of some cell. */
  lemma OnlyCells(cells: seq<Cell>, p: nat) returns (k: nat)
    requires p < |Shows(cells)| && Shows(cells)[p] != ' '
    ensures k < |cells| && At(cells, k) == p
  {
    TailEnd(cells);
    OnlyCellsFrom(cells, 0, p);
    k :| k < |cells| && At(cells, k) == p;
  }

  // ---------- phrases in the text ----------

  predicate Big(c: char) { 'A' <= c <= 'Z' || '0' <= c <= '9' }

  predicate SayableAt(phrase: string, i: nat)
    requires i < |phrase|
  {
    if phrase[i] == ' ' then i + 1 < |phrase| && phrase[i + 1] != ' ' else Big(phrase[i])
  }

  /** Capital letters and digits, with single blanks in front of some. */
  predicate Sayable(phrase: string) {
    forall i :: 0 <= i < |phrase| ==> SayableAt(phrase, i)
  }

  lemma SayableBehind(phrase: string, n: nat)
    requires Sayable(phrase) && n <= |phrase|
    ensures Sayable(phrase[n..])
    ensures phrase != "" ==> SayableAt(phrase, 0) && SayableAt(phrase, |phrase| - 1)
  {
    forall i | 0 <= i < |phrase[n..]| ensures SayableAt(phrase[n..], i) {
      assert SayableAt(phrase, n + i);
    }
  }

  predicate Phrase(phrase: string) { phrase != "" && phrase[0] != ' ' && Sayable(phrase) }

  /** The text goes on with the phrase, and no word runs on behind it. */
  predicate Leads(s: string, phrase: string) {
    phrase <= s && (|phrase| < |s| ==> !IsAsciiWord(s[|phrase|]))
  }

  lemma CharsAgree(c: char, w: char)
    requires !IsSpace(c)
    ensures Big(w) ==> (Alike(c, w) <==> Capital(c) == w)
    ensures IsAsciiWord(Capital(c)) <==> InWord(c)
    ensures Capital(c) != ' ' && !IsAsciiWord(' ')
  {
  }

  lemma LeadsNext(c: char, s: string, phrase: string)
    requires phrase != ""
    ensures Leads([c] + s, phrase) <==> phrase[0] == c && Leads(s, phrase[1..])
  {
    var t := [c] + s;
    if phrase <= t {
      assert phrase[1..] == t[1..][..|phrase| - 1];
    }
    if phrase[0] == c && phrase[1..] <= s {
      assert phrase == [c] + phrase[1..];
      assert t[..|phrase|] == phrase;
    }
    assert |phrase| < |t| ==> t[|phrase|] == s[|phrase| - 1];
  }

  lemma LeadsNothing(s: string)
    ensures Leads(s, "") <==> s == "" || !IsAsciiWord(s[0])
  {
  }

  lemma {:induction false} GoesOnIff(cells: seq<Cell>, k: nat, phrase: string)
    requires Visibles(cells) && k <= |cells| && Sayable(phrase)
    ensures GoesOn(cells, k, phrase) <==> Leads(Tail(cells, k), phrase)
    decreases |phrase|
  {
    hide Tail, Capital, Alike, IsAsciiWord, InWord, IsSpace, Leads, Sayable, Big;
    SayableBehind(phrase, 0);
    if k == |cells| {
      TailEnd(cells);
      NothingLeads(phrase);
    } else if phrase == "" {
      TailNext(cells, k);
      LeadsNothing(Tail(cells, k));
      CharsAgree(cells[k].c, 'A');
    } else {
      TailNext(cells, k);
      CharsAgree(cells[k].c, phrase[0]);
      var rest := [Capital(cells[k].c)] + Tail(cells, k + 1);
      NoBlankNeeded(rest);
      LeadsNext(Capital(cells[k].c), Tail(cells, k + 1), phrase);
      LeadsNext(' ', rest, phrase);
      if phrase[0] == ' ' {
        SayableBehind(phrase, 1);
        SayableBehind(phrase[1..], 1);
        CharsAgree(cells[k].c, phrase[1]);
        LeadsNext(Capital(cells[k].c), Tail(cells, k + 1), phrase[1..]);
        assert phrase[1..][1..] == phrase[2..];
        GoesOnIff(cells, k + 1, phrase[2..]);
      } else {
        SayableBehind(phrase, 1);
        GoesOnIff(cells, k + 1, phrase[1..]);
      }
    }
  }

  lemma NothingLeads(phrase: string)
    ensures Leads("", phrase) <==> phrase == ""
  {
  }

  lemma WordsRead(s: string, words: string, i: nat)
    requires words != "" && Big(words[|words| - 1]) && i <= |s|
    ensures WordsAt(s, words, i) <==> Leads(s[i..], words)
  {
    if words <= s[i..] {
      assert s[i..i + |words|] == words;
      assert s[i + |words| - 1] == words[|words| - 1];
    }
  }

  lemma PhraseEnds(phrase: string)
    requires Sayable(phrase) && phrase != ""
    ensures Big(phrase[|phrase| - 1]) && Big(phrase[0]) == (phrase[0] != ' ')
  {
    SayableBehind(phrase, 0);
  }

  lemma BeginsIff(cells: seq<Cell>, k: nat)
    requires Visibles(cells) && k < |cells| && InWord(cells[k].c)
    ensures At(cells, k) <= |Shows(cells)|
    ensures IsBoundary(Shows(cells), At(cells, k)) <==> Begins(cells, k)
  {
    hide Shows, At;
    AtCell(cells, k);
    CharsAgree(cells[k].c, 'A');
    if !cells[k].gap {
      BeforeCell(cells, k);
      if k > 0 {
        CharsAgree(cells[k - 1].c, 'A');
      }
    }
  }

  /** A phrase stands in the text as whole words where it stands in the cells. */
  lemma SaysIff(cells: seq<Cell>, k: nat, phrase: string)
    requires Visibles(cells) && k < |cells| && Phrase(phrase)
    ensures At(cells, k) <= |Shows(cells)|
    ensures SaysAt(cells, k, phrase) <==>
      IsBoundary(Shows(cells), At(cells, k)) && WordsAt(Shows(cells), phrase, At(cells, k))
  {
    hide Shows, At, IsBoundary, Leads, Tail, IsSpace, GoesOn, Capital, Big, WordsAt;
    AtCell(cells, k);
    PhraseEnds(phrase);
    WordsRead(Shows(cells), phrase, At(cells, k));
    LeadsNext(Capital(cells[k].c), Tail(cells, k + 1), phrase);
    CharsAgree(cells[k].c, phrase[0]);
    SayableBehind(phrase, 1);
    GoesOnIff(cells, k + 1, phrase[1..]);
    if Alike(cells[k].c, phrase[0]) {
      BigInWord(cells[k].c, phrase[0]);
      BeginsIff(cells, k);
    }
  }

  lemma BigInWord(c: char, w: char)
    requires Big(w) && Alike(c, w)
    ensures InWord(c)
  {
  }

  lemma AtPhrase(s: string, phrase: string, i: nat)
    requires phrase != "" && MatchesAt(s, phrase, i)
    ensures i < |s| && s[i] == phrase[0]
  {
    assert s[i..i + |phrase|][0] == s[i];
  }

  lemma HasIff(cells: seq<Cell>, phrase: string)
    requires Visibles(cells) && Phrase(phrase)
    ensures HasWords(Shows(cells), phrase) <==> Says(cells, phrase)
  {
    hide Shows, IsBoundary, SaysAt, At, Visibles, MatchesAt;
    var s := Shows(cells);
    if HasWords(s, phrase) {
      var i: nat :| i <= |s| && IsBoundary(s, i) && WordsAt(s, phrase, i);
      AtPhrase(s, phrase, i);
      var k := OnlyCells(cells, i);
      SaysIff(cells, k, phrase);
    }
    forall k: nat | k < |cells| && SaysAt(cells, k, phrase) ensures HasWords(s, phrase) {
      SaysIff(cells, k, phrase);
    }
  }

  lemma Phrases()
    ensures Phrase("DROP") && Phrase("RENAME") && Phrase("REVOKE") && Phrase("CHECK")
    ensures Phrase("ALTER TABLE") && Phrase("ALTER DOMAIN") && Phrase("ALTER POLICY")
    ensures Phrase("SET NOT NULL") && Phrase("CREATE OR REPLACE")
  {
  }

  lemma MorePhrases()
    ensures Phrase("CREATE FUNCTION") && Phrase("CREATE PROCEDURE")
    ensures Phrase("CREATE OR REPLACE FUNCTION") && Phrase("CREATE OR REPLACE PROCEDURE")
  {
  }
}
