/** The rule about added columns: its parts between commas are the clauses of the statement. */
module SqlColumns {
  import opened Sequences
  import opened Text
  import opened SqlLexer
  import opened SqlStatements
  import opened SqlRules
  import opened SqlVisible
  import opened SqlWords
  import opened SqlMeaning

  // ---------- parts of a text ----------

  /** [a, e) lies between two cuts or ends of the text and has none inside. */
  predicate Stretch(s: string, a: nat, e: nat) {
    && a <= e <= |s| && (e == |s| || IsCut(s, e)) && (a == 0 || IsCut(s, a - 1))
    && forall p :: a <= p < e ==> !IsCut(s, p)
  }

  lemma {:induction false} PartsAre(s: string, start: nat, i: nat, part: string)
    requires start <= i <= |s| && (start == 0 || IsCut(s, start - 1))
    requires forall p :: start <= p < i ==> !IsCut(s, p)
    ensures part in PartsFrom(s, start, i) ==>
      exists a: nat, e: nat :: start <= a <= e <= |s| && Stretch(s, a, e) && part == s[a..e]
    decreases |s| - i
  {
    hide IsCut;
    if i == |s| {
      assert Stretch(s, start, i) && s[start..i] == s[start..];
    } else if IsCut(s, i) {
      assert Stretch(s, start, i);
      PartsAre(s, i + 1, i + 1, part);
    } else {
      PartsAre(s, start, i + 1, part);
    }
  }

  lemma {:induction false} StretchIsPart(s: string, start: nat, i: nat, a: nat, e: nat)
    requires start <= i <= |s| && Stretch(s, a, e) && (a == start || i < a)
    requires forall p :: start <= p < i ==> !IsCut(s, p)
    ensures s[a..e] in PartsFrom(s, start, i)
    decreases |s| - i
  {
    hide IsCut;
    if i == |s| {
      assert s[a..e] == s[a..];
    } else if IsCut(s, i) {
      if a > start {
        StretchIsPart(s, i + 1, i + 1, a, e);
      } else {
        assert e == i;
      }
    } else {
      assert a == start || i + 1 < a;
      StretchIsPart(s, start, i + 1, a, e);
    }
  }

  // ---------- clauses ----------

  lemma {:induction false} DepthOfBlank(s: string, i: nat)
    requires i < |s| && s[i] == ' '
    ensures Depth(s, i + 1) == Depth(s, i)
  {
  }

  lemma {:induction false} DepthIsParens(cells: seq<Cell>, k: nat)
    requires Visibles(cells) && k <= |cells|
    ensures Off(cells, k) <= |Shows(cells)| && Depth(Shows(cells), Off(cells, k)) == Parens(cells, k)
  {
    hide Shows, Tail, Off, At, IsSpace;
    OffInText(cells, k);
    if k == 0 {
      TailEnd(cells);
    } else {
      DepthIsParens(cells, k - 1);
      DepthAtCell(cells, k - 1);
      TailNext(cells, k - 1);
      AtCell(cells, k - 1);
    }
  }

  lemma DepthAtCell(cells: seq<Cell>, k: nat)
    requires Visibles(cells) && k < |cells|
    ensures Off(cells, k) <= |Shows(cells)| && At(cells, k) < |Shows(cells)|
    ensures Depth(Shows(cells), At(cells, k)) == Depth(Shows(cells), Off(cells, k))
  {
    hide Shows, Tail, Off, IsSpace, Depth;
    OffInText(cells, k);
    AtCell(cells, k);
    if cells[k].gap {
      DepthOfBlank(Shows(cells), Off(cells, k));
    }
  }

  lemma CutIff(cells: seq<Cell>, k: nat)
    requires Visibles(cells) && k < |cells|
    ensures At(cells, k) < |Shows(cells)|
    ensures IsCut(Shows(cells), At(cells, k)) <==> Separates(cells, k)
  {
    hide Shows, Tail, At, Parens, Depth, IsSpace;
    AtCell(cells, k);
    DepthIsParens(cells, k);
    DepthAtCell(cells, k);
  }

  lemma CutAtCell(cells: seq<Cell>, p: nat) returns (k: nat)
    requires Visibles(cells) && p < |Shows(cells)| && IsCut(Shows(cells), p)
    ensures k < |cells| && At(cells, k) == p && Separates(cells, k)
  {
    hide Shows, At, Separates;
    k := OnlyCells(cells, p);
    CutIff(cells, k);
  }

  lemma {:induction false} InOrderOf(cells: seq<Cell>, j: nat, k: nat)
    requires j < k <= |cells|
    ensures At(cells, j) < Off(cells, k) && (k < |cells| ==> At(cells, j) < At(cells, k))
    decreases k
  {
    hide Tail;
    TailNext(cells, j);
    if j + 1 < k {
      InOrderOf(cells, j, k - 1);
      TailNext(cells, k - 1);
    }
  }

  /** Where the text of a clause ends. */
  function EndOf(cells: seq<Cell>, b: nat): nat
    requires b <= |cells|
  {
    if b == |cells| then |Shows(cells)| else At(cells, b)
  }

  lemma StretchOfClause(cells: seq<Cell>, a: nat, b: nat)
    requires Visibles(cells) && Clause(cells, a, b)
    ensures Stretch(Shows(cells), Off(cells, a), EndOf(cells, b))
  {
    hide Shows, IsCut, Separates, Parens, Tail, Off, IsSpace;
    var s := Shows(cells);
    TailEnd(cells);
    TextFrom(cells, a);
    if a > 0 {
      CutIff(cells, a - 1);
      TailNext(cells, a - 1);
    }
    EndAfter(cells, a, b);
    if b < |cells| {
      CutIff(cells, b);
    }
    forall p | Off(cells, a) <= p < EndOf(cells, b) ensures !IsCut(s, p) {
      if IsCut(s, p) {
        var k := CutAtCell(cells, p);
        CellInside(cells, a, b, k);
      }
    }
  }

  lemma EndAfter(cells: seq<Cell>, a: nat, b: nat)
    requires a <= b <= |cells|
    ensures Off(cells, a) <= EndOf(cells, b) <= |Shows(cells)|
  {
    hide Shows, Tail;
    TextFrom(cells, a);
    if b < |cells| {
      AtCell(cells, b);
      if a < b {
        InOrderOf(cells, a, b);
      }
    }
  }

  /** A cell lies in a clause if its character lies in the text of the clause. */
  lemma CellInside(cells: seq<Cell>, a: nat, b: nat, k: nat)
    requires a <= b <= |cells| && k < |cells|
    ensures Off(cells, a) <= At(cells, k) < EndOf(cells, b) <==> a <= k < b
  {
    hide Shows, Tail, Spread;
    AtCell(cells, k);
    if k < a {
      InOrderOf(cells, k, a);
    } else if a < k {
      InOrderOf(cells, a, k);
    }
    if b < |cells| {
      if k < b {
        InOrderOf(cells, k, b);
      } else if b < k {
        InOrderOf(cells, b, k);
      }
    }
  }

  lemma ClauseOfStretch(cells: seq<Cell>, s: nat, e: nat) returns (a: nat, b: nat)
    requires Visibles(cells) && Stretch(Shows(cells), s, e)
    ensures Clause(cells, a, b) && s == Off(cells, a) && e == EndOf(cells, b)
  {
    hide Shows, IsCut, Separates, Parens, Tail, Off, IsSpace;
    TailEnd(cells);
    a := 0;
    if s > 0 {
      var k := CutAtCell(cells, s - 1);
      TailNext(cells, k);
      a := k + 1;
    }
    b := |cells|;
    if e < |Shows(cells)| {
      b := CutAtCell(cells, e);
    }
    if b < a {
      InOrderOf(cells, b, a);
      AtCell(cells, b);
      OffInText(cells, a);
    }
    forall k | a <= k < b ensures !Separates(cells, k) {
      CutIff(cells, k);
      CellInside(cells, a, b, k);
    }
  }

  lemma OffInText(cells: seq<Cell>, k: nat)
    requires k <= |cells|
    ensures Off(cells, k) <= |Shows(cells)|
  {
    TextFrom(cells, k);
  }

  // ---------- inside a part ----------

  /** No word reaches across the ends of the stretch [a, e). */
  predicate Borders(s: string, a: nat, e: nat) {
    a <= e <= |s| && (a == 0 || !IsAsciiWord(s[a - 1])) && (e == |s| || s[e] == ',')
  }

  predicate NoComma(words: string) { forall i :: 0 <= i < |words| ==> words[i] != ',' }

  lemma SliceOfSlice(s: string, a: nat, e: nat, i: nat, j: nat)
    requires a <= e <= |s| && i <= j <= e - a
    ensures s[a..e][i..j] == s[a + i..a + j]
  {
    forall k | 0 <= k < j - i ensures s[a..e][i..j][k] == s[a + i..a + j][k] {
    }
  }

  lemma MatchChars(s: string, words: string, p: nat)
    requires MatchesAt(s, words, p)
    ensures forall q :: p <= q < p + |words| ==> s[q] == words[q - p]
  {
    forall q | p <= q < p + |words| ensures s[q] == words[q - p] {
      assert s[p..p + |words|][q - p] == s[q];
    }
  }

  lemma MatchInside(s: string, a: nat, e: nat, words: string, i: nat)
    requires Borders(s, a, e) && words != "" && NoComma(words) && i <= e - a
    ensures MatchesAt(s[a..e], words, i) <==> MatchesAt(s, words, a + i)
  {
    if MatchesAt(s, words, a + i) {
      MatchChars(s, words, a + i);
    }
    if i + |words| <= e - a {
      SliceOfSlice(s, a, e, i, i + |words|);
    }
  }

  lemma BoundaryInside(s: string, a: nat, e: nat, i: nat)
    requires Borders(s, a, e) && i <= e - a
    ensures IsBoundary(s[a..e], i) <==> IsBoundary(s, a + i)
  {
    var part := s[a..e];
    assert i > 0 ==> part[i - 1] == s[a + i - 1];
    assert i < |part| ==> part[i] == s[a + i];
    assert !IsAsciiWord(',');
  }

  lemma WordsInside(s: string, a: nat, e: nat, words: string, i: nat)
    requires Borders(s, a, e) && words != "" && NoComma(words) && i <= e - a
    ensures WordsAt(s[a..e], words, i) <==> WordsAt(s, words, a + i)
  {
    hide IsBoundary, NoComma;
    MatchInside(s, a, e, words, i);
    if MatchesAt(s[a..e], words, i) {
      BoundaryInside(s, a, e, i + |words|);
    }
  }

  lemma SayableNoComma(words: string)
    requires Sayable(words)
    ensures NoComma(words)
  {
    forall i | 0 <= i < |words| ensures words[i] != ',' {
      assert SayableAt(words, i);
    }
  }

  lemma ColumnWords()
    ensures Solid("ADD") && "ADD " == "ADD" + " " && NoComma("ADD ")
    ensures Phrase("CONSTRAINT") && Phrase("PRIMARY") && Phrase("UNIQUE") && Phrase("CHECK") && Phrase("FOREIGN")
    ensures Phrase("EXCLUDE")
  {
  }

  lemma AddInside(s: string, a: nat, e: nat, i: nat)
    requires Borders(s, a, e) && i <= e - a
    ensures AddsAt(s[a..e], i) <==> AddsAt(s, a + i)
  {
    hide IsBoundary, NoComma, MatchesAt, WordsAt, Phrase;
    ColumnWords();
    MatchInside(s, a, e, "ADD ", i);
    BoundaryInside(s, a, e, i);
    if MatchesAt(s, "ADD ", a + i) && MatchesAt(s[a..e], "ADD ", i) {
      AddFits(s[a..e], i);
      PhraseInside(s, a, e, "CONSTRAINT", i + 4);
      PhraseInside(s, a, e, "PRIMARY", i + 4);
      PhraseInside(s, a, e, "UNIQUE", i + 4);
      PhraseInside(s, a, e, "CHECK", i + 4);
      PhraseInside(s, a, e, "FOREIGN", i + 4);
      PhraseInside(s, a, e, "EXCLUDE", i + 4);
    }
  }

  lemma AddFits(s: string, i: nat)
    requires MatchesAt(s, "ADD ", i)
    ensures i + 4 <= |s|
  {
  }

  lemma PhraseInside(s: string, a: nat, e: nat, phrase: string, i: nat)
    requires Borders(s, a, e) && Phrase(phrase) && i <= e - a
    ensures WordsAt(s[a..e], phrase, i) <==> WordsAt(s, phrase, a + i)
  {
    SayableNoComma(phrase);
    WordsInside(s, a, e, phrase, i);
  }

  lemma AddIff(cells: seq<Cell>, k: nat)
    requires Visibles(cells) && k < |cells|
    ensures At(cells, k) <= |Shows(cells)|
    ensures AddsAt(Shows(cells), At(cells, k)) <==> NewColumn(cells, k)
  {
    hide IsBoundary, MatchesAt, WordsAt, Phrase, Shows, SaysAt, GapAt, Solid, Visibles, At;
    ColumnWords();
    WordAndGap(cells, k, "ADD");
    if SaysAt(cells, k, "ADD") && GapAt(cells, k + 3) {
      SaysBehindGap(cells, k + 3, "CONSTRAINT");
      SaysBehindGap(cells, k + 3, "PRIMARY");
      SaysBehindGap(cells, k + 3, "UNIQUE");
      SaysBehindGap(cells, k + 3, "CHECK");
      SaysBehindGap(cells, k + 3, "FOREIGN");
      SaysBehindGap(cells, k + 3, "EXCLUDE");
    }
  }

  lemma AddAtCell(cells: seq<Cell>, p: nat) returns (k: nat)
    requires Visibles(cells) && p <= |Shows(cells)| && AddsAt(Shows(cells), p)
    ensures k < |cells| && At(cells, k) == p && NewColumn(cells, k)
  {
    hide Shows, WordsAt, Visibles, NewColumn, At;
    k := PhraseAtCell(cells, "ADD ", p);
    AddIff(cells, k);
  }

  lemma {:induction false} FirstAddIs(part: string, i: nat)
    requires i <= |part|
    ensures FirstAdd(part, i) < |part| ==> AddsAt(part, FirstAdd(part, i))
    ensures forall p :: i <= p < FirstAdd(part, i) ==> !AddsAt(part, p)
    decreases |part| - i
  {
    hide AddsAt;
    if i < |part| && !AddsAt(part, i) {
      FirstAddIs(part, i + 1);
    }
  }

  // ---------- the words behind the new column ----------

  lemma {:induction false} HasInside(cells: seq<Cell>, m: nat, b: nat, phrase: string)
    requires Visibles(cells) && m < b <= |cells| && Phrase(phrase)
    requires At(cells, m) <= EndOf(cells, b) && Borders(Shows(cells), At(cells, m), EndOf(cells, b))
    ensures HasWords(Shows(cells)[At(cells, m)..EndOf(cells, b)], phrase) <==> Between(cells, m, b, phrase)
  {
    hide Shows, Visibles, Phrase, IsBoundary, Borders, WordsAt, SaysAt, At, EndOf;
    var s, a, e := Shows(cells), At(cells, m), EndOf(cells, b);
    EndInText(cells, b);
    if HasWords(s[a..e], phrase) {
      var i: nat :| i <= |s[a..e]| && IsBoundary(s[a..e], i) && WordsAt(s[a..e], phrase, i);
      PhraseInside(s, a, e, phrase, i);
      BoundaryInside(s, a, e, i);
      WordsMatch(s[a..e], phrase, i);
      WordsMatch(s, phrase, a + i);
      var k := PhraseAtCell(cells, phrase, a + i);
      SaysIff(cells, k, phrase);
      CellBehind(cells, m, b, k);
    }
    forall k: nat | m <= k < b && SaysAt(cells, k, phrase) ensures HasWords(s[a..e], phrase) {
      SaysIff(cells, k, phrase);
      CellBehind(cells, m, b, k);
      PhraseInside(s, a, e, phrase, At(cells, k) - a);
      BoundaryInside(s, a, e, At(cells, k) - a);
    }
  }

  lemma EndInText(cells: seq<Cell>, b: nat)
    requires b <= |cells|
    ensures EndOf(cells, b) <= |Shows(cells)|
  {
    if b < |cells| {
      AtCell(cells, b);
    }
  }

  lemma WordsMatch(s: string, phrase: string, i: nat)
    requires Phrase(phrase) && WordsAt(s, phrase, i)
    ensures MatchesAt(s, phrase, i) && i < |s| && phrase != "" && phrase[0] != ' '
  {
    AtPhrase(s, phrase, i);
  }

  lemma CellBehind(cells: seq<Cell>, m: nat, b: nat, k: nat)
    requires m < b <= |cells| && k < |cells|
    ensures At(cells, m) <= At(cells, k) < EndOf(cells, b) <==> m <= k < b
  {
    hide Shows, At, Off;
    CellInside(cells, 0, b, k);
    TailEnd(cells);
    if k < m {
      InOrderOf(cells, k, m);
    } else if m < k {
      InOrderOf(cells, m, k);
    }
  }

  // ---------- the rule ----------

  lemma SerialWords()
    ensures Solid("SMALL") && Solid("BIG") && Solid("SERIAL") && Solid("2") && Solid("4") && Solid("8")
  {
  }

  lemma SolidConcat(a: string, b: string)
    requires Solid(a) && Solid(b)
    ensures Solid(a + b)
  {
    forall i | 0 <= i < |a + b| ensures Big((a + b)[i]) {
      assert (a + b)[i] == if i < |a| then a[i] else b[i - |a|];
    }
  }

  predicate Serial(size: string, width: string) {
    size in ["", "SMALL", "BIG"] && width in ["", "2", "4", "8"]
  }

  lemma SerialIsPhrase(size: string, width: string)
    requires Serial(size, width)
    ensures Phrase(size + "SERIAL" + width)
  {
    SerialWords();
    SolidConcat(size, "SERIAL");
    SolidConcat(size + "SERIAL", width);
    SolidPhrase(size + "SERIAL" + width);
  }

  lemma SerialListed(size: string, width: string)
    requires Serial(size, width)
    ensures size + "SERIAL" + width in SERIALS
  {
    SerialNames();
  }

  lemma ListedIsSerial(serial: string)
    requires serial in SERIALS
    ensures exists size, width :: Serial(size, width) && serial == size + "SERIAL" + width
  {
    SerialNames();
    if serial == "SERIAL" { assert Serial("", ""); }
    if serial == "SERIAL2" { assert Serial("", "2"); }
    if serial == "SERIAL4" { assert Serial("", "4"); }
    if serial == "SERIAL8" { assert Serial("", "8"); }
    if serial == "SMALLSERIAL" { assert Serial("SMALL", ""); }
    if serial == "SMALLSERIAL2" { assert Serial("SMALL", "2"); }
    if serial == "SMALLSERIAL4" { assert Serial("SMALL", "4"); }
    if serial == "SMALLSERIAL8" { assert Serial("SMALL", "8"); }
    if serial == "BIGSERIAL" { assert Serial("BIG", ""); }
    if serial == "BIGSERIAL2" { assert Serial("BIG", "2"); }
    if serial == "BIGSERIAL4" { assert Serial("BIG", "4"); }
    if serial == "BIGSERIAL8" { assert Serial("BIG", "8"); }
  }

  lemma SerialNames()
    ensures "SERIAL" == "" + "SERIAL" + "" && "SERIAL2" == "" + "SERIAL" + "2"
    ensures "SERIAL4" == "" + "SERIAL" + "4" && "SERIAL8" == "" + "SERIAL" + "8"
    ensures "SMALLSERIAL" == "SMALL" + "SERIAL" + "" && "SMALLSERIAL2" == "SMALL" + "SERIAL" + "2"
    ensures "SMALLSERIAL4" == "SMALL" + "SERIAL" + "4" && "SMALLSERIAL8" == "SMALL" + "SERIAL" + "8"
    ensures "BIGSERIAL" == "BIG" + "SERIAL" + "" && "BIGSERIAL2" == "BIG" + "SERIAL" + "2"
    ensures "BIGSERIAL4" == "BIG" + "SERIAL" + "4" && "BIGSERIAL8" == "BIG" + "SERIAL" + "8"
  {
  }

  ghost predicate NoSerial(cells: seq<Cell>, m: nat, b: nat) {
    forall serial :: serial in SERIALS ==> !Between(cells, m, b, serial)
  }

  ghost predicate ColumnText(cells: seq<Cell>, m: nat, b: nat, col: string)
    requires m < b <= |cells|
  {
    At(cells, m) <= EndOf(cells, b) <= |Shows(cells)| && Borders(Shows(cells), At(cells, m), EndOf(cells, b))
    && col == Shows(cells)[At(cells, m)..EndOf(cells, b)]
  }

  lemma PhraseInColumn(cells: seq<Cell>, m: nat, b: nat, col: string, phrase: string)
    requires Visibles(cells) && m < b <= |cells| && ColumnText(cells, m, b, col) && Phrase(phrase)
    ensures HasWords(col, phrase) <==> Between(cells, m, b, phrase)
  {
    hide HasWords, Between, Borders, Phrase, Shows, At, EndOf, Visibles;
    HasInside(cells, m, b, phrase);
  }

  lemma SerialInside(cells: seq<Cell>, m: nat, b: nat, col: string)
    requires Visibles(cells) && m < b <= |cells| && ColumnText(cells, m, b, col)
    ensures HasSerial(col) <==> !NoSerial(cells, m, b)
  {
    hide HasWords, Between, ColumnText, Phrase, SERIALS, Visibles;
    if HasSerial(col) {
      var size, width :| Serial(size, width) && HasWords(col, size + "SERIAL" + width);
      SerialIsPhrase(size, width);
      SerialListed(size, width);
      PhraseInColumn(cells, m, b, col, size + "SERIAL" + width);
    }
    forall serial | serial in SERIALS && Between(cells, m, b, serial) ensures HasSerial(col) {
      ListedIsSerial(serial);
      var size, width :| Serial(size, width) && serial == size + "SERIAL" + width;
      SerialIsPhrase(size, width);
      PhraseInColumn(cells, m, b, col, serial);
    }
  }

  lemma NullWords()
    ensures Phrase("NOT NULL") && Phrase("PRIMARY KEY") && Phrase("DEFAULT") && Phrase("GENERATED")
  {
  }

  predicate ColumnNeedsValue(col: string) {
    && (HasWords(col, "NOT NULL") || HasWords(col, "PRIMARY KEY"))
    && !HasWords(col, "DEFAULT") && !HasWords(col, "GENERATED") && !HasSerial(col)
  }

  ghost predicate CellsNeedValue(cells: seq<Cell>, m: nat, b: nat) {
    && (Between(cells, m, b, "NOT NULL") || Between(cells, m, b, "PRIMARY KEY"))
    && !Between(cells, m, b, "DEFAULT") && !Between(cells, m, b, "GENERATED") && NoSerial(cells, m, b)
  }

  lemma ColumnIff(cells: seq<Cell>, m: nat, b: nat, col: string)
    requires Visibles(cells) && m < b <= |cells| && ColumnText(cells, m, b, col)
    ensures ColumnNeedsValue(col) <==> CellsNeedValue(cells, m, b)
  {
    hide HasWords, Between, ColumnText, Phrase, NoSerial, Visibles, HasSerial;
    NullWords();
    PhraseInColumn(cells, m, b, col, "NOT NULL");
    PhraseInColumn(cells, m, b, col, "PRIMARY KEY");
    PhraseInColumn(cells, m, b, col, "DEFAULT");
    PhraseInColumn(cells, m, b, col, "GENERATED");
    SerialInside(cells, m, b, col);
  }

  /** The text of a clause has the borders of a part. */
  lemma ClauseBorders(s: string, a: nat, e: nat)
    requires Stretch(s, a, e)
    ensures Borders(s, a, e)
  {
    assert !IsAsciiWord(',');
  }

  lemma AddBorders(s: string, a: nat, e: nat, p: nat)
    requires Borders(s, a, e) && a <= p < e && AddsAt(s, p)
    ensures Borders(s, p, e)
  {
    assert s[p..p + 4][0] == s[p];
    assert IsAsciiWord('A');
  }

  /** In the text of a clause the first addition is where the first new column of the clause is. */
  lemma PartNeedsValue(cells: seq<Cell>, a: nat, b: nat, part: string) returns (m: nat)
    requires Visibles(cells) && Clause(cells, a, b)
    requires Off(cells, a) <= EndOf(cells, b) <= |Shows(cells)|
    requires part == Shows(cells)[Off(cells, a)..EndOf(cells, b)] && AddsRequiredColumn(part)
    ensures NeedsValue(cells, a, b, m)
  {
    hide Shows, Off, EndOf, At, Visibles, Separates, AddsAt, NewColumn, HasWords, HasSerial, Between, Borders;
    var s, from, e := Shows(cells), Off(cells, a), EndOf(cells, b);
    var f := FirstAdd(part, 0);
    FirstAddIs(part, 0);
    StretchOfClause(cells, a, b);
    ClauseBorders(s, from, e);
    AddInside(s, from, e, f);
    m := AddAtCell(cells, from + f);
    CellInside(cells, a, b, m);
    AddBorders(s, from, e, from + f);
    Behind(s, from, e, f);
    ColumnIff(cells, m, b, part[f..]);
    forall k | a <= k < m ensures !NewColumn(cells, k) {
      InOrderOf(cells, k, m);
      CellInside(cells, a, b, k);
      AddInside(s, from, e, At(cells, k) - from);
      AddIff(cells, k);
    }
    NeedsGathered(cells, a, b, m);
  }

  lemma NeedsGathered(cells: seq<Cell>, a: nat, b: nat, m: nat)
    requires Clause(cells, a, b) && a <= m < b && NewColumn(cells, m) && CellsNeedValue(cells, m, b)
    requires forall k :: a <= k < m ==> !NewColumn(cells, k)
    ensures NeedsValue(cells, a, b, m)
  {
    hide Between, NewColumn, Clause;
  }

  lemma NeedsScattered(cells: seq<Cell>, a: nat, b: nat, m: nat)
    requires NeedsValue(cells, a, b, m)
    ensures Clause(cells, a, b) && a <= m < b <= |cells| && NewColumn(cells, m) && CellsNeedValue(cells, m, b)
    ensures forall k :: a <= k < m ==> !NewColumn(cells, k)
  {
    hide Between, NewColumn, Separates;
  }

  lemma ClauseNeedsValue(cells: seq<Cell>, a: nat, b: nat, m: nat)
    requires Visibles(cells) && NeedsValue(cells, a, b, m)
    ensures a <= m < b <= |cells| && Off(cells, a) <= EndOf(cells, b) <= |Shows(cells)|
    ensures AddsRequiredColumn(Shows(cells)[Off(cells, a)..EndOf(cells, b)])
    ensures Stretch(Shows(cells), Off(cells, a), EndOf(cells, b))
  {
    hide *;
    NeedsScattered(cells, a, b, m);
    var s, from, e := Shows(cells), Off(cells, a), EndOf(cells, b);
    StretchOfClause(cells, a, b);
    EndAfterClause(cells, a, b);
    ClauseBorders(s, from, e);
    CellInside(cells, a, b, m);
    var f := At(cells, m) - from;
    FirstAddAt(cells, a, b, m, s[from..e]);
    AddIff(cells, m);
    AddBorders(s, from, e, from + f);
    Behind(s, from, e, f);
    ColumnHere(cells, m, b, s[from..e][f..]);
    ColumnIff(cells, m, b, s[from..e][f..]);
    RequiredGathered(s[from..e], f);
  }

  lemma Behind(s: string, a: nat, e: nat, f: nat)
    requires a <= e <= |s| && f <= e - a
    ensures s[a..e][f..] == s[a + f..e]
  {
    SliceOfSlice(s, a, e, f, e - a);
    assert s[a..e][f..] == s[a..e][f..e - a];
  }

  lemma ColumnHere(cells: seq<Cell>, m: nat, b: nat, col: string)
    requires m < b <= |cells| && At(cells, m) <= EndOf(cells, b) <= |Shows(cells)|
    requires Borders(Shows(cells), At(cells, m), EndOf(cells, b))
    requires col == Shows(cells)[At(cells, m)..EndOf(cells, b)]
    ensures ColumnText(cells, m, b, col)
  {
  }

  lemma RequiredGathered(part: string, f: nat)
    requires f < |part| && FirstAdd(part, 0) == f && ColumnNeedsValue(part[f..])
    ensures AddsRequiredColumn(part)
  {
    hide HasWords, HasSerial;
  }

  lemma FirstAddAt(cells: seq<Cell>, a: nat, b: nat, m: nat, part: string)
    requires Visibles(cells) && a <= m < b <= |cells| && NewColumn(cells, m)
    requires forall k :: a <= k < m ==> !NewColumn(cells, k)
    requires Off(cells, a) <= At(cells, m) < EndOf(cells, b) <= |Shows(cells)|
    requires Borders(Shows(cells), Off(cells, a), EndOf(cells, b))
    requires part == Shows(cells)[Off(cells, a)..EndOf(cells, b)]
    ensures FirstAdd(part, 0) == At(cells, m) - Off(cells, a)
  {
    hide Shows, Off, EndOf, At, Visibles, AddsAt, NewColumn, Borders;
    var s, from, e := Shows(cells), Off(cells, a), EndOf(cells, b);
    AddIff(cells, m);
    var f := At(cells, m) - from;
    AddInside(s, from, e, f);
    FirstAddReached(part, 0, f);
    var g := FirstAdd(part, 0);
    FirstAddIs(part, 0);
    AddInside(s, from, e, g);
    var k := AddAtCell(cells, from + g);
    CellInside(cells, a, b, k);
    if m < k {
      InOrderOf(cells, m, k);
    }
  }

  lemma {:induction false} FirstAddReached(part: string, i: nat, p: nat)
    requires i <= p < |part| && AddsAt(part, p)
    ensures FirstAdd(part, i) <= p
    decreases p - i
  {
    hide AddsAt;
    if i < p {
      FirstAddReached(part, i + 1, p);
    }
  }

  lemma ColumnsIff(cells: seq<Cell>)
    requires Visibles(cells)
    ensures (exists part :: part in PartsFrom(Shows(cells), 0, 0) && AddsRequiredColumn(part)) <==>
      exists a: nat, b: nat, m: nat :: NeedsValue(cells, a, b, m)
  {
    hide Shows, AddsRequiredColumn, NeedsValue, Visibles, Stretch, Off, EndOf;
    var s := Shows(cells);
    forall part | part in PartsFrom(s, 0, 0) && AddsRequiredColumn(part)
      ensures exists a: nat, b: nat, m: nat :: NeedsValue(cells, a, b, m)
    {
      PartsAre(s, 0, 0, part);
      var from: nat, e: nat :| Stretch(s, from, e) && from <= e <= |s| && part == s[from..e];
      var a, b := ClauseOfStretch(cells, from, e);
      EndAfterClause(cells, a, b);
      var m := PartNeedsValue(cells, a, b, part);
    }
    forall a: nat, b: nat, m: nat | NeedsValue(cells, a, b, m)
      ensures exists part :: part in PartsFrom(s, 0, 0) && AddsRequiredColumn(part)
    {
      ClauseNeedsValue(cells, a, b, m);
      StartOrBehind(s, Off(cells, a), EndOf(cells, b));
    }
  }

  lemma EndAfterClause(cells: seq<Cell>, a: nat, b: nat)
    requires Clause(cells, a, b)
    ensures Off(cells, a) <= EndOf(cells, b) <= |Shows(cells)|
  {
    EndAfter(cells, a, b);
  }

  lemma StartOrBehind(s: string, a: nat, e: nat)
    requires Stretch(s, a, e)
    ensures s[a..e] in PartsFrom(s, 0, 0)
  {
    StretchIsPart(s, 0, 0, a, e);
  }

  // ---------- all rules ----------

  /** The test of a rule on the normalised text holds exactly if the statement shows what the rule looks for. */
  lemma TestMeans(r: Rule, cells: seq<Cell>)
    requires Visibles(cells)
    ensures Test(r, Shows(cells)) <==> Meant(r, cells)
  {
    hide Shows, HasWords, Says, Visibles, Phrase, NeedsValue, GetsType, ChangesType, HasExecute, RunsAt, PartsFrom,
      AddsRequiredColumn;
    Phrases();
    HasIff(cells, "DROP");
    HasIff(cells, "RENAME");
    HasIff(cells, "REVOKE");
    HasIff(cells, "CHECK");
    HasIff(cells, "ALTER TABLE");
    HasIff(cells, "ALTER DOMAIN");
    HasIff(cells, "ALTER POLICY");
    HasIff(cells, "SET NOT NULL");
    HasIff(cells, "CREATE OR REPLACE");
    ChangesTypeIff(cells);
    ExecuteIff(cells);
    ColumnsIff(cells);
  }

  lemma DoMeans(cells: seq<Cell>)
    requires Clean(cells)
    ensures IsDo(Shows(cells)) <==> MeansDo(cells)
    ensures CreatesFunction(Shows(cells)) <==> MeansFunction(cells)
  {
    hide Shows, HasWords, Says, WordsAt, SaysAt, Phrase, At, Visibles;
    MorePhrases();
    HasIff(cells, "CREATE FUNCTION");
    HasIff(cells, "CREATE PROCEDURE");
    HasIff(cells, "CREATE OR REPLACE FUNCTION");
    HasIff(cells, "CREATE OR REPLACE PROCEDURE");
    if cells == [] {
      NothingSaid(cells);
    } else {
      assert Phrase("DO") by { DoIsPhrase(); }
      SaysIff(cells, 0, "DO");
      BeforeCell(cells, 0);
      StartsDo(Shows(cells));
    }
  }

  lemma DoIsPhrase()
    ensures Phrase("DO")
  {
  }

  lemma NothingSaid(cells: seq<Cell>)
    requires cells == []
    ensures !SaysAt(cells, 0, "DO") && !WordsAt(Shows(cells), "DO", 0)
  {
  }

  lemma StartsDo(s: string)
    ensures WordsAt(s, "DO", 0) ==> IsBoundary(s, 0)
  {
    if MatchesAt(s, "DO", 0) {
      AtPhrase(s, "DO", 0);
    }
  }
}
