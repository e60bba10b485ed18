/** The visible characters of a statement, read off its tokens, and the normalised text as a rendering of them. */
module SqlVisible {
  import opened Sequences
  import opened Text
  import opened SqlLexer
  import opened SqlStatements

  /** A visible character, and whether blanks or comments stand between it and the one in front of it. */
  datatype Cell = Cell(c: char, gap: bool)

  /** What is taken for granted about letters beyond ASCII. */
  ghost predicate Proper(u: Unicode) {
    && (forall c :: u.word(c) ==> !IsSpace(c))
    && (forall c :: c >= '\U{0080}' && !IsSpace(c) ==> InUpperCase(u.upper(c)))
    && (forall c :: c >= '\U{0080}' && !u.word(c) ==> forall i :: 0 <= i < |u.upper(c)| ==> u.upper(c)[i] >= '\U{0080}')
  }

  predicate InUpperCase(s: string) {
    s != "" && forall i :: 0 <= i < |s| ==> !IsSpace(s[i]) && !('a' <= s[i] <= 'z')
  }

  // ---------- what a statement shows ----------

  /** Characters side by side. */
  function Side(s: string, gap: bool): seq<Cell> {
    seq(|s|, i requires 0 <= i < |s| => Cell(s[i], gap && i == 0))
  }

  /** A literal shows its quotes only, a quoted identifier a placeholder, a dollar quote stands apart. */
  function Shown(src: string, t: Tok, gap: bool): seq<Cell>
    requires t.s <= t.e <= |src|
  {
    match t.k
    case Str => Side("''", gap)
    case Ident => Side("\"_\"", gap)
    case Dollar => Side("$$", true)
    case Word => Side(src[t.s..t.e], gap)
    case Other => Side(src[t.s..t.e], gap)
    case Semi => Side(src[t.s..t.e], gap)
    case _ => []
  }

  /** There is something between token z and what is visible before it. */
  predicate Apart(toks: seq<Tok>, f: nat, z: nat)
    requires f <= z <= |toks|
  {
    f < z && (IsTrivia(toks[z - 1].k) || toks[z - 1].k == Dollar)
  }

  function Visible(src: string, toks: seq<Tok>, f: nat, z: nat): seq<Cell>
    requires f <= z <= |toks| && InText(src, toks)
  {
    if f == z then []
    else Visible(src, toks, f, z - 1) + Shown(src, toks[z - 1], Apart(toks, f, z - 1))
  }

  /** Nothing is in front of the first one. */
  function Flush(cells: seq<Cell>): seq<Cell> {
    if cells == [] then [] else [cells[0].(gap := false)] + cells[1..]
  }

  /** A letter beyond ASCII shows as its capital letters. */
  function Spelled(u: Unicode, c: char): string {
    if c < '\U{0080}' then [c] else u.upper(c)
  }

  function Letters(u: Unicode, cells: seq<Cell>): seq<Cell> {
    if cells == [] then [] else Side(Spelled(u, cells[0].c), cells[0].gap) + Letters(u, cells[1..])
  }

  /** What the rules get to see of a statement. */
  function Seen(u: Unicode, src: string, toks: seq<Tok>, st: Stmt): seq<Cell>
    requires st.f <= st.z <= |toks| && InText(src, toks)
  {
    Letters(u, Flush(Visible(src, toks, st.f, st.z)))
  }

  // ---------- the text that shows them ----------

  function Spread(cells: seq<Cell>): string {
    if cells == [] then "" else (if cells[0].gap then " " else "") + [cells[0].c] + Spread(cells[1..])
  }

  function Capital(c: char): char {
    if 'a' <= c <= 'z' then c - 'a' + 'A' else c
  }

  function Capitals(s: string): string {
    seq(|s|, i requires 0 <= i < |s| => Capital(s[i]))
  }

  /** The characters of a text that are no blanks. */
  function Cells(s: string, gap: bool): seq<Cell> {
    if s == "" then []
    else if IsSpace(s[0]) then Cells(s[1..], true)
    else [Cell(s[0], gap)] + Cells(s[1..], false)
  }

  /** Blanks end the text, or there is no text. */
  function GapBehind(s: string, gap: bool): bool {
    if s == "" then gap else GapBehind(s[1..], IsSpace(s[0]))
  }

  function Blank(gap: bool): string { if gap then " " else "" }

  lemma CollapseNext(s: string)
    requires s != ""
    ensures IsSpace(s[0]) ==> TrimStart(s) == TrimStart(s[1..]) && Collapse(s) == " " + Collapse(TrimStart(s[1..]))
    ensures !IsSpace(s[0]) ==> TrimStart(s) == s && Collapse(s) == [s[0]] + Collapse(s[1..])
  {
  }

  lemma CellsNext(s: string, gap: bool)
    requires s != ""
    ensures GapBehind(s, gap) == GapBehind(s[1..], IsSpace(s[0]))
    ensures Spread(Cells(s, gap)) ==
      if IsSpace(s[0]) then Spread(Cells(s[1..], true)) else (Blank(gap) + [s[0]]) + Spread(Cells(s[1..], false))
  {
    if !IsSpace(s[0]) {
      var rest := Cells(s[1..], false);
      assert ([Cell(s[0], gap)] + rest)[1..] == rest;
    }
  }

  lemma NoBlankNeeded(s: string)
    ensures Blank(false) + s == s && s + Blank(false) == s
  {
  }

  /** A text without its superfluous blanks shows its other characters, and a blank if it ends in one. */
  lemma {:induction false} CollapseCells(s: string, gap: bool)
    ensures Blank(gap) + Collapse(if gap then TrimStart(s) else s) == Spread(Cells(s, gap)) + Blank(GapBehind(s, gap))
  {
    if s == "" {
      assert TrimStart(s) == "" && Collapse("") == "" && Cells(s, gap) == [];
    } else {
      hide TrimStart, Collapse, Cells, Spread, GapBehind, Blank;
      CollapseCells(s[1..], IsSpace(s[0]));
      CollapseNext(s);
      CellsNext(s, gap);
      if IsSpace(s[0]) {
        BlankIs();
        NoBlankNeeded(Collapse(s));
      } else {
        var after := Blank(GapBehind(s[1..], false));
        NoBlankNeeded(Collapse(s[1..]));
        Concat(Blank(gap), [s[0]], Collapse(s[1..]));
        Concat(Blank(gap) + [s[0]], Spread(Cells(s[1..], false)), after);
      }
    }
  }

  lemma BlankIs()
    ensures Blank(true) == " "
  {
  }

  lemma {:induction false} CellsConcat(a: string, b: string, gap: bool)
    ensures Cells(a + b, gap) == Cells(a, gap) + Cells(b, GapBehind(a, gap))
    ensures GapBehind(a + b, gap) == GapBehind(b, GapBehind(a, gap))
  {
    if a == "" {
      assert a + b == b;
    } else {
      assert (a + b)[1..] == a[1..] + b;
      CellsConcat(a[1..], b, IsSpace(a[0]));
    }
  }

  predicate NoBlank(s: string) {
    forall i :: 0 <= i < |s| ==> !IsSpace(s[i])
  }

  lemma {:induction false} CellsOfRun(s: string, gap: bool)
    requires NoBlank(s)
    ensures Cells(s, gap) == Side(s, gap)
    ensures s != "" ==> !GapBehind(s, gap)
  {
    if s != "" {
      CellsOfRun(s[1..], false);
      assert Side(s, gap) == [Cell(s[0], gap)] + Side(s[1..], false);
    }
  }

  /** Words and other characters are not empty and hold no blanks. */
  ghost predicate Inked(src: string, toks: seq<Tok>)
    requires InText(src, toks)
  {
    forall j :: 0 <= j < |toks| && toks[j].k in {Word, Other, Semi} ==>
      toks[j].s < toks[j].e && NoBlank(src[toks[j].s..toks[j].e])
  }

  lemma PieceCells(src: string, t: Tok, gap: bool)
    requires t.s <= t.e <= |src|
    requires t.k in {Word, Other, Semi} ==> t.s < t.e && NoBlank(src[t.s..t.e])
    ensures Cells(Piece(src, t), gap) == Shown(src, t, gap)
    ensures GapBehind(Piece(src, t), gap) == (IsTrivia(t.k) || t.k == Dollar)
  {
    if IsTrivia(t.k) {
      assert " "[1..] == "";
    } else if t.k == Str {
      CellsOfRun("''", gap);
    } else if t.k == Ident {
      CellsOfRun("\"_\"", gap);
    } else if t.k == Dollar {
      CellsOfDollar(gap);
    } else {
      CellsOfRun(src[t.s..t.e], gap);
    }
  }

  lemma CellsOfDollar(gap: bool)
    ensures Cells(" $$ ", gap) == Side("$$", true) && GapBehind(" $$ ", gap)
  {
    assert " $$ " == " " + ("$$" + " ");
    CellsConcat(" ", "$$" + " ", gap);
    assert " "[1..] == "";
    CellsConcat("$$", " ", true);
    CellsOfRun("$$", true);
  }

  lemma {:induction false} VisibleCells(src: string, toks: seq<Tok>, f: nat, z: nat)
    requires f <= z <= |toks| && InText(src, toks) && Inked(src, toks)
    ensures Cells(Raw(src, toks, f, z), false) == Visible(src, toks, f, z)
    ensures GapBehind(Raw(src, toks, f, z), false) == Apart(toks, f, z)
  {
    hide Cells, GapBehind, Shown, Piece, NoBlank;
    if f < z {
      VisibleCells(src, toks, f, z - 1);
      CellsConcat(Raw(src, toks, f, z - 1), Piece(src, toks[z - 1]), false);
      PieceCells(src, toks[z - 1], Apart(toks, f, z - 1));
    } else {
      NoCells();
    }
  }

  lemma NoCells()
    ensures Cells("", false) == [] && !GapBehind("", false)
  {
  }

  ghost predicate Visibles(cells: seq<Cell>) {
    forall i :: 0 <= i < |cells| ==> !IsSpace(cells[i].c)
  }

  lemma {:induction false} CellsAreVisible(s: string, gap: bool)
    ensures Visibles(Cells(s, gap))
  {
    if s != "" {
      CellsAreVisible(s[1..], IsSpace(s[0]));
    }
  }

  lemma {:induction false} SpreadEnd(cells: seq<Cell>)
    requires cells != []
    ensures Spread(cells) != "" && Spread(cells)[|Spread(cells)| - 1] == cells[|cells| - 1].c
  {
    if |cells| > 1 {
      SpreadEnd(cells[1..]);
    }
  }

  lemma TrimShown(cells: seq<Cell>, gap: bool)
    requires Visibles(cells)
    ensures Trim(Spread(cells) + Blank(gap)) == Spread(Flush(cells))
  {
    if cells == [] {
      TrimBlank(gap);
    } else {
      var text := Spread(Flush(cells));
      SpreadFlushed(cells);
      hide Spread, Flush, TrimStart, TrimEnd, Blank, IsSpace;
      Concat(Blank(cells[0].gap), text, Blank(gap));
      TrimLead(cells[0].gap, text + Blank(gap));
      TrimTail(text, gap);
    }
  }

  lemma SpreadFlushed(cells: seq<Cell>)
    requires cells != [] && Visibles(cells)
    ensures
      var text := Spread(Flush(cells));
      && text != "" && !IsSpace(text[0]) && !IsSpace(text[|text| - 1])
      && Spread(cells) == Blank(cells[0].gap) + text
  {
    var flushed := Flush(cells);
    assert flushed[1..] == cells[1..] && flushed[0].c == cells[0].c && !flushed[0].gap;
    assert flushed[|flushed| - 1].c == cells[|cells| - 1].c;
    SpreadEnd(flushed);
    SpreadFirst(flushed);
    SpreadFirst(cells);
    hide Spread, Flush, Blank, IsSpace;
    NoBlankNeeded([cells[0].c]);
    Concat(Blank(cells[0].gap), [cells[0].c], Spread(cells[1..]));
  }

  lemma SpreadFirst(cells: seq<Cell>)
    requires cells != []
    ensures Spread(cells) == (Blank(cells[0].gap) + [cells[0].c]) + Spread(cells[1..])
  {
  }

  lemma TrimBlank(gap: bool)
    ensures Trim("" + Blank(gap)) == ""
  {
    assert " "[1..] == "" && "" + Blank(gap) == Blank(gap);
  }

  lemma TrimLead(gap: bool, s: string)
    requires s != "" && !IsSpace(s[0])
    ensures TrimStart(Blank(gap) + s) == s
  {
    assert gap ==> (Blank(gap) + s)[1..] == s;
    assert !gap ==> Blank(gap) + s == s;
  }

  lemma TrimTail(s: string, gap: bool)
    requires s != "" && !IsSpace(s[|s| - 1])
    ensures TrimEnd(s + Blank(gap)) == s
  {
    assert gap ==> (s + Blank(gap))[..|s|] == s;
    assert !gap ==> s + Blank(gap) == s;
  }

  lemma {:induction false} UpperConcat(u: Unicode, a: string, b: string)
    ensures Upper(u, a + b) == Upper(u, a) + Upper(u, b)
  {
    if a == "" {
      assert a + b == b;
    } else {
      assert (a + b)[1..] == a[1..] + b;
      UpperConcat(u, a[1..], b);
    }
  }

  lemma CapitalsConcat(a: string, b: string)
    ensures Capitals(a + b) == Capitals(a) + Capitals(b)
  {
  }

  lemma {:induction false} SpreadConcat(a: seq<Cell>, b: seq<Cell>)
    ensures Spread(a + b) == Spread(a) + Spread(b)
  {
    if a == [] {
      assert a + b == b;
    } else {
      assert (a + b)[1..] == a[1..] + b;
      SpreadConcat(a[1..], b);
    }
  }

  lemma {:induction false} SpreadSide(s: string, gap: bool)
    ensures Spread(Side(s, gap)) == if s == "" then "" else Blank(gap) + s
  {
    if s != "" {
      SpreadSide(s[1..], false);
      assert Side(s, gap)[1..] == Side(s[1..], false);
      assert s == [s[0]] + s[1..];
    }
  }

  lemma UpperOfOne(u: Unicode, c: char)
    requires Proper(u) && !IsSpace(c)
    ensures Upper(u, [c]) == Capitals(Spelled(u, c)) && Spelled(u, c) != ""
    ensures Upper(u, " ") == " " == Capitals(" ") && Upper(u, "") == "" == Capitals("")
  {
    assert Upper(u, [c]) == UpperChar(u, c) + Upper(u, [c][1..]);
    assert Upper(u, " ") == UpperChar(u, ' ') + Upper(u, " "[1..]);
    if c >= '\U{0080}' {
      assert InUpperCase(u.upper(c));
    }
  }

  lemma {:induction false} UpperSpread(u: Unicode, cells: seq<Cell>)
    requires Proper(u) && Visibles(cells)
    ensures Upper(u, Spread(cells)) == Capitals(Spread(Letters(u, cells)))
  {
    hide Upper, Capitals, Side, Spelled, Proper;
    if cells == [] {
      UpperOfOne(u, 'a');
    } else {
      var c, rest := cells[0], cells[1..];
      UpperSpread(u, rest);
      UpperOfOne(u, c.c);
      var spelled := Side(Spelled(u, c.c), c.gap);
      SpreadConcat(spelled, Letters(u, rest));
      SpreadSide(Spelled(u, c.c), c.gap);
      UpperConcat(u, Blank(c.gap) + [c.c], Spread(rest));
      UpperConcat(u, Blank(c.gap), [c.c]);
      CapitalsConcat(Blank(c.gap) + Spelled(u, c.c), Spread(Letters(u, rest)));
      CapitalsConcat(Blank(c.gap), Spelled(u, c.c));
    }
  }

  /** The normalised text shows the visible characters of the statement in capitals, one blank for each gap. */
  lemma CleanedShows(u: Unicode, src: string, toks: seq<Tok>, st: Stmt)
    requires Proper(u) && st.f <= st.z <= |toks| && InText(src, toks) && Inked(src, toks)
    ensures Cleaned(u, src, toks, st) == Capitals(Spread(Seen(u, src, toks, st)))
  {
    hide Upper, Capitals, Proper, Inked, Collapse, Spread, Cells, Trim, Flush, Letters, Visibles, Raw, Visible,
      GapBehind, Apart, Blank;
    var raw, cells := Raw(src, toks, st.f, st.z), Visible(src, toks, st.f, st.z);
    VisibleCells(src, toks, st.f, st.z);
    CellsAreVisible(raw, false);
    CollapseCells(raw, false);
    NoBlankNeeded(Collapse(raw));
    TrimShown(cells, Apart(toks, st.f, st.z));
    FlushedAreVisible(cells);
    UpperSpread(u, Flush(cells));
  }

  lemma FlushedAreVisible(cells: seq<Cell>)
    requires Visibles(cells)
    ensures Visibles(Flush(cells))
  {
  }

  /** What the rules see begins without a gap and holds no blanks and no small letters beyond those of the source. */
  ghost predicate Clean(cells: seq<Cell>) {
    Visibles(cells) && (cells != [] ==> !cells[0].gap)
  }

  lemma {:induction false} LettersAreVisible(u: Unicode, cells: seq<Cell>)
    requires Proper(u) && Visibles(cells)
    ensures Visibles(Letters(u, cells))
    ensures cells != [] ==> Letters(u, cells) != [] && Letters(u, cells)[0].gap == cells[0].gap
  {
    if cells != [] {
      LettersAreVisible(u, cells[1..]);
      UpperOfOne(u, cells[0].c);
      if cells[0].c >= '\U{0080}' {
        assert InUpperCase(u.upper(cells[0].c));
      }
    }
  }

  lemma SeenIsClean(u: Unicode, src: string, toks: seq<Tok>, st: Stmt)
    requires Proper(u) && st.f <= st.z <= |toks| && InText(src, toks) && Inked(src, toks)
    ensures Clean(Seen(u, src, toks, st))
  {
    hide Proper, Letters, Inked, Visibles;
    var cells := Visible(src, toks, st.f, st.z);
    VisibleCells(src, toks, st.f, st.z);
    CellsAreVisible(Raw(src, toks, st.f, st.z), false);
    FlushedAreVisible(cells);
    LettersAreVisible(u, Flush(cells));
    if cells == [] {
      NoLetters(u);
    }
  }

  lemma NoLetters(u: Unicode)
    ensures Letters(u, []) == []
  {
  }

  // ---------- the tokens of a text ----------

  lemma {:induction false} WordEndPart(u: Unicode, src: string, i: nat, end: nat)
    requires i <= end <= |src|
    ensures forall p :: i <= p < WordEnd(u, src, i, end) ==> IsWordPart(u, src[p])
    ensures WordEnd(u, src, i, end) < end ==> !IsWordPart(u, src[WordEnd(u, src, i, end)])
    decreases end - i
  {
    if i < end && IsWordPart(u, src[i]) {
      WordEndPart(u, src, i + 1, end);
    }
  }

  /** A word is as long as possible; any other character stands alone and is neither blank nor part of a word. */
  ghost predicate Maximal(u: Unicode, src: string, t: Tok, end: nat)
    requires t.s <= t.e <= |src|
  {
    && (t.k == Word ==> t.s < t.e && IsWordStart(u, src[t.s]) && forall p :: t.s <= p < t.e ==> IsWordPart(u, src[p]))
    && (t.k == Word && t.e < end <= |src| ==> !IsWordPart(u, src[t.e]))
    && (t.k in {Other, Semi} ==> t.e == t.s + 1 && !IsSpace(src[t.s]) && !IsWordStart(u, src[t.s]))
  }

  lemma NextIsMaximal(u: Unicode, src: string, i: nat, end: nat, afterE: bool)
    requires i < end <= |src|
    ensures Maximal(u, src, Next(u, src, i, end, afterE), end)
  {
    WordEndPart(u, src, i + 1, end);
    if Opens(u, src, i, end) == Semi {
      assert src[i] == ';';
    }
  }

  lemma {:induction false} LexIsMaximal(u: Unicode, src: string, i: nat, end: nat, afterE: bool)
    requires i <= end <= |src|
    ensures InText(src, Lex(u, src, i, end, afterE))
    ensures forall t :: t in Lex(u, src, i, end, afterE) ==> Maximal(u, src, t, end)
    decreases end - i
  {
    hide Next, Maximal, IsE;
    if i < end {
      var t := Next(u, src, i, end, afterE);
      NextIsMaximal(u, src, i, end, afterE);
      LexIsMaximal(u, src, t.e, end, IsE(src, t));
    }
  }

  lemma PartsNotBlank(u: Unicode, c: char)
    requires Proper(u) && IsWordPart(u, c)
    ensures !IsSpace(c)
  {
  }

  lemma MaximalIsInked(u: Unicode, src: string, toks: seq<Tok>, end: nat)
    requires Proper(u) && InText(src, toks) && forall t :: t in toks ==> Maximal(u, src, t, end)
    ensures Inked(src, toks)
  {
    forall j | 0 <= j < |toks| && toks[j].k in {Word, Other, Semi}
      ensures toks[j].s < toks[j].e && NoBlank(src[toks[j].s..toks[j].e])
    {
      var t := toks[j];
      assert t in toks && Maximal(u, src, t, end);
      hide Proper;
      if t.k == Word {
        forall p | t.s <= p < t.e ensures !IsSpace(src[p]) {
          PartsNotBlank(u, src[p]);
        }
      }
    }
  }
}
