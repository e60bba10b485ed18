/** A phrase is seen exactly where its words follow one another as tokens, separated by blanks and comments. */
module SqlTokens {
  import opened Sequences
  import opened Text
  import opened SqlLexer
  import opened SqlStatements
  import opened SqlVisible
  import opened SqlWords
  import opened SqlMeaning

  /** The tokens of a text that ends at end: they adjoin, and words are as long as possible. */
  ghost predicate Lexed(u: Unicode, src: string, toks: seq<Tok>, end: nat) {
    && end <= |src| && InText(src, toks)
    && (forall j :: 0 <= j < |toks| ==> toks[j].s < toks[j].e <= end && Maximal(u, src, toks[j], end))
    && (forall j :: 0 <= j < |toks| - 1 ==> toks[j].e == toks[j + 1].s)
  }

  function TextOf(src: string, t: Tok): string
    requires t.s <= t.e <= |src|
  {
    src[t.s..t.e]
  }

  /** The same letters in any mixture of cases. */
  predicate Spells(text: string, word: string) {
    |text| == |word| && forall i :: 0 <= i < |text| ==> Alike(text[i], word[i])
  }

  ghost predicate OnlyTrivia(toks: seq<Tok>, i: nat, j: nat)
    requires j <= |toks|
  {
    forall k :: i <= k < j ==> IsTrivia(toks[k].k)
  }

  /** From token j on, before token z, the words follow one another. */
  ghost predicate Run(src: string, toks: seq<Tok>, j: nat, z: nat, words: seq<string>)
    requires z <= |toks| && InText(src, toks)
    decreases |words|
  {
    && words != [] && j < z && toks[j].k == Word && Spells(TextOf(src, toks[j]), words[0])
    && (|words| == 1 ||
        exists i: nat :: j + 1 < i < z && OnlyTrivia(toks, j + 1, i) && Run(src, toks, i, z, words[1..]))
  }

  /** The words among tokens [f, z) consist of ASCII letters, digits and underscores. */
  ghost predicate PlainWords(src: string, toks: seq<Tok>, f: nat, z: nat)
    requires f <= z <= |toks| && InText(src, toks)
  {
    forall j :: f <= j < z && toks[j].k == Word ==> AllInWord(TextOf(src, toks[j]))
  }

  predicate AllInWord(s: string) { forall i :: 0 <= i < |s| ==> InWord(s[i]) }

  // ---------- which cells a token shows ----------

  function Spoken(u: Unicode, src: string, toks: seq<Tok>, f: nat, z: nat): seq<Cell>
    requires f <= z <= |toks| && InText(src, toks)
  {
    Letters(u, Visible(src, toks, f, z))
  }

  function TokenCells(u: Unicode, src: string, toks: seq<Tok>, f: nat, j: nat): seq<Cell>
    requires f <= j < |toks| && InText(src, toks)
  {
    Letters(u, Shown(src, toks[j], Apart(toks, f, j)))
  }

  lemma {:induction false} LettersConcat(u: Unicode, a: seq<Cell>, b: seq<Cell>)
    ensures Letters(u, a + b) == Letters(u, a) + Letters(u, b)
  {
    if a == [] {
      assert a + b == b;
    } else {
      assert (a + b)[1..] == a[1..] + b;
      LettersConcat(u, a[1..], b);
    }
  }

  lemma SpokenNext(u: Unicode, src: string, toks: seq<Tok>, f: nat, j: nat)
    requires f <= j < |toks| && InText(src, toks)
    ensures Spoken(u, src, toks, f, j + 1) == Spoken(u, src, toks, f, j) + TokenCells(u, src, toks, f, j)
    ensures IsTrivia(toks[j].k) ==> TokenCells(u, src, toks, f, j) == []
  {
    LettersConcat(u, Visible(src, toks, f, j), Shown(src, toks[j], Apart(toks, f, j)));
  }

  /** The place of token j among the cells. */
  function Place(u: Unicode, src: string, toks: seq<Tok>, f: nat, j: nat): nat
    requires f <= j <= |toks| && InText(src, toks)
  {
    |Spoken(u, src, toks, f, j)|
  }

  lemma {:induction false} CellsOfToken(u: Unicode, src: string, toks: seq<Tok>, f: nat, j: nat, z: nat)
    requires f <= j <= z <= |toks| && InText(src, toks)
    ensures Place(u, src, toks, f, j) <= Place(u, src, toks, f, z)
    ensures Spoken(u, src, toks, f, z)[..Place(u, src, toks, f, j)] == Spoken(u, src, toks, f, j)
    ensures j < z ==>
      Place(u, src, toks, f, j) <= Place(u, src, toks, f, j + 1) <= Place(u, src, toks, f, z) &&
      Spoken(u, src, toks, f, z)[Place(u, src, toks, f, j)..Place(u, src, toks, f, j + 1)]
      == TokenCells(u, src, toks, f, j)
    decreases z - j
  {
    hide Spoken, TokenCells;
    if j < z {
      SpokenNext(u, src, toks, f, j);
      CellsOfToken(u, src, toks, f, j + 1, z);
      var all, next := Spoken(u, src, toks, f, z), Spoken(u, src, toks, f, j + 1);
      assert all[..|next|] == next;
      assert all[..Place(u, src, toks, f, j)] == next[..Place(u, src, toks, f, j)];
      assert all[Place(u, src, toks, f, j)..|next|] == next[Place(u, src, toks, f, j)..];
    }
  }

  lemma {:induction false} LettersOfAscii(u: Unicode, s: string, gap: bool)
    requires forall i :: 0 <= i < |s| ==> s[i] < '\U{0080}'
    ensures Letters(u, Side(s, gap)) == Side(s, gap)
  {
    if s != "" {
      LettersOfAscii(u, s[1..], false);
      assert Side(s, gap)[1..] == Side(s[1..], false);
      assert Side(s, gap) == Side([s[0]], gap) + Side(s[1..], false);
    }
  }

  lemma WordCells(u: Unicode, src: string, toks: seq<Tok>, f: nat, j: nat)
    requires f <= j < |toks| && InText(src, toks) && toks[j].k == Word && AllInWord(TextOf(src, toks[j]))
    ensures TokenCells(u, src, toks, f, j) == Side(TextOf(src, toks[j]), Apart(toks, f, j))
  {
    LettersOfAscii(u, TextOf(src, toks[j]), Apart(toks, f, j));
  }

  /** A token that is no word has no word character at its ends; only a placeholder has one inside, an underscore. */
  ghost predicate Edged(cells: seq<Cell>) {
    && cells != [] && !InWord(cells[0].c) && !InWord(cells[|cells| - 1].c)
    && forall i :: 0 <= i < |cells| && InWord(cells[i].c) ==> cells[i].c == '_'
  }

  lemma Edges(u: Unicode, src: string, t: Tok, end: nat, gap: bool)
    requires Proper(u) && t.s < t.e <= end <= |src| && Maximal(u, src, t, end)
    requires !IsTrivia(t.k) && t.k != Word
    ensures Edged(Letters(u, Shown(src, t, gap)))
  {
    hide Proper, Maximal, Letters;
    if t.k == Str {
      LettersOfAscii(u, "''", gap);
    } else if t.k == Ident {
      LettersOfAscii(u, "\"_\"", gap);
    } else if t.k == Dollar {
      LettersOfAscii(u, "$$", true);
    } else {
      OneOther(u, src, t, end, gap);
    }
  }

  lemma OneOther(u: Unicode, src: string, t: Tok, end: nat, gap: bool)
    requires Proper(u) && t.s < t.e <= end <= |src| && Maximal(u, src, t, end)
    requires t.k in {Other, Semi}
    ensures Edged(Letters(u, Side(src[t.s..t.e], gap)))
  {
    var c := src[t.s];
    var spelled := Spelled(u, c);
    var side := Side(src[t.s..t.e], gap);
    assert src[t.s..t.e] == [c] && side == [Cell(c, gap)] && side[1..] == [];
    assert Letters(u, side) == Side(spelled, gap) + [];
    if c >= '\U{0080}' {
      assert InUpperCase(u.upper(c)) && !u.word(c);
      assert forall i :: 0 <= i < |spelled| ==> spelled[i] >= '\U{0080}';
    }
  }

  lemma NoTwoWords(u: Unicode, src: string, toks: seq<Tok>, end: nat, j: nat)
    requires Lexed(u, src, toks, end) && 0 < j < |toks| && toks[j].k == Word
    ensures toks[j - 1].k != Word
  {
    assert Maximal(u, src, toks[j], end) && Maximal(u, src, toks[j - 1], end);
    assert toks[j - 1].e == toks[j].s;
  }

  lemma FirstHasGap(u: Unicode, s: string, gap: bool)
    requires Proper(u) && s != "" && !IsSpace(s[0])
    ensures Letters(u, Side(s, gap)) != [] && Letters(u, Side(s, gap))[0].gap == gap
  {
    var side := Side(s, gap);
    UpperOfOne(u, s[0]);
    assert Letters(u, side) == Side(Spelled(u, side[0].c), side[0].gap) + Letters(u, side[1..]);
  }

  /** Between tokens j and i nothing is shown. */
  lemma {:induction false} TriviaShowsNothing(u: Unicode, src: string, toks: seq<Tok>, f: nat, j: nat, i: nat)
    requires f <= j <= i <= |toks| && InText(src, toks) && OnlyTrivia(toks, j, i)
    ensures Place(u, src, toks, f, i) == Place(u, src, toks, f, j)
    decreases i - j
  {
    hide Spoken, TokenCells;
    if j < i {
      SpokenNext(u, src, toks, f, i - 1);
      TriviaShowsNothing(u, src, toks, f, j, i - 1);
    }
  }

  // ---------- where words begin and end ----------

  lemma FirstCell(u: Unicode, src: string, toks: seq<Tok>, end: nat, f: nat, j: nat)
    requires Proper(u) && Lexed(u, src, toks, end) && f <= j < |toks| && !IsTrivia(toks[j].k)
    ensures TokenCells(u, src, toks, f, j) != []
    ensures Apart(toks, f, j) ==> TokenCells(u, src, toks, f, j)[0].gap
    ensures toks[j].k != Word ==> Edged(TokenCells(u, src, toks, f, j))
  {
    var t, gap := toks[j], Apart(toks, f, j);
    assert Maximal(u, src, t, end) && t.s < t.e <= end;
    if t.k != Word {
      Edges(u, src, t, end, gap);
    }
    NotBlankFirst(u, src, t, end);
    if t.k == Str {
      FirstHasGap(u, "''", gap);
    } else if t.k == Ident {
      FirstHasGap(u, "\"_\"", gap);
    } else if t.k == Dollar {
      FirstHasGap(u, "$$", true);
    } else {
      FirstHasGap(u, src[t.s..t.e], gap);
    }
  }

  lemma NotBlankFirst(u: Unicode, src: string, t: Tok, end: nat)
    requires Proper(u) && t.s < t.e <= end <= |src| && Maximal(u, src, t, end)
    ensures t.k in {Word, Other, Semi} ==> !IsSpace(src[t.s])
  {
    if t.k == Word {
      PartsNotBlank(u, src[t.s]);
    }
  }

  lemma WordBegins(u: Unicode, src: string, toks: seq<Tok>, end: nat, f: nat, j: nat, z: nat)
    requires Proper(u) && Lexed(u, src, toks, end) && f <= j < z <= |toks| && toks[j].k == Word
    ensures Place(u, src, toks, f, j) < Place(u, src, toks, f, z)
    ensures Begins(Spoken(u, src, toks, f, z), Place(u, src, toks, f, j))
  {
    hide Spoken, TokenCells, Proper, Lexed;
    LexedInText(u, src, toks, end);
    var all, k := Spoken(u, src, toks, f, z), Place(u, src, toks, f, j);
    CellsOfToken(u, src, toks, f, j, z);
    FirstCell(u, src, toks, end, f, j);
    assert all[k] == all[k..Place(u, src, toks, f, j + 1)][0];
    if f < j && !Apart(toks, f, j) {
      NoTwoWords(u, src, toks, end, j);
      FirstCell(u, src, toks, end, f, j - 1);
      CellsOfToken(u, src, toks, f, j - 1, z);
      var before := TokenCells(u, src, toks, f, j - 1);
      assert all[k - 1] == all[Place(u, src, toks, f, j - 1)..k][|before| - 1];
    } else if f == j {
      NothingSpoken(u, src, toks, f);
    }
  }

  lemma NothingSpoken(u: Unicode, src: string, toks: seq<Tok>, f: nat)
    requires f <= |toks| && InText(src, toks)
    ensures Place(u, src, toks, f, f) == 0
  {
  }

  /** The next token that shows something, if any. */
  lemma {:induction false} NextShown(toks: seq<Tok>, i: nat, z: nat) returns (j: nat)
    requires i <= z <= |toks|
    ensures i <= j <= z && OnlyTrivia(toks, i, j) && (j < z ==> !IsTrivia(toks[j].k))
    decreases z - i
  {
    j := i;
    if i < z && IsTrivia(toks[i].k) {
      j := NextShown(toks, i + 1, z);
    }
  }

  lemma WordCloses(u: Unicode, src: string, toks: seq<Tok>, end: nat, f: nat, j: nat, z: nat)
    requires Proper(u) && Lexed(u, src, toks, end) && f <= j < z <= |toks| && toks[j].k == Word
    ensures Closes(Spoken(u, src, toks, f, z), Place(u, src, toks, f, j + 1))
  {
    hide Spoken, TokenCells, Proper, Lexed;
    LexedInText(u, src, toks, end);
    var all, k := Spoken(u, src, toks, f, z), Place(u, src, toks, f, j + 1);
    var i := NextShown(toks, j + 1, z);
    TriviaShowsNothing(u, src, toks, f, j + 1, i);
    if i < z {
      CellsOfToken(u, src, toks, f, i, z);
      FirstCell(u, src, toks, end, f, i);
      assert all[k] == all[k..Place(u, src, toks, f, i + 1)][0];
      if i == j + 1 && toks[i].k == Word {
        NoTwoWords(u, src, toks, end, i);
      }
      TriviaApart(toks, f, j, i);
    }
  }

  lemma LexedInText(u: Unicode, src: string, toks: seq<Tok>, end: nat)
    requires Lexed(u, src, toks, end)
    ensures InText(src, toks)
  {
  }

  lemma TriviaApart(toks: seq<Tok>, f: nat, j: nat, i: nat)
    requires f <= j < i <= |toks| && OnlyTrivia(toks, j + 1, i)
    ensures j + 1 < i ==> Apart(toks, f, i)
  {
  }

  // ---------- from tokens to phrases ----------

  lemma {:induction false} GoesOnMatch(cells: seq<Cell>, k: nat, s: string, word: string)
    requires k + |s| <= |cells| && Spells(s, word) && Solid(word) && Closes(cells, k + |s|)
    requires forall i :: 0 <= i < |s| ==> cells[k + i] == Cell(s[i], false)
    ensures GoesOn(cells, k, word)
    decreases |s|
  {
    hide Alike, Closes, Solid;
    if s != "" {
      SolidRest(word);
      forall i | 0 <= i < |s| - 1 ensures cells[k + 1 + i] == Cell(s[1..][i], false) {
        assert cells[k + (i + 1)] == Cell(s[i + 1], false);
      }
      GoesOnMatch(cells, k + 1, s[1..], word[1..]);
    }
  }

  lemma SpelledInWord(text: string, word: string)
    requires Spells(text, word) && Solid(word)
    ensures AllInWord(text)
  {
    forall i | 0 <= i < |text| ensures InWord(text[i]) {
      BigInWord(text[i], word[i]);
    }
  }

  lemma SideInside(all: seq<Cell>, k: nat, s: string, gap: bool)
    ensures |Side(s, gap)| == |s|
    ensures k + |s| <= |all| && all[k..k + |s|] == Side(s, gap) ==>
      forall i :: 0 <= i < |s| ==> all[k + i] == Cell(s[i], gap && i == 0)
  {
    if k + |s| <= |all| && all[k..k + |s|] == Side(s, gap) {
      forall i | 0 <= i < |s| ensures all[k + i] == Cell(s[i], gap && i == 0) {
        assert all[k..k + |s|][i] == Side(s, gap)[i];
      }
    }
  }

  lemma WordSaid(u: Unicode, src: string, toks: seq<Tok>, end: nat, f: nat, j: nat, z: nat, word: string)
    requires Proper(u) && Lexed(u, src, toks, end) && f <= j < z <= |toks| && toks[j].k == Word
    requires Spells(TextOf(src, toks[j]), word) && Solid(word) && word != ""
    ensures SaysAt(Spoken(u, src, toks, f, z), Place(u, src, toks, f, j), word)
    ensures Place(u, src, toks, f, j + 1) == Place(u, src, toks, f, j) + |word|
  {
    hide Spoken, TokenCells, Proper, Lexed, Closes, Begins, GoesOn, Alike, Side, Apart;
    LexedInText(u, src, toks, end);
    var all, k, s := Spoken(u, src, toks, f, z), Place(u, src, toks, f, j), TextOf(src, toks[j]);
    WordBegins(u, src, toks, end, f, j, z);
    WordCloses(u, src, toks, end, f, j, z);
    CellsOfToken(u, src, toks, f, j, z);
    SpelledInWord(s, word);
    WordCells(u, src, toks, f, j);
    SpokenNext(u, src, toks, f, j);
    SideInside(all, k, s, Apart(toks, f, j));
    SolidRest(word);
    assert Spells(s[1..], word[1..]);
    GoesOnMatch(all, k + 1, s[1..], word[1..]);
  }

  ghost predicate SolidWords(words: seq<string>) {
    words != [] && forall i :: 0 <= i < |words| ==> words[i] != "" && Solid(words[i])
  }

  lemma SolidFirst(words: seq<string>)
    requires SolidWords(words)
    ensures words != [] && words[0] != "" && Solid(words[0])
  {
  }

  lemma JoinNext(words: seq<string>)
    requires SolidWords(words)
    ensures |words| == 1 ==> Join(words, " ") == words[0]
    ensures |words| > 1 ==> SolidWords(words[1..]) && Join(words, " ") == words[0] + " " + Join(words[1..], " ")
    ensures Join(words, " ") != "" && Join(words, " ")[0] != ' '
  {
    SolidRest(words[0]);
    assert |words| > 1 ==> Join(words, " ")[0] == words[0][0];
  }

  /** Words that follow one another as tokens are seen as the phrase they make. */
  lemma {:induction false} RunSaid(u: Unicode, src: string, toks: seq<Tok>, end: nat, f: nat, j: nat, z: nat,
                                   words: seq<string>)
    requires Proper(u) && Lexed(u, src, toks, end) && f <= j && z <= |toks| && SolidWords(words)
    requires Run(src, toks, j, z, words)
    ensures j < z && SaysAt(Spoken(u, src, toks, f, z), Place(u, src, toks, f, j), Join(words, " "))
    decreases |words|
  {
    hide Spoken, TokenCells, Proper, Lexed, SaysAt, Join, Spells, Solid;
    LexedInText(u, src, toks, end);
    WordSaid(u, src, toks, end, f, j, z, words[0]);
    JoinNext(words);
    if |words| > 1 {
      var i: nat :| j + 1 < i < z && OnlyTrivia(toks, j + 1, i) && Run(src, toks, i, z, words[1..]);
      RunSaid(u, src, toks, end, f, i, z, words[1..]);
      JoinNext(words[1..]);
      TriviaShowsNothing(u, src, toks, f, j + 1, i);
      GapInFront(u, src, toks, end, f, j, i, z);
      SaysBoth(Spoken(u, src, toks, f, z), Place(u, src, toks, f, j), words[0], Join(words[1..], " "));
    }
  }

  lemma GapInFront(u: Unicode, src: string, toks: seq<Tok>, end: nat, f: nat, j: nat, i: nat, z: nat)
    requires Proper(u) && Lexed(u, src, toks, end) && f <= j && j + 1 < i < z <= |toks|
    requires OnlyTrivia(toks, j + 1, i) && !IsTrivia(toks[i].k)
    ensures GapAt(Spoken(u, src, toks, f, z), Place(u, src, toks, f, i))
  {
    hide Spoken, TokenCells, Proper, Lexed;
    LexedInText(u, src, toks, end);
    var all, k := Spoken(u, src, toks, f, z), Place(u, src, toks, f, i);
    CellsOfToken(u, src, toks, f, i, z);
    FirstCell(u, src, toks, end, f, i);
    TriviaApart(toks, f, j, i);
    assert all[k] == all[k..Place(u, src, toks, f, i + 1)][0];
  }

  // ---------- from phrases to tokens ----------

  /** The token that shows cell k. */
  lemma {:induction false} TokenOf(u: Unicode, src: string, toks: seq<Tok>, f: nat, z: nat, k: nat) returns (j: nat)
    requires f <= z <= |toks| && InText(src, toks) && k < Place(u, src, toks, f, z)
    ensures f <= j < z && Place(u, src, toks, f, j) <= k < Place(u, src, toks, f, j + 1)
    decreases z
  {
    hide Place, Spoken, InText;
    NothingSpoken(u, src, toks, f);
    if k >= Place(u, src, toks, f, z - 1) {
      j := z - 1;
    } else {
      j := TokenOf(u, src, toks, f, z - 1, k);
    }
  }

  /** A cell with a letter or digit is shown by a word. */
  lemma WordOf(u: Unicode, src: string, toks: seq<Tok>, end: nat, f: nat, z: nat, k: nat) returns (j: nat)
    requires Proper(u) && Lexed(u, src, toks, end) && f <= z <= |toks| && k < Place(u, src, toks, f, z)
    requires InWord(Spoken(u, src, toks, f, z)[k].c) && Spoken(u, src, toks, f, z)[k].c != '_'
    ensures f <= j < z && Place(u, src, toks, f, j) <= k < Place(u, src, toks, f, j + 1) && toks[j].k == Word
  {
    hide Spoken, TokenCells, Proper, Lexed;
    LexedInText(u, src, toks, end);
    var all := Spoken(u, src, toks, f, z);
    j := TokenOf(u, src, toks, f, z, k);
    CellsOfToken(u, src, toks, f, j, z);
    SpokenNext(u, src, toks, f, j);
    var k' := Place(u, src, toks, f, j);
    assert all[k'..Place(u, src, toks, f, j + 1)][k - k'] == all[k];
    if toks[j].k != Word && !IsTrivia(toks[j].k) {
      FirstCell(u, src, toks, end, f, j);
    }
  }

  /** The cells from k on are like the word, without a gap in front if closed. */
  ghost predicate Like(cells: seq<Cell>, k: nat, word: string, inside: bool) {
    && k + |word| <= |cells|
    && forall i :: k <= i < k + |word| ==>
         Alike(cells[i].c, word[i - k]) && InWord(cells[i].c) && (inside || i > k ==> !cells[i].gap)
  }

  lemma LikeCons(cells: seq<Cell>, k: nat, word: string, inside: bool)
    requires word != "" && Big(word[0]) && k < |cells| && Like(cells, k + 1, word[1..], true)
    requires Alike(cells[k].c, word[0]) && (inside ==> !cells[k].gap)
    ensures Like(cells, k, word, inside)
  {
    BigInWord(cells[k].c, word[0]);
    hide Alike, InWord;
    forall i | k <= i < k + |word|
      ensures Alike(cells[i].c, word[i - k]) && InWord(cells[i].c) && (inside || i > k ==> !cells[i].gap)
    {
      assert i > k ==> word[1..][i - (k + 1)] == word[i - k];
    }
  }

  lemma {:induction false} GoesOnCells(cells: seq<Cell>, k: nat, word: string)
    requires Solid(word) && k <= |cells| && GoesOn(cells, k, word)
    ensures Like(cells, k, word, true) && Closes(cells, k + |word|)
    decreases |word|
  {
    if word != "" {
      SolidRest(word);
      assert Big(word[0]);
      hide Alike, Closes, Solid;
      GoesOnCells(cells, k + 1, word[1..]);
      LikeCons(cells, k, word, true);
    }
  }

  /** All cells of a word that is said, and what is behind it. */
  lemma SaysCells(cells: seq<Cell>, k: nat, word: string)
    requires Solid(word) && word != "" && SaysAt(cells, k, word)
    ensures Begins(cells, k) && Like(cells, k, word, false) && Closes(cells, k + |word|)
    ensures InWord(cells[k].c) && cells[k].c != '_'
  {
    SolidRest(word);
    assert Big(word[0]);
    BigInWord(cells[k].c, word[0]);
    NoUnderscore(cells[k].c, word[0]);
    hide Begins, Closes, GoesOn, Alike, InWord;
    GoesOnCells(cells, k + 1, word[1..]);
    LikeCons(cells, k, word, false);
  }

  lemma NoUnderscore(c: char, w: char)
    requires Big(w) && Alike(c, w)
    ensures c != '_'
  {
  }

  /** The cells from p on show the text. */
  ghost predicate ShowsAt(cells: seq<Cell>, p: nat, s: string) {
    p + |s| <= |cells| && forall i :: p <= i < p + |s| ==> cells[i].c == s[i - p] && (i > p ==> !cells[i].gap)
  }

  lemma SideShows(cells: seq<Cell>, p: nat, s: string, gap: bool)
    requires p + |s| <= |cells| && cells[p..p + |s|] == Side(s, gap)
    ensures ShowsAt(cells, p, s)
  {
    forall i | p <= i < p + |s| ensures cells[i].c == s[i - p] && (i > p ==> !cells[i].gap) {
      assert cells[p..p + |s|][i - p] == cells[i];
    }
  }

  lemma TokenShows(u: Unicode, src: string, toks: seq<Tok>, f: nat, j: nat, z: nat)
    requires f <= j < z <= |toks| && InText(src, toks) && toks[j].k == Word && AllInWord(TextOf(src, toks[j]))
    ensures ShowsAt(Spoken(u, src, toks, f, z), Place(u, src, toks, f, j), TextOf(src, toks[j]))
    ensures Place(u, src, toks, f, j + 1) == Place(u, src, toks, f, j) + |TextOf(src, toks[j])|
  {
    hide Spoken, TokenCells, AllInWord, TextOf, ShowsAt;
    CellsOfToken(u, src, toks, f, j, z);
    WordCells(u, src, toks, f, j);
    SpokenNext(u, src, toks, f, j);
    SideShows(Spoken(u, src, toks, f, z), Place(u, src, toks, f, j), TextOf(src, toks[j]), Apart(toks, f, j));
  }

  lemma PlainAt(src: string, toks: seq<Tok>, f: nat, z: nat, j: nat)
    requires f <= j < z <= |toks| && InText(src, toks) && PlainWords(src, toks, f, z) && toks[j].k == Word
    ensures AllInWord(TextOf(src, toks[j]))
  {
  }

  lemma PlaceIsLength(u: Unicode, src: string, toks: seq<Tok>, f: nat, z: nat)
    requires f <= z <= |toks| && InText(src, toks)
    ensures Place(u, src, toks, f, z) == |Spoken(u, src, toks, f, z)|
  {
  }

  /** Among plain words, a word that is seen is a token that spells it. */
  lemma SaidByToken(u: Unicode, src: string, toks: seq<Tok>, end: nat, f: nat, z: nat, k: nat, word: string)
    returns (j: nat)
    requires Proper(u) && Lexed(u, src, toks, end) && f <= z <= |toks| && PlainWords(src, toks, f, z)
    requires Solid(word) && word != "" && SaysAt(Spoken(u, src, toks, f, z), k, word)
    ensures f <= j < z && toks[j].k == Word && Place(u, src, toks, f, j) == k && Spells(TextOf(src, toks[j]), word)
  {
    hide *;
    LexedInText(u, src, toks, end);
    var all := Spoken(u, src, toks, f, z);
    SaysInside(all, k, word);
    SaysCells(all, k, word);
    PlaceIsLength(u, src, toks, f, z);
    j := WordOf(u, src, toks, end, f, z, k);
    PlainAt(src, toks, f, z, j);
    TokenShows(u, src, toks, f, j, z);
    WordCloses(u, src, toks, end, f, j, z);
    SameWord(all, Place(u, src, toks, f, j), TextOf(src, toks[j]), k, word);
  }

  lemma SaysInside(cells: seq<Cell>, k: nat, word: string)
    requires SaysAt(cells, k, word)
    ensures k < |cells|
  {
  }

  /** Where two words overlap, both whole, they are the same. */
  lemma SameWord(cells: seq<Cell>, p: nat, s: string, k: nat, word: string)
    requires p <= k < p + |s| && word != "" && AllInWord(s) && ShowsAt(cells, p, s) && Like(cells, k, word, false)
    requires Begins(cells, k) && Closes(cells, k + |word|) && Closes(cells, p + |s|)
    ensures k == p && Spells(s, word)
  {
    hide Alike, InWord;
    assert forall i :: p <= i < p + |s| ==> cells[i].c == s[i - p] && InWord(cells[i].c);
    forall i | 0 <= i < |s| ensures Alike(s[i], word[i]) {
      assert cells[p + i].c == s[p + i - p];
      assert Alike(cells[p + i].c, word[p + i - k]);
    }
  }

  lemma RunOfOne(src: string, toks: seq<Tok>, j: nat, z: nat, words: seq<string>)
    requires z <= |toks| && InText(src, toks) && |words| == 1
    requires j < z && toks[j].k == Word && Spells(TextOf(src, toks[j]), words[0])
    ensures Run(src, toks, j, z, words)
  {
  }

  lemma RunOfMore(src: string, toks: seq<Tok>, j: nat, i: nat, z: nat, words: seq<string>)
    requires z <= |toks| && InText(src, toks) && |words| > 1
    requires j < z && toks[j].k == Word && Spells(TextOf(src, toks[j]), words[0])
    requires j + 1 < i < z && OnlyTrivia(toks, j + 1, i) && Run(src, toks, i, z, words[1..])
    ensures Run(src, toks, j, z, words)
  {
    hide Spells, OnlyTrivia;
  }

  lemma RunFirst(src: string, toks: seq<Tok>, i: nat, z: nat, words: seq<string>)
    requires z <= |toks| && InText(src, toks) && Run(src, toks, i, z, words)
    ensures i < z && toks[i].k == Word
  {
  }

  /** Among plain words, a phrase that is seen is a run of tokens. */
  lemma {:induction false} SaidByRun(u: Unicode, src: string, toks: seq<Tok>, end: nat, f: nat, z: nat, k: nat,
                                     words: seq<string>) returns (j: nat)
    requires Proper(u) && Lexed(u, src, toks, end) && f <= z <= |toks| && InText(src, toks)
    requires PlainWords(src, toks, f, z) && SolidWords(words) && words != []
    requires SaysAt(Spoken(u, src, toks, f, z), k, Join(words, " "))
    ensures f <= j < z && Place(u, src, toks, f, j) == k && Run(src, toks, j, z, words)
    decreases |words|
  {
    hide *;
    var all := Spoken(u, src, toks, f, z);
    SolidFirst(words);
    JoinNext(words);
    if |words| == 1 {
      j := SaidByToken(u, src, toks, end, f, z, k, words[0]);
      RunOfOne(src, toks, j, z, words);
    } else {
      JoinNext(words[1..]);
      SaysBoth(all, k, words[0], Join(words[1..], " "));
      j := SaidByToken(u, src, toks, end, f, z, k, words[0]);
      var i := SaidByRun(u, src, toks, end, f, z, k + |words[0]|, words[1..]);
      RunFirst(src, toks, i, z, words[1..]);
      WordSaid(u, src, toks, end, f, j, z, words[0]);
      RunsOn(u, src, toks, end, f, j, i, z);
      RunOfMore(src, toks, j, i, z, words);
    }
  }

  /** A token that shows something moves the places on. */
  lemma ShownMoves(u: Unicode, src: string, toks: seq<Tok>, end: nat, f: nat, j: nat, i: nat)
    requires Proper(u) && Lexed(u, src, toks, end) && InText(src, toks) && f <= j < i <= |toks| && !IsTrivia(toks[j].k)
    ensures Place(u, src, toks, f, j) < Place(u, src, toks, f, j + 1) <= Place(u, src, toks, f, i)
  {
    hide Spoken, TokenCells, Proper, Lexed;
    FirstCell(u, src, toks, end, f, j);
    SpokenNext(u, src, toks, f, j);
    CellsOfToken(u, src, toks, f, j + 1, i);
  }

  /** The token whose cells follow directly, after a gap, comes after blanks and comments only. */
  lemma RunsOn(u: Unicode, src: string, toks: seq<Tok>, end: nat, f: nat, j: nat, i: nat, z: nat)
    requires Proper(u) && Lexed(u, src, toks, end) && InText(src, toks) && f <= j < z <= |toks| && f <= i < z
    requires toks[j].k == Word && toks[i].k == Word && Place(u, src, toks, f, i) == Place(u, src, toks, f, j + 1)
    ensures j + 1 < i && OnlyTrivia(toks, j + 1, i)
  {
    hide Proper, Lexed, Place;
    ShownMoves(u, src, toks, end, f, j, j + 1);
    if i <= j {
      ShownMoves(u, src, toks, end, f, i, j + 1);
    } else {
      if i == j + 1 {
        NoTwoWords(u, src, toks, end, i);
      }
      NothingBetween(u, src, toks, end, f, j + 1, i);
    }
  }

  lemma NothingBetween(u: Unicode, src: string, toks: seq<Tok>, end: nat, f: nat, j: nat, i: nat)
    requires Proper(u) && Lexed(u, src, toks, end) && InText(src, toks) && f <= j <= i <= |toks|
    requires Place(u, src, toks, f, i) == Place(u, src, toks, f, j)
    ensures OnlyTrivia(toks, j, i)
  {
    forall k | j <= k < i ensures IsTrivia(toks[k].k) {
      hide *;
      CellsOfToken(u, src, toks, f, j, k);
      if !IsTrivia(toks[k].k) {
        ShownMoves(u, src, toks, end, f, k, i);
      }
    }
  }
}
