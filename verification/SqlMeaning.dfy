/** Each rule test on the normalised text holds exactly if the statement shows what the rule looks for. */
module SqlMeaning {
  import opened Sequences
  import opened Text
  import opened SqlLexer
  import opened SqlStatements
  import opened SqlRules
  import opened SqlVisible
  import opened SqlWords

  // ---------- words and the gaps behind them ----------

  predicate Solid(word: string) { forall i :: 0 <= i < |word| ==> Big(word[i]) }

  lemma SolidIsSayable(word: string)
    requires Solid(word)
    ensures Sayable(word)
  {
    forall i | 0 <= i < |word| ensures SayableAt(word, i) {
    }
  }

  lemma SolidRest(word: string)
    requires Solid(word) && word != ""
    ensures Solid(word[1..]) && word[0] != ' '
  {
    assert Big(word[0]);
    forall i | 0 <= i < |word[1..]| ensures Big(word[1..][i]) {
      assert Big(word[i + 1]);
    }
  }

  /** A word takes as many cells as it has letters, and as much text. */
  lemma {:induction false} GoesOnEnds(cells: seq<Cell>, k: nat, word: string)
    requires Solid(word) && k <= |cells| && GoesOn(cells, k, word)
    ensures k + |word| <= |cells| && Off(cells, k + |word|) == Off(cells, k) + |word|
    ensures Closes(cells, k + |word|)
    decreases |word|
  {
    hide Off, Tail, Alike, Closes, Solid, Capital;
    if word != "" {
      SolidRest(word);
      TailNext(cells, k);
      GoesOnEnds(cells, k + 1, word[1..]);
    }
  }

  lemma SaysEnds(cells: seq<Cell>, k: nat, word: string)
    requires Solid(word) && word != "" && SaysAt(cells, k, word)
    ensures k + |word| <= |cells| && Off(cells, k + |word|) == At(cells, k) + |word|
    ensures Closes(cells, k + |word|)
  {
    hide Off, Tail, Alike, Closes, Solid, GoesOn;
    SolidRest(word);
    TailNext(cells, k);
    GoesOnEnds(cells, k + 1, word[1..]);
  }

  /** A phrase of two parts is the first, a gap and the second. */
  lemma {:induction false} GoesOnBoth(cells: seq<Cell>, k: nat, word: string, rest: string)
    requires Solid(word) && rest != "" && rest[0] != ' '
    ensures GoesOn(cells, k, word + " " + rest) <==>
      GoesOn(cells, k, word) && GapAt(cells, k + |word|) && SaysAt(cells, k + |word|, rest)
    decreases |word|
  {
    var both := word + " " + rest;
    if word == "" {
      assert both == " " + rest && both[1] == rest[0] && both[2..] == rest[1..];
    } else {
      SolidRest(word);
      assert both[0] == word[0] && both[1..] == word[1..] + " " + rest;
      hide Alike, Solid, SaysAt, Closes;
      GoesOnBoth(cells, k + 1, word[1..], rest);
    }
  }

  lemma SaysBoth(cells: seq<Cell>, k: nat, word: string, rest: string)
    requires Solid(word) && word != "" && rest != "" && rest[0] != ' '
    ensures SaysAt(cells, k, word + " " + rest) <==>
      SaysAt(cells, k, word) && GapAt(cells, k + |word|) && SaysAt(cells, k + |word|, rest)
  {
    var both := word + " " + rest;
    SolidRest(word);
    assert both[0] == word[0] && both[1..] == word[1..] + " " + rest;
    hide Alike, Solid, GoesOn, GapAt, Begins;
    GoesOnBoth(cells, k + 1, word[1..], rest);
  }

  lemma BlankIff(cells: seq<Cell>, k: nat)
    requires Visibles(cells) && k <= |cells|
    ensures Off(cells, k) <= |Shows(cells)|
    ensures GapAt(cells, k) <==> Off(cells, k) < |Shows(cells)| && Shows(cells)[Off(cells, k)] == ' '
  {
    hide Shows, Tail, Capital, Spread, IsSpace;
    TextFrom(cells, k);
    if k < |cells| {
      AtCell(cells, k);
      CharsAgree(cells[k].c, 'A');
    } else {
      TailEnd(cells);
    }
  }

  /** A phrase stands where it begins, if a gap is in front. */
  lemma SaysBehindGap(cells: seq<Cell>, k: nat, phrase: string)
    requires Visibles(cells) && GapAt(cells, k) && Phrase(phrase)
    ensures At(cells, k) == Off(cells, k) + 1 <= |Shows(cells)|
    ensures SaysAt(cells, k, phrase) <==> WordsAt(Shows(cells), phrase, At(cells, k))
  {
    hide Shows, Tail, WordsAt, IsBoundary, Phrase, Visibles;
    SaysIff(cells, k, phrase);
    AtCell(cells, k);
    if WordsAt(Shows(cells), phrase, At(cells, k)) {
      BlankBefore(Shows(cells), phrase, At(cells, k));
    }
  }

  lemma BlankBefore(s: string, phrase: string, i: nat)
    requires 0 < i && Phrase(phrase) && WordsAt(s, phrase, i) && s[i - 1] == ' '
    ensures IsBoundary(s, i)
  {
    AtPhrase(s, phrase, i);
    PhraseEnds(phrase);
    assert !IsAsciiWord(' ') && IsAsciiWord(phrase[0]);
  }

  lemma MatchBoth(s: string, a: string, b: string, i: nat)
    ensures MatchesAt(s, a + b, i) <==> MatchesAt(s, a, i) && MatchesAt(s, b, i + |a|)
  {
    if MatchesAt(s, a + b, i) {
      assert s[i..i + |a|] == s[i..i + |a + b|][..|a|] && s[i + |a|..i + |a| + |b|] == s[i..i + |a + b|][|a|..];
    }
    if MatchesAt(s, a, i) && MatchesAt(s, b, i + |a|) {
      assert s[i..i + |a + b|] == s[i..i + |a|] + s[i + |a|..i + |a| + |b|];
    }
  }

  lemma MatchBlank(s: string, i: nat)
    ensures MatchesAt(s, " ", i) <==> i < |s| && s[i] == ' '
  {
    assert i < |s| ==> s[i..i + 1] == [s[i]];
  }

  lemma SolidPhrase(word: string)
    requires Solid(word) && word != ""
    ensures Phrase(word) && Big(word[|word| - 1])
  {
    SolidIsSayable(word);
    SolidRest(word);
  }

  /** A word with a blank behind it. */
  lemma WordAndGap(cells: seq<Cell>, k: nat, word: string)
    requires Visibles(cells) && k < |cells| && Solid(word) && word != ""
    ensures At(cells, k) <= |Shows(cells)|
    ensures IsBoundary(Shows(cells), At(cells, k)) && MatchesAt(Shows(cells), word + " ", At(cells, k)) <==>
      SaysAt(cells, k, word) && GapAt(cells, k + |word|)
    ensures SaysAt(cells, k, word) && GapAt(cells, k + |word|) ==>
      At(cells, k + |word|) == At(cells, k) + |word| + 1
  {
    hide Shows, IsBoundary, Visibles, MatchesAt, GapAt, SaysAt, IsAsciiWord, Off, Solid, Phrase;
    var s, i := Shows(cells), At(cells, k);
    SolidPhrase(word);
    SaysIff(cells, k, word);
    MatchBoth(s, word, " ", i);
    MatchBlank(s, i + |word|);
    if SaysAt(cells, k, word) {
      SaysEnds(cells, k, word);
      BlankIff(cells, k + |word|);
      GapThere(cells, k + |word|);
    } else if MatchesAt(s, word + " ", i) {
      WordCloses(s, word, i);
    }
  }

  /** The same where a gap is in front. */
  lemma WordInGaps(cells: seq<Cell>, k: nat, word: string)
    requires Visibles(cells) && GapAt(cells, k) && Solid(word) && word != ""
    ensures MatchesAt(Shows(cells), word + " ", At(cells, k)) <==>
      SaysAt(cells, k, word) && GapAt(cells, k + |word|)
  {
    hide Shows, Visibles, GapAt, SaysAt, IsAsciiWord, Off, Solid, Phrase;
    GapThere(cells, k);
    WordAndGap(cells, k, word);
    SolidPhrase(word);
    AtCell(cells, k);
    var s, i := Shows(cells), At(cells, k);
    if MatchesAt(s, word + " ", i) {
      MatchBoth(s, word, " ", i);
      MatchBlank(s, i + |word|);
      WordCloses(s, word, i);
      BlankBefore(s, word, i);
    }
  }

  lemma GapThere(cells: seq<Cell>, k: nat)
    ensures GapAt(cells, k) ==> k < |cells| && cells[k].gap && At(cells, k) == Off(cells, k) + 1
  {
  }

  lemma WordCloses(s: string, word: string, i: nat)
    requires word != "" && Big(word[|word| - 1]) && MatchesAt(s, word, i)
    requires i + |word| < |s| && s[i + |word|] == ' '
    ensures WordsAt(s, word, i)
  {
    assert s[i..i + |word|][|word| - 1] == s[i + |word| - 1];
    assert !IsAsciiWord(' ');
  }

  lemma PhraseAtCell(cells: seq<Cell>, phrase: string, i: nat) returns (k: nat)
    requires Visibles(cells) && phrase != "" && phrase[0] != ' ' && MatchesAt(Shows(cells), phrase, i)
    ensures k < |cells| && At(cells, k) == i
  {
    AtPhrase(Shows(cells), phrase, i);
    k := OnlyCells(cells, i);
  }

  // ---------- EXECUTE ----------

  lemma ExecuteWords()
    ensures Solid("EXECUTE") && Sayable(" ON") && Sayable(" FUNCTION") && Sayable(" PROCEDURE")
  {
  }

  lemma NotBehind(cells: seq<Cell>, k: nat, phrase: string)
    requires Visibles(cells) && k <= |cells| && Sayable(phrase) && phrase != ""
    ensures Off(cells, k) <= |Shows(cells)|
    ensures WordsAt(Shows(cells), phrase, Off(cells, k)) <==> GoesOn(cells, k, phrase)
  {
    hide Shows, Tail, WordsAt, GoesOn, Visibles, Sayable, Off;
    TextFrom(cells, k);
    PhraseEnds(phrase);
    WordsRead(Shows(cells), phrase, Off(cells, k));
    GoesOnIff(cells, k, phrase);
  }

  lemma RunsAtIff(cells: seq<Cell>, k: nat)
    requires Visibles(cells) && k < |cells|
    ensures RunsAt(cells, k) <==> ExecutesAt(Shows(cells), At(cells, k))
  {
    hide Shows, IsBoundary, WordsAt, GoesOn, Visibles, SaysAt, Off, At, Solid, Sayable;
    ExecuteWords();
    SolidPhrase("EXECUTE");
    SaysIff(cells, k, "EXECUTE");
    if SaysAt(cells, k, "EXECUTE") {
      SaysEnds(cells, k, "EXECUTE");
      NotBehind(cells, k + 7, " ON");
      NotBehind(cells, k + 7, " FUNCTION");
      NotBehind(cells, k + 7, " PROCEDURE");
    }
  }

  lemma ExecuteMatches(s: string, i: nat)
    requires ExecutesAt(s, i)
    ensures MatchesAt(s, "EXECUTE", i)
  {
  }

  lemma ExecuteIff(cells: seq<Cell>)
    requires Visibles(cells)
    ensures HasExecute(Shows(cells)) <==> exists k: nat :: RunsAt(cells, k)
  {
    hide Shows, IsBoundary, GoesOn, Visibles, SaysAt, At, MatchesAt;
    var s := Shows(cells);
    if HasExecute(s) {
      var i: nat :| ExecutesAt(s, i);
      ExecuteMatches(s, i);
      var k := PhraseAtCell(cells, "EXECUTE", i);
      RunsAtIff(cells, k);
      assert RunsAt(cells, k);
    }
    forall k: nat | RunsAt(cells, k) ensures HasExecute(s) {
      RunsInside(cells, k);
      RunsAtIff(cells, k);
      assert ExecutesAt(s, At(cells, k));
    }
  }

  lemma RunsInside(cells: seq<Cell>, k: nat)
    requires RunsAt(cells, k)
    ensures k < |cells|
  {
  }

  // ---------- ALTER ... TYPE ----------

  lemma TypeWords()
    ensures Solid("ALTER") && Solid("COLUMN") && Solid("TABLE") && Solid("SET") && Solid("DATA") && Solid("TYPE")
    ensures "ALTER COLUMN" == "ALTER" + " " + "COLUMN"
    ensures "SET DATA TYPE" == "SET" + " " + ("DATA" + " " + "TYPE") && "SET DATA " == "SET " + "DATA "
    ensures "ALTER " == "ALTER" + " " && "COLUMN " == "COLUMN" + " " && "SET " == "SET" + " "
    ensures "DATA " == "DATA" + " "
  {
  }

  /** The name begins at cell b and at position j. */
  ghost predicate NameBegins(cells: seq<Cell>, a: nat, b: nat) {
    && ((b == a + 5 && SaysAt(cells, a, "ALTER")) || (b == a + 11 && SaysAt(cells, a, "ALTER COLUMN")))
    && GapAt(cells, b)
  }

  predicate NameBeginsAt(s: string, i: nat, j: nat) {
    && i <= |s| && IsBoundary(s, i) && MatchesAt(s, "ALTER ", i)
    && (j == i + 6 || (j == i + 13 && MatchesAt(s, "COLUMN ", i + 6)))
  }

  lemma NameBeginsIff(cells: seq<Cell>, a: nat, j: nat)
    requires Visibles(cells) && a < |cells|
    ensures NameBeginsAt(Shows(cells), At(cells, a), j) <==>
      exists b: nat :: NameBegins(cells, a, b) && b < |cells| && At(cells, b) == j
  {
    hide Shows, IsBoundary, MatchesAt, SaysAt, At, Visibles, Solid;
    var s := Shows(cells);
    TypeWords();
    WordAndGap(cells, a, "ALTER");
    SaysBoth(cells, a, "ALTER", "COLUMN");
    if SaysAt(cells, a, "ALTER") && GapAt(cells, a + 5) {
      GapThere(cells, a + 5);
      WordAndGap(cells, a + 5, "COLUMN");
      WordInGaps(cells, a + 5, "COLUMN");
      if NameBeginsAt(s, At(cells, a), j) {
        assert NameBegins(cells, a, if j == At(cells, a) + 6 then a + 5 else a + 11);
      }
    }
  }

  /** Where the name ends: at the first blank. */
  lemma {:induction false} NameEnds(cells: seq<Cell>, b: nat, k: nat) returns (e: nat)
    requires Visibles(cells) && b < |cells| && At(cells, b) < k < |Shows(cells)| && Shows(cells)[k] == ' '
    requires forall p :: At(cells, b) <= p < k ==> Shows(cells)[p] != ' '
    ensures b < e && GapAt(cells, e) && Off(cells, e) == k && forall i :: b < i < e ==> !cells[i].gap
    decreases |cells| - b
  {
    hide Shows, Tail, Visibles;
    TailNext(cells, b);
    BlankIff(cells, b + 1);
    if k == Off(cells, b + 1) {
      e := b + 1;
    } else {
      TailEnd(cells);
      assert At(cells, b + 1) == Off(cells, b + 1);
      e := NameEnds(cells, b + 1, k);
    }
  }

  /** The name is free of blanks in the text. */
  lemma {:induction false} NameIsSolid(cells: seq<Cell>, b: nat, e: nat)
    requires Visibles(cells) && b < e <= |cells| && forall i :: b < i < e ==> !cells[i].gap
    ensures At(cells, b) < Off(cells, e) <= |Shows(cells)|
    ensures forall p :: At(cells, b) <= p < Off(cells, e) ==> !IsSpace(Shows(cells)[p])
    decreases e - b
  {
    hide Shows, Tail, IsSpace;
    TailNext(cells, b);
    AtCell(cells, b);
    CapitalIsNoBlank(cells[b].c);
    if b + 1 < e {
      NameIsSolid(cells, b + 1, e);
    }
  }

  lemma CapitalIsNoBlank(c: char)
    ensures !IsSpace(c) ==> !IsSpace(Capital(c))
  {
  }

  /** The type follows at cell e and position k. */
  ghost predicate TypeFollows(cells: seq<Cell>, e: nat) {
    SaysAt(cells, e, "TYPE") || SaysAt(cells, e, "SET DATA TYPE")
  }

  predicate TypeFollowsAt(s: string, l: nat, k: nat) {
    (l == k + 1 || (l == k + 10 && MatchesAt(s, "SET DATA ", k + 1))) && WordsAt(s, "TYPE", l)
  }

  lemma TypeFollowsIff(cells: seq<Cell>, e: nat, k: nat)
    requires Visibles(cells) && GapAt(cells, e) && Off(cells, e) == k
    ensures TypeFollows(cells, e) <==> exists l: nat :: TypeFollowsAt(Shows(cells), l, k)
  {
    hide Shows, MatchesAt, SaysAt, At, Visibles, Solid, WordsAt, GapAt, Off, Phrase;
    var s := Shows(cells);
    TypeWords();
    SolidPhrase("TYPE");
    GapThere(cells, e);
    SaysBehindGap(cells, e, "TYPE");
    SaysBoth(cells, e, "SET", "DATA" + " " + "TYPE");
    MatchBoth(s, "SET ", "DATA ", k + 1);
    WordInGaps(cells, e, "SET");
    WordAndGap(cells, e, "SET");
    assert TypeFollowsAt(s, k + 1, k) == WordsAt(s, "TYPE", k + 1);
    assert TypeFollowsAt(s, k + 10, k) <==> MatchesAt(s, "SET DATA ", k + 1) && WordsAt(s, "TYPE", k + 10);
    if SaysAt(cells, e, "SET") && GapAt(cells, e + 3) {
      SaysBoth(cells, e + 3, "DATA", "TYPE");
      GapThere(cells, e + 3);
      WordInGaps(cells, e + 3, "DATA");
      WordAndGap(cells, e + 3, "DATA");
      if SaysAt(cells, e + 3, "DATA") && GapAt(cells, e + 7) {
        SaysBehindGap(cells, e + 7, "TYPE");
      }
    }
  }

  lemma TypeChanges(cells: seq<Cell>, i: nat, j: nat, k: nat, l: nat) returns (a: nat, b: nat, e: nat)
    requires Visibles(cells) && i < j < k < l <= |Shows(cells)| && ChangesTypeAt(Shows(cells), i, j, k, l)
    ensures GetsType(cells, a, b, e)
  {
    hide Shows, At, Off, SaysAt, GapAt, MatchesAt, WordsAt, IsBoundary, Visibles, NameBegins, TypeFollows;
    var s := Shows(cells);
    a := PhraseAtCell(cells, "ALTER ", i);
    NameBeginsIff(cells, a, j);
    assert NameBeginsAt(s, i, j);
    b :| NameBegins(cells, a, b) && b < |cells| && At(cells, b) == j;
    NameGap(cells, a, b);
    forall p | j <= p < k ensures s[p] != ' ' {
      assert !IsSpace(s[p]);
    }
    e := NameEnds(cells, b, k);
    TypeFollowsIff(cells, e, k);
    assert TypeFollowsAt(s, l, k);
    NeitherWord(cells, b);
    Gathered(cells, a, b, e);
  }

  lemma NameGap(cells: seq<Cell>, a: nat, b: nat)
    requires NameBegins(cells, a, b)
    ensures GapAt(cells, b) && a < |cells| && b < |cells|
  {
  }

  lemma NeitherWord(cells: seq<Cell>, b: nat)
    requires Visibles(cells) && GapAt(cells, b)
    ensures b < |cells|
    ensures SaysAt(cells, b, "COLUMN") <==> WordsAt(Shows(cells), "COLUMN", At(cells, b))
    ensures SaysAt(cells, b, "TABLE") <==> WordsAt(Shows(cells), "TABLE", At(cells, b))
  {
    TypeWords();
    hide Shows, At, SaysAt, GapAt, WordsAt, Visibles, Phrase, Solid;
    GapThere(cells, b);
    SolidPhrase("COLUMN");
    SolidPhrase("TABLE");
    SaysBehindGap(cells, b, "COLUMN");
    SaysBehindGap(cells, b, "TABLE");
  }

  lemma Gathered(cells: seq<Cell>, a: nat, b: nat, e: nat)
    requires NameBegins(cells, a, b) && TypeFollows(cells, e)
    requires b < e && GapAt(cells, e) && forall i :: b < i < e ==> !cells[i].gap
    requires !SaysAt(cells, b, "COLUMN") && !SaysAt(cells, b, "TABLE")
    ensures GetsType(cells, a, b, e)
  {
    hide SaysAt;
  }

  lemma ChangesTypeIff(cells: seq<Cell>)
    requires Visibles(cells)
    ensures ChangesType(Shows(cells)) <==> exists a: nat, b: nat, e: nat :: GetsType(cells, a, b, e)
  {
    hide Shows, GetsType, ChangesTypeAt, Visibles;
    var s := Shows(cells);
    forall i: nat, j: nat, k: nat, l: nat | i < j < k < l <= |s| && ChangesTypeAt(s, i, j, k, l)
      ensures exists a: nat, b: nat, e: nat :: GetsType(cells, a, b, e)
    {
      var a, b, e := TypeChanges(cells, i, j, k, l);
    }
    forall a: nat, b: nat, e: nat | GetsType(cells, a, b, e) ensures ChangesType(s) {
      TypeIsChanged(cells, a, b, e);
    }
  }

  lemma TypeIsChanged(cells: seq<Cell>, a: nat, b: nat, e: nat)
    requires Visibles(cells) && GetsType(cells, a, b, e)
    ensures ChangesType(Shows(cells))
  {
    Scattered(cells, a, b, e);
    hide Shows, At, Off, SaysAt, GapAt, MatchesAt, WordsAt, IsBoundary, Visibles, NameBegins, TypeFollows, GetsType;
    var s := Shows(cells);
    NameGap(cells, a, b);
    NameBeginsIff(cells, a, At(cells, b));
    assert NameBeginsAt(s, At(cells, a), At(cells, b));
    NameIsSolid(cells, b, e);
    TypeFollowsIff(cells, e, Off(cells, e));
    var l: nat :| TypeFollowsAt(s, l, Off(cells, e));
    NeitherWord(cells, b);
    BlankIff(cells, e);
    WordsInside(s, "TYPE", l);
    assert ChangesTypeAt(s, At(cells, a), At(cells, b), Off(cells, e), l);
  }

  lemma WordsInside(s: string, words: string, i: nat)
    requires WordsAt(s, words, i)
    ensures i <= |s|
  {
  }

  lemma Scattered(cells: seq<Cell>, a: nat, b: nat, e: nat)
    requires GetsType(cells, a, b, e)
    ensures NameBegins(cells, a, b) && TypeFollows(cells, e)
    ensures b < e < |cells| && GapAt(cells, e) && forall i :: b < i < e ==> !cells[i].gap
    ensures !SaysAt(cells, b, "COLUMN") && !SaysAt(cells, b, "TABLE")
  {
    hide SaysAt;
  }
}
