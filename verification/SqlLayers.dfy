/** Texts wrapped in layer upon layer of quotes inside a DO statement. */
module SqlLayers {
  import opened Text
  import opened SqlLexer
  import opened SqlStatements
  import opened SqlRules
  import opened SqlCheck
  import opened SqlQuoting

  datatype Layer = Quoted | Tagged(tag: string)

  /** A dollar delimiter such as $$ or $body$. */
  predicate IsDelimiter(tag: string) {
    tag != "" && tag[0] == '$' && DelimiterEnd(tag, 0, |tag|) == |tag|
  }

  function WrapOnce(layer: Layer, s: string): string {
    if layer.Quoted? then Quote(s) else layer.tag + s + layer.tag
  }

  /** A dollar quote ends at the first occurrence of its delimiter, so that must be the closing one. */
  predicate Fits(layer: Layer, s: string) {
    layer.Quoted? ||
    (IsDelimiter(layer.tag)
     && CloseAt(WrapOnce(layer, s), layer.tag, |layer.tag|, |WrapOnce(layer, s)|) == |layer.tag| + |s|)
  }

  /** The first layer is the outermost. */
  function Wrap(layers: seq<Layer>, s: string): string {
    if layers == [] then s else WrapOnce(layers[0], Wrap(layers[1..], s))
  }

  predicate AllFit(layers: seq<Layer>, s: string) {
    layers == [] || (Fits(layers[0], Wrap(layers[1..], s)) && AllFit(layers[1..], s))
  }

  // ---------- a wrapped text is one token ----------

  function LiteralTok(layer: Layer, s: string): Tok {
    var n := |WrapOnce(layer, s)|;
    if layer.Quoted? then Tok(Str, 0, n, 0, 0, false)
    else Tok(Dollar, 0, n, |layer.tag|, |layer.tag| + |s|, false)
  }

  lemma TagOpens(tag: string, rest: string)
    requires IsDelimiter(tag)
    ensures DelimiterEnd(tag + rest, 0, |tag + rest|) == |tag|
  {
    var text := tag + rest;
    assert |tag| >= 2 && tag[|tag| - 1] == '$';
    DelimiterEndMoves(tag, |tag|, text, |text|, 0, 0, |tag|);
  }

  lemma TaggedToken(u: Unicode, tag: string, s: string)
    requires Fits(Tagged(tag), s)
    ensures
      var w := tag + s + tag;
      && |w| > 0 && w[0] == '$' && DelimiterEnd(w, 0, |w|) == |tag|
      && DollarTok(w, 0, |w|) == LiteralTok(Tagged(tag), s)
  {
    hide DelimiterEnd, CloseAt, IsDelimiter;
    var w := tag + s + tag;
    TagBegins(tag);
    assert w == tag + (s + tag);
    TagOpens(tag, s + tag);
    assert w[0..|tag|] == tag;
  }

  lemma TagBegins(tag: string)
    requires IsDelimiter(tag)
    ensures |tag| >= 2 && tag[0] == '$'
  {
  }

  lemma DollarNext(u: Unicode, src: string)
    requires src != "" && src[0] == '$' && DelimiterEnd(src, 0, |src|) > 0
    ensures Next(u, src, 0, |src|, false) == DollarTok(src, 0, |src|)
  {
    hide DelimiterEnd, DollarTok;
    if |src| >= 2 {
      assert src[0..2][0] == '$';
    }
  }

  lemma WrappedToken(u: Unicode, layer: Layer, s: string)
    requires Fits(layer, s)
    ensures
      var w := WrapOnce(layer, s);
      |w| > 0 && Next(u, w, 0, |w|, false) == LiteralTok(layer, s)
  {
    hide Next, DelimiterEnd, DollarTok, Quote, Double, CloseAt;
    if layer.Quoted? {
      QuoteIsString(u, s);
    } else {
      TaggedToken(u, layer.tag, s);
      DollarNext(u, layer.tag + s + layer.tag);
    }
  }

  lemma WrappedIsOneToken(u: Unicode, layer: Layer, s: string)
    requires Fits(layer, s)
    ensures Lex(u, WrapOnce(layer, s), 0, |WrapOnce(layer, s)|, false) == [LiteralTok(layer, s)]
  {
    hide *;
    var w, t := WrapOnce(layer, s), LiteralTok(layer, s);
    WrappedToken(u, layer, s);
    LexFirst(u, w, 0, |w|, false);
    LexEmpty(u, w, |w|, IsE(w, t));
    TokenEnd(layer, s);
  }

  lemma TokenEnd(layer: Layer, s: string)
    ensures LiteralTok(layer, s).e == |WrapOnce(layer, s)|
  {
  }

  /** Token t of another text, moved by d. */
  function MoveTok(t: Tok, d: nat): Tok {
    if t.k == Dollar then Tok(t.k, t.s + d, t.e + d, t.bs + d, t.be + d, t.esc)
    else Tok(t.k, t.s + d, t.e + d, t.bs, t.be, t.esc)
  }

  lemma SliceOfSlice(src: string, from: nat, end: nat, i: nat, j: nat)
    requires from <= end <= |src| && i <= j <= end - from
    ensures src[from..end][i..j] == src[from + i..from + j]
  {
    forall k | 0 <= k < j - i ensures src[from..end][i..j][k] == src[from + i..from + j][k] {
      assert src[from..end][i + k] == src[from + i + k];
    }
  }

  lemma CharOfSlice(src: string, from: nat, end: nat, i: nat)
    requires from <= end <= |src| && i < end - from
    ensures src[from..end][i] == src[from + i]
  {
  }

  lemma QuoteParts(s: string)
    ensures |Quote(s)| == |Double(s)| + 2 && Quote(s)[|Quote(s)| - 1] == '\''
    ensures Quote(s)[1..|Quote(s)| - 1] == Double(s)
  {
    hide Double;
    assert Quote(s) == "'" + Double(s) + "'";
    assert Quote(s)[1..|Double(s)| + 1] == Double(s);
  }

  lemma InsideQuoted(s: string, g: Range)
    requires Valid(g) && g.end - g.from == |Quote(s)| && g.src[g.from..g.end] == Quote(s)
    ensures Unquote(g.src, Tok(Str, g.from, g.end, 0, 0, false)) == s
  {
    hide Quote, Double, Undouble, Unescape;
    QuoteParts(s);
    CharOfSlice(g.src, g.from, g.end, |Quote(s)| - 1);
    SliceOfSlice(g.src, g.from, g.end, 1, |Quote(s)| - 1);
    UndoubleDouble(s);
  }

  lemma TagParts(tag: string, s: string)
    requires tag != ""
    ensures var w := tag + s + tag; w[|tag|..|tag| + |s|] == s && w[|tag| + |s|] == tag[0]
  {
    var w := tag + s + tag;
    assert w == tag + (s + tag);
  }

  lemma InsideTagged(tag: string, s: string, g: Range)
    requires Valid(g) && IsDelimiter(tag)
    requires g.end - g.from == |tag + s + tag| && g.src[g.from..g.end] == tag + s + tag
    ensures Reads(Range(g.src, g.from + |tag|, g.from + |tag| + |s|, g.base), s)
  {
    var n := |tag|;
    TagParts(tag, s);
    SliceOfSlice(g.src, g.from, g.end, n, n + |s|);
    CharOfSlice(g.src, g.from, g.end, n + |s|);
  }

  /** The inside of the token, wherever it stands, is the wrapped text. */
  lemma InsideReads(layer: Layer, s: string, g: Range)
    requires Fits(layer, s) && Valid(g)
    requires g.end - g.from == |WrapOnce(layer, s)| > 0 && g.src[g.from..g.end] == WrapOnce(layer, s)
    ensures Reads(Child(g, MoveTok(LiteralTok(layer, s), g.from)), s)
  {
    hide Quote, Double, DelimiterEnd, CloseAt;
    if layer.Quoted? {
      InsideQuoted(s, g);
      assert s[0..|s|] == s;
    } else {
      InsideTagged(layer.tag, s, g);
    }
  }

  // ---------- a wrapped text is one statement ----------

  lemma OneStatement(src: string, t: Tok)
    requires IsLiteral(t)
    ensures Statements(src, [t]) == [Stmt(0, 0, 1)]
  {
    assert SplitFrom(src, [t], 1, 0, 0) == [Stmt(0, 0, 1)];
  }

  lemma LiteralRaw(src: string, t: Tok)
    requires IsLiteral(t) && t.s <= t.e <= |src|
    ensures Raw(src, [t], 0, 1) == if t.k == Str then "''" else " $$ "
  {
    assert Raw(src, [t], 0, 0) == "";
    assert Raw(src, [t], 0, 1) == "" + Piece(src, t);
  }

  lemma StringPlaceholder()
    ensures Collapse("''") == "''" && TrimStart("''") == "''" && Trim("''") == "''"
  {
    assert "''"[1..] == "'" && "'"[1..] == "";
    assert Collapse("'") == "'" + Collapse("");
    assert Collapse("''") == "'" + Collapse("'");
  }

  lemma DollarPlaceholder()
    ensures TrimStart(" $$ ") == "$$ " && Collapse("$$ ") == "$$ " && Collapse(" $$ ") == " $$ " && Trim(" $$ ") == "$$"
  {
    assert " $$ "[1..] == "$$ " && "$$ "[1..] == "$ " && "$ "[1..] == " " && " "[1..] == "" && "$$ "[..2] == "$$";
    assert TrimStart(" $$ ") == TrimStart("$$ ") == "$$ ";
    assert Collapse(" ") == " ";
    assert Collapse("$ ") == "$" + Collapse(" ");
    assert Collapse("$$ ") == "$" + Collapse("$ ");
    assert Collapse(" $$ ") == " " + Collapse(TrimStart("$$ "));
    assert TrimEnd("$$ ") == TrimEnd("$$") == "$$";
  }

  lemma PlaceholderText(u: Unicode)
    ensures Upper(u, Trim(Collapse("''"))) == "''"
    ensures Upper(u, Trim(Collapse(" $$ "))) == "$$"
  {
    hide Collapse, Trim, Upper, TrimStart;
    StringPlaceholder();
    DollarPlaceholder();
    UpperKeeps(u, "''");
    UpperKeeps(u, "$$");
  }

  lemma {:induction false} UpperKeeps(u: Unicode, s: string)
    requires forall i :: 0 <= i < |s| ==> s[i] < 'a'
    ensures Upper(u, s) == s
  {
    if s != "" {
      UpperKeeps(u, s[1..]);
    }
  }

  lemma PlaceholderIsNoCommand(s: string)
    requires s == "''" || s == "$$"
    ensures !IsDo(s) && !CreatesFunction(s)
  {
    assert |s| == 2;
  }

  /** A wrapped text is a statement that says nothing but its literal. */
  lemma WrappedStatement(u: Unicode, layer: Layer, s: string)
    requires Fits(layer, s)
    ensures
      var g := Whole(WrapOnce(layer, s));
      && Toks(u, g) == [LiteralTok(layer, s)]
      && Stmts(u, g) == [Stmt(0, 0, 1)]
      && !IsDo(StmtText(u, g, 0)) && !CreatesFunction(StmtText(u, g, 0))
  {
    var w, t := WrapOnce(layer, s), LiteralTok(layer, s);
    WrappedIsOneToken(u, layer, s);
    hide Lex, Quote, HasWords, WordsAt, SplitFrom, CloseAt, DelimiterEnd, Collapse, Trim, Upper, Raw, IsDo,
      CreatesFunction;
    OneStatement(w, t);
    LiteralRaw(w, t);
    PlaceholderText(u);
    PlaceholderIsNoCommand(StmtText(u, Whole(w), 0));
  }

  lemma NoComments(u: Unicode, layer: Layer, s: string)
    requires Fits(layer, s)
    ensures
      var g := Whole(WrapOnce(layer, s));
      |Stmts(u, g)| == 1 && Allowed(u, g, 0, {}) == {}
  {
    WrappedStatement(u, layer, s);
    var g, t := Whole(WrapOnce(layer, s)), LiteralTok(layer, s);
    hide Toks, Stmts, IsDo, CreatesFunction, StmtText;
    assert Trailing(g.src, [t], 1) == [];
    assert Trailing(g.src, [t], 0) == [];
    assert Annotations(g.src, [t], Stmt(0, 0, 1)) == [];
  }

  // ---------- layer upon layer ----------

  lemma ReadWhereWrapped(u: Unicode, g: Range, mode: Mode, s: string, r: Rule)
    requires Reads(g, s) && AtLeast(mode, Lit)
    requires Flags(Reports(u, Whole(s), Lit, {}), r)
    ensures Flags(Reports(u, g, mode, {}), r)
  {
    hide *;
    ReadsSame(g, s);
    FoundEverywhere(u, Whole(s), g, Lit, mode, {}, {}, r);
  }

  lemma InnerLiteral(stmt: string)
    requires !IsDo(stmt) && !CreatesFunction(stmt)
    ensures Descends(Lit, stmt) && ChildMode(stmt) == Lit
  {
  }

  lemma WrappedInside(u: Unicode, layer: Layer, s: string)
    requires Fits(layer, s)
    ensures
      var g, t := Whole(WrapOnce(layer, s)), LiteralTok(layer, s);
      IsLiteral(t) && g.from <= t.s < t.e <= g.end && (t.k == Dollar ==> t.s + 2 <= t.bs <= t.be <= t.e) &&
        Reads(Child(g, t), s)
  {
    var w, t := WrapOnce(layer, s), LiteralTok(layer, s);
    WrappedToken(u, layer, s);
    hide Next, Quote, CloseAt, DelimiterEnd, Reads;
    assert w[0..|w|] == w;
    assert MoveTok(t, 0) == t;
    InsideReads(layer, s, Whole(w));
  }

  lemma UnwrapOnce(u: Unicode, layer: Layer, s: string, r: Rule)
    requires Fits(layer, s) && Flags(Reports(u, Whole(s), Lit, {}), r)
    ensures Flags(Reports(u, Whole(WrapOnce(layer, s)), Lit, {}), r)
  {
    var g, t := Whole(WrapOnce(layer, s)), LiteralTok(layer, s);
    assert Valid(g);
    hide *;
    WrappedStatement(u, layer, s);
    NoComments(u, layer, s);
    WrappedInside(u, layer, s);
    InnerLiteral(StmtText(u, g, 0));
    ReadWhereWrapped(u, Child(g, t), Lit, s, r);
    assert Toks(u, g)[0] == t;
    Reaches(u, g, Lit, {}, 0, 0, r);
  }

  lemma {:induction false} LayersFlag(u: Unicode, layers: seq<Layer>, s: string, r: Rule)
    requires AllFit(layers, s) && Flags(Reports(u, Whole(s), Lit, {}), r)
    ensures Flags(Reports(u, Whole(Wrap(layers, s)), Lit, {}), r)
  {
    if layers != [] {
      hide Flags, Reports, Fits, WrapOnce, Whole;
      LayersFlag(u, layers[1..], s, r);
      UnwrapOnce(u, layers[0], Wrap(layers[1..], s), r);
    }
  }

  // ---------- inside a DO statement ----------

  const DO := "DO "

  /** The tokens of DO with literal t behind it. */
  function DoToks(t: Tok): seq<Tok> { [Plain(Word, 0, 2), Plain(Ws, 2, 3), t] }

  lemma WrapOpens(layer: Layer, s: string)
    requires Fits(layer, s)
    ensures WrapOnce(layer, s) != "" && (WrapOnce(layer, s)[0] == '\'' || WrapOnce(layer, s)[0] == '$')
  {
  }

  lemma DoWord(u: Unicode, w: string)
    requires w != "" && (w[0] == '\'' || w[0] == '$')
    ensures
      var text := DO + w;
      && Next(u, text, 0, |text|, false) == Plain(Word, 0, 2) && !IsE(text, Plain(Word, 0, 2))
      && Next(u, text, 2, |text|, false) == Plain(Ws, 2, 3) && !IsE(text, Plain(Ws, 2, 3))
  {
    var text := DO + w;
    assert text[0] == 'D' && text[1] == 'O' && text[2] == ' ' && text[3] == w[0];
    assert text[0..2] == "DO";
    assert WordEnd(u, text, 2, |text|) == 2;
    assert WordEnd(u, text, 1, |text|) == 2;
    assert WsEnd(text, 3, |text|) == 3;
    assert Opens(u, text, 0, |text|) == Word by {
      assert text[0..2][0] == 'D';
    }
  }

  lemma BehindDo(w: string)
    ensures var text := DO + w;
      View(w, |w|, text, |text|, 3, 0, |w|) && Shut(w, |w|, text, |text|, 3, |w|)
  {
  }

  lemma DoLexes(u: Unicode, layer: Layer, s: string)
    requires Fits(layer, s)
    ensures
      var text := DO + WrapOnce(layer, s);
      Lex(u, text, 0, |text|, false) == DoToks(MoveTok(LiteralTok(layer, s), 3))
  {
    hide Fits, WrapOnce, Quote, DelimiterEnd, CloseAt, LiteralTok, Next, IsE, Lex, View, Shut, Moved, MoveTok, Opens;
    var w := WrapOnce(layer, s);
    var text := DO + w;
    WrapOpens(layer, s);
    WrappedIsOneToken(u, layer, s);
    DoWord(u, w);
    LexFirst(u, text, 0, |text|, false);
    LexFirst(u, text, 2, |text|, false);
    BehindDo(w);
    LexMoves(u, w, |w|, text, |text|, 3, 0, false);
    MovedOne(LiteralTok(layer, s), Lex(u, text, 3, |text|, false), 3);
  }

  lemma MovedOne(t: Tok, ys: seq<Tok>, d: nat)
    requires Moved([t], ys, d)
    ensures ys == [MoveTok(t, d)]
  {
    assert Shifted([t][0], ys[0], d);
  }

  lemma RawOfThree(src: string, toks: seq<Tok>)
    requires |toks| == 3 && InText(src, toks)
    ensures Raw(src, toks, 0, 3) == Piece(src, toks[0]) + Piece(src, toks[1]) + Piece(src, toks[2])
  {
    hide Piece;
    assert Raw(src, toks, 0, 0) == "";
    assert Raw(src, toks, 0, 1) == Piece(src, toks[0]);
    assert Raw(src, toks, 0, 2) == Piece(src, toks[0]) + Piece(src, toks[1]);
  }

  lemma DoStrings()
    ensures "DO" + " " + "''" == "DO ''" && "DO" + " " + " $$ " == "DO  $$ "
  {
  }

  lemma DoRaw(src: string, t: Tok)
    requires |src| >= 3 && src[0..2] == "DO" && IsLiteral(t) && t.s <= t.e <= |src|
    ensures InText(src, DoToks(t))
    ensures Raw(src, DoToks(t), 0, 3) == if t.k == Str then "DO ''" else "DO  $$ "
  {
    hide Raw;
    RawOfThree(src, DoToks(t));
    DoStrings();
  }

  lemma DoCollapses()
    ensures Trim(Collapse("DO ''")) == "DO ''"
    ensures Trim(Collapse("DO  $$ ")) == "DO $$"
  {
    hide Collapse, Trim, TrimStart, TrimEnd;
    CollapseWord("DO", "''");
    CollapseWord("DO", " $$ ");
    StringPlaceholder();
    DollarPlaceholder();
    assert "DO" + " " + "''" == "DO ''" && "DO" + " " + "$$ " == "DO $$ " && "DO" + " " + " $$ " == "DO  $$ ";
    DoTrims();
  }

  lemma DoTrims()
    ensures Trim("DO ''") == "DO ''" && Trim("DO $$ ") == "DO $$"
  {
    assert "DO $$ "[..5] == "DO $$";
    assert TrimEnd("DO $$ ") == TrimEnd("DO $$") == "DO $$";
  }

  lemma CollapseWord(word: string, rest: string)
    requires |word| == 2 && !IsSpace(word[0]) && !IsSpace(word[1])
    ensures Collapse(word + " " + rest) == word + " " + Collapse(TrimStart(rest))
  {
    var s := word + " " + rest;
    assert s[1..] == [word[1]] + " " + rest;
    assert s[1..][1..] == " " + rest;
    assert (" " + rest)[1..] == rest;
    assert Collapse(s) == [word[0]] + Collapse(s[1..]);
    assert Collapse(s[1..]) == [word[1]] + Collapse(" " + rest);
    assert Collapse(" " + rest) == " " + Collapse(TrimStart(rest));
  }

  lemma DoIsDo(u: Unicode)
    ensures Upper(u, "DO ''") == "DO ''" && IsDo("DO ''")
    ensures Upper(u, "DO $$") == "DO $$" && IsDo("DO $$")
  {
    UpperKeeps(u, "DO ''");
    UpperKeeps(u, "DO $$");
  }

  lemma DoStatements(src: string, t: Tok)
    requires IsLiteral(t)
    ensures Statements(src, DoToks(t)) == [Stmt(0, 0, 3)]
  {
    var toks := DoToks(t);
    assert SplitFrom(src, toks, 3, 0, 0) == [Stmt(0, 0, 3)];
    assert SplitFrom(src, toks, 2, 0, 0) == [Stmt(0, 0, 3)];
    assert SplitFrom(src, toks, 1, 0, 0) == [Stmt(0, 0, 3)];
  }

  lemma DoCleaned(u: Unicode, src: string, t: Tok)
    requires |src| >= 3 && src[0..2] == "DO" && IsLiteral(t) && t.s <= t.e <= |src|
    ensures InText(src, DoToks(t)) && IsDo(Cleaned(u, src, DoToks(t), Stmt(0, 0, 3)))
  {
    DoRaw(src, t);
    hide Raw, Collapse, Trim, Upper, IsDo, DoToks;
    DoCollapses();
    DoIsDo(u);
  }

  lemma DoNoTrailing(src: string, t: Tok)
    requires InText(src, DoToks(t)) && IsLiteral(t)
    ensures Annotations(src, DoToks(t), Stmt(0, 0, 3)) == []
  {
    var toks := DoToks(t);
    assert Trailing(src, toks, 3) == [];
    assert Trailing(src, toks, 2) == [];
    assert Trailing(src, toks, 1) == [];
    assert Trailing(src, toks, 0) == [];
  }

  /** A text that lexes to DO and a literal is one DO statement without annotations. */
  lemma DoRange(u: Unicode, g: Range, t: Tok)
    requires Valid(g) && |g.src| >= 3 && g.src[0..2] == "DO" && IsLiteral(t) && t.s <= t.e <= |g.src|
    requires Toks(u, g) == DoToks(t)
    ensures Stmts(u, g) == [Stmt(0, 0, 3)] && IsDo(StmtText(u, g, 0)) && Allowed(u, g, 0, {}) == {}
  {
    hide Toks, DoToks, SplitFrom, Cleaned, IsDo, Annotations;
    DoStatements(g.src, t);
    DoCleaned(u, g.src, t);
    DoNoTrailing(g.src, t);
  }

  lemma DoStatement(u: Unicode, layer: Layer, s: string)
    requires Fits(layer, s)
    ensures
      var g := Whole(DO + WrapOnce(layer, s));
      && Toks(u, g) == DoToks(MoveTok(LiteralTok(layer, s), 3))
      && Stmts(u, g) == [Stmt(0, 0, 3)] && IsDo(StmtText(u, g, 0)) && Allowed(u, g, 0, {}) == {}
  {
    var text, t := DO + WrapOnce(layer, s), MoveTok(LiteralTok(layer, s), 3);
    DoLexes(u, layer, s);
    WrapOpens(layer, s);
    assert text[0..2] == "DO" && t.e == |text|;
    hide Lex, Fits, WrapOnce, Stmts, IsDo, StmtText, Allowed;
    DoRange(u, Whole(text), t);
  }

  lemma DoInside(u: Unicode, layer: Layer, s: string)
    requires Fits(layer, s)
    ensures
      var g, t := Whole(DO + WrapOnce(layer, s)), MoveTok(LiteralTok(layer, s), 3);
      IsLiteral(t) && g.from <= t.s < t.e <= g.end && (t.k == Dollar ==> t.s + 2 <= t.bs <= t.be <= t.e) &&
        Reads(Child(g, t), s)
  {
    var w, t := WrapOnce(layer, s), LiteralTok(layer, s);
    var text := DO + w;
    WrappedToken(u, layer, s);
    hide Next, Quote, CloseAt, DelimiterEnd, Reads;
    assert text[3..|text|] == w;
    InsideReads(layer, s, Range(text, 3, |text|, 1));
    assert Child(Range(text, 3, |text|, 1), MoveTok(t, 3)).src == Child(Whole(text), MoveTok(t, 3)).src;
    ReadsAnywhere(Child(Range(text, 3, |text|, 1), MoveTok(t, 3)), Child(Whole(text), MoveTok(t, 3)), s);
  }

  lemma ReadsAnywhere(g: Range, h: Range, s: string)
    requires Reads(g, s) && h.src == g.src && h.from == g.from && h.end == g.end
    ensures Reads(h, s)
  {
  }

  lemma DoThird(t: Tok)
    ensures |DoToks(t)| == 3 && DoToks(t)[2] == t
  {
  }

  lemma DoDescends(stmt: string)
    requires IsDo(stmt)
    ensures Descends(Top, stmt) && ChildMode(stmt) == Do
  {
  }

  /**
   * A text on which a rule is reported when it is checked alone has the rule reported in every file that runs
   * it in a DO statement under any number of single-quote and dollar-quote layers.
   */
  lemma DoNeverHides(u: Unicode, layers: seq<Layer>, s: string, r: Rule)
    requires layers != [] && AllFit(layers, s)
    requires Flags(Reports(u, Whole(s), Top, {}), r)
    ensures Flags(Reports(u, Whole(DO + Wrap(layers, s)), Top, {}), r)
  {
    assert AllFit(layers[1..], s) && Fits(layers[0], Wrap(layers[1..], s));
    assert Wrap(layers, s) == WrapOnce(layers[0], Wrap(layers[1..], s));
    AloneEverywhere(u, s, r);
    LayersFlag(u, layers[1..], s, r);
    DoOnce(u, layers[0], Wrap(layers[1..], s), r);
  }

  lemma AloneEverywhere(u: Unicode, s: string, r: Rule)
    requires Flags(Reports(u, Whole(s), Top, {}), r)
    ensures Flags(Reports(u, Whole(s), Lit, {}), r)
  {
    assert s[0..|s|] == s;
    ReadsSame(Whole(s), s);
    FoundEverywhere(u, Whole(s), Whole(s), Top, Lit, {}, {}, r);
  }

  lemma DoOnce(u: Unicode, layer: Layer, s: string, r: Rule)
    requires Fits(layer, s) && Flags(Reports(u, Whole(s), Lit, {}), r)
    ensures Flags(Reports(u, Whole(DO + WrapOnce(layer, s)), Top, {}), r)
  {
    var g, t := Whole(DO + WrapOnce(layer, s)), MoveTok(LiteralTok(layer, s), 3);
    assert Valid(g);
    hide *;
    DoStatement(u, layer, s);
    DoInside(u, layer, s);
    DoDescends(StmtText(u, g, 0));
    ReadWhereWrapped(u, Child(g, t), Do, s, r);
    DoThird(t);
    Reaches(u, g, Top, {}, 0, 2, r);
  }
}
