/** The lexer of the migration checker. */
module SqlLexer {
  import opened Naturals
  import opened Sequences
  import opened Text

  /** What the host language knows about characters beyond ASCII: letters and digits, and upper-casing. */
  datatype Unicode = Unicode(word: char -> bool, upper: char -> string)

  datatype Kind = Ws | Line | Block | Str | Ident | Dollar | Semi | Word | Other

  /** [s, e) is the place of the token; a Dollar token also has its content [bs, be); esc marks an E'...' string. */
  datatype Tok = Tok(k: Kind, s: nat, e: nat, bs: nat, be: nat, esc: bool)

  predicate IsTagStart(c: char) { 'a' <= c <= 'z' || 'A' <= c <= 'Z' || c == '_' }

  predicate IsAsciiWord(c: char) { IsTagStart(c) || '0' <= c <= '9' }

  predicate IsWordStart(u: Unicode, c: char) { IsAsciiWord(c) || (c >= '\U{0080}' && u.word(c)) }

  predicate IsWordPart(u: Unicode, c: char) { IsWordStart(u, c) || c == '$' }

  // ---------- where a token ends ----------

  function WsEnd(src: string, i: nat, end: nat): (r: nat)
    requires i <= end <= |src|
    ensures i <= r <= end
    ensures i < end && IsSpace(src[i]) ==> i < r
    decreases end - i
  {
    if i == end || !IsSpace(src[i]) then i else WsEnd(src, i + 1, end)
  }

  function LineEnd(src: string, i: nat, end: nat): (r: nat)
    requires i <= end <= |src|
    ensures i <= r <= end
    ensures r < end ==> src[r] == '\n'
    ensures forall j :: i <= j < r ==> src[j] != '\n'
    decreases end - i
  {
    if i == end || src[i] == '\n' then i else LineEnd(src, i + 1, end)
  }

  /** Block comments nest; the result may lie one character beyond the range. */
  function BlockEnd(src: string, i: nat, end: nat, depth: nat): (r: nat)
    requires end <= |src|
    ensures i <= r
    ensures i < end ==> i < r
    decreases end - i
  {
    if i >= end then i
    else if MatchesAt(src, "/*", i) then BlockEnd(src, i + 2, end, depth + 1)
    else if MatchesAt(src, "*/", i) then
      if depth <= 1 then i + 2 else BlockEnd(src, i + 2, end, depth - 1)
    else BlockEnd(src, i + 1, end, depth)
  }

  predicate HasAt(src: string, i: nat, c: char) { i < |src| && src[i] == c }

  /** How many characters of a quoted text to take at i; 0 at the closing quote. */
  function QuotedStep(src: string, i: nat, quote: char, esc: bool): nat
    requires i < |src|
  {
    if esc && src[i] == '\\' then 2
    else if src[i] != quote then 1
    else if HasAt(src, i + 1, quote) then 2
    else 0
  }

  /** The end of a string or quoted identifier from inside it; the result may lie beyond the range. */
  function QuotedEnd(src: string, i: nat, end: nat, quote: char, esc: bool): (r: nat)
    requires end <= |src|
    ensures i <= r
    ensures i < end ==> i < r
    decreases end - i
  {
    if i >= end then i
    else if QuotedStep(src, i, quote, esc) == 0 then i + 1
    else QuotedEnd(src, i + QuotedStep(src, i, quote, esc), end, quote, esc)
  }

  function TagEnd(src: string, i: nat, end: nat): (r: nat)
    requires i <= end <= |src|
    ensures i <= r <= end
    decreases end - i
  {
    if i == end || !IsAsciiWord(src[i]) then i else TagEnd(src, i + 1, end)
  }

  /** The end of the opening $tag$ at i, or i when there is none. */
  function DelimiterEnd(src: string, i: nat, end: nat): (r: nat)
    requires i < end <= |src| && src[i] == '$'
    ensures r == i || (i + 2 <= r <= end && src[r - 1] == '$')
  {
    if i + 1 < end && src[i + 1] == '$' then i + 2
    else if i + 1 < end && IsTagStart(src[i + 1]) then
      var j := TagEnd(src, i + 2, end);
      if j < end && src[j] == '$' then j + 1 else i
    else i
  }

  /** The first occurrence of tag that lies in [i, end), or end. */
  function CloseAt(src: string, tag: string, i: nat, end: nat): (r: nat)
    requires i <= end <= |src| && tag != ""
    ensures i <= r <= end
    ensures r < end ==> MatchesAt(src, tag, r) && r + |tag| <= end
    decreases end - i
  {
    if i + |tag| > end then end
    else if MatchesAt(src, tag, i) then i
    else CloseAt(src, tag, i + 1, end)
  }

  function WordEnd(u: Unicode, src: string, i: nat, end: nat): (r: nat)
    requires i <= end <= |src|
    ensures i <= r <= end
    decreases end - i
  {
    if i == end || !IsWordPart(u, src[i]) then i else WordEnd(u, src, i + 1, end)
  }

  // ---------- tokens ----------

  function Plain(k: Kind, s: nat, e: nat): Tok { Tok(k, s, e, 0, 0, false) }

  /** The kind of the token that starts at i. */
  function Opens(u: Unicode, src: string, i: nat, end: nat): Kind
    requires i < end <= |src|
  {
    var c := src[i];
    if IsSpace(c) then Ws
    else if MatchesAt(src, "--", i) then Line
    else if MatchesAt(src, "/*", i) then Block
    else if c == '\'' then Str
    else if c == '"' then Ident
    else if c == '$' && DelimiterEnd(src, i, end) > i then Dollar
    else if IsWordStart(u, c) then Word
    else if c == ';' then Semi
    else Other
  }

  function DollarTok(src: string, i: nat, end: nat): (t: Tok)
    requires i < end <= |src| && src[i] == '$' && DelimiterEnd(src, i, end) > i
    ensures t.k == Dollar && t.s == i && i + 2 <= t.bs <= t.be <= t.e <= end
  {
    var bs := DelimiterEnd(src, i, end);
    var be := CloseAt(src, src[i..bs], bs, end);
    Tok(Dollar, i, if be == end then end else be + (bs - i), bs, be, false)
  }

  /** The token at i; afterE says that the word e or E ends there. */
  function Next(u: Unicode, src: string, i: nat, end: nat, afterE: bool): (t: Tok)
    requires i < end <= |src|
    ensures t.s == i && i < t.e <= end && t.k == Opens(u, src, i, end)
    ensures t.k == Dollar ==> i + 2 <= t.bs <= t.be <= t.e
  {
    match Opens(u, src, i, end)
    case Ws => Plain(Ws, i, WsEnd(src, i, end))
    case Line => Plain(Line, i, LineEnd(src, i, end))
    case Block => Plain(Block, i, Min(BlockEnd(src, i, end, 0), end))
    case Str => Tok(Str, i, Min(QuotedEnd(src, i + 1, end, '\'', afterE), end), 0, 0, afterE)
    case Ident => Plain(Ident, i, Min(QuotedEnd(src, i + 1, end, '"', false), end))
    case Dollar => DollarTok(src, i, end)
    case Word => Plain(Word, i, WordEnd(u, src, i + 1, end))
    case Semi => Plain(Semi, i, i + 1)
    case Other => Plain(Other, i, i + 1)
  }

  predicate IsE(src: string, t: Tok) {
    t.k == Word && t.s < |src| && t.e == t.s + 1 && (src[t.s] == 'e' || src[t.s] == 'E')
  }

  /** The tokens of [i, end). */
  function Lex(u: Unicode, src: string, i: nat, end: nat, afterE: bool): seq<Tok>
    requires i <= end <= |src|
    decreases end - i
  {
    if i == end then []
    else
      var t := Next(u, src, i, end, afterE);
      [t] + Lex(u, src, t.e, end, IsE(src, t))
  }

  // ---------- tiling ----------

  /** Non-empty tokens that follow each other from one end of the range to the other. */
  ghost predicate Tiles(toks: seq<Tok>, from: nat, end: nat) {
    && (toks == [] ==> from == end)
    && (toks != [] ==> toks[0].s == from && toks[|toks| - 1].e == end)
    && (forall j :: 0 <= j < |toks| ==> from <= toks[j].s < toks[j].e <= end)
    && (forall j :: 0 <= j < |toks| - 1 ==> toks[j].e == toks[j + 1].s)
  }

  lemma TilesCons(t: Tok, rest: seq<Tok>, end: nat)
    requires t.s < t.e <= end && Tiles(rest, t.e, end)
    ensures Tiles([t] + rest, t.s, end)
  {
  }

  lemma {:induction false} LexTiles(u: Unicode, src: string, from: nat, end: nat, afterE: bool)
    requires from <= end <= |src|
    ensures Tiles(Lex(u, src, from, end, afterE), from, end)
    ensures forall t :: t in Lex(u, src, from, end, afterE) && t.k == Dollar ==> t.s + 2 <= t.bs <= t.be <= t.e
    decreases end - from
  {
    if from < end {
      hide Next, IsE, Tiles;
      var t := Next(u, src, from, end, afterE);
      LexTiles(u, src, t.e, end, IsE(src, t));
      TilesCons(t, Lex(u, src, t.e, end, IsE(src, t)), end);
    }
  }

  /** A dollar body starts behind a dollar sign and ends before one, or with the range. */
  ghost predicate Enclosed(src: string, t: Tok, end: nat) {
    && 0 < t.bs <= t.be <= |src| && src[t.bs - 1] == '$'
    && (t.be == end || HasAt(src, t.be, '$'))
  }

  lemma {:induction false} BodiesEnclosed(u: Unicode, src: string, from: nat, end: nat, afterE: bool, t: Tok)
    requires from <= end <= |src|
    requires t in Lex(u, src, from, end, afterE) && t.k == Dollar
    ensures Enclosed(src, t, end)
    decreases end - from
  {
    hide Next, IsE, Enclosed;
    var first := Next(u, src, from, end, afterE);
    if t == first {
      FirstEnclosed(u, src, from, end, afterE);
    } else {
      BodiesEnclosed(u, src, first.e, end, IsE(src, first), t);
    }
  }

  lemma FirstEnclosed(u: Unicode, src: string, from: nat, end: nat, afterE: bool)
    requires from < end <= |src|
    ensures var t := Next(u, src, from, end, afterE); t.k == Dollar ==> Enclosed(src, t, end)
  {
    var t := Next(u, src, from, end, afterE);
    if t.k == Dollar {
      assert src[from..t.bs][0] == src[from];
      if t.be < end {
        assert src[t.be..t.be + (t.bs - from)][0] == src[t.be];
      }
    }
  }

  // ---------- a token depends on its own characters only ----------

  /** From i up to lim, text a reads like text b moved by d. */
  ghost predicate View(a: string, enda: nat, b: string, endb: nat, d: int, i: nat, lim: nat) {
    && lim <= enda <= |a| && lim + d <= endb <= |b| && 0 <= i + d
    && forall j :: i <= j < lim ==> 0 <= j + d && a[j] == b[j + d]
  }

  /** What follows a range cannot extend a token of the range: the text ends there or a dollar delimiter closes it. */
  ghost predicate Harmless(src: string, end: nat) {
    end == |src| || HasAt(src, end, '$')
  }

  /** The two ranges read alike to their ends. */
  ghost predicate Shut(a: string, enda: nat, b: string, endb: nat, d: int, lim: nat) {
    lim == enda && lim + d == endb && Harmless(a, enda) && Harmless(b, endb)
  }

  lemma {:induction false} WsEndMoves(a: string, enda: nat, b: string, endb: nat, d: int, i: nat, lim: nat)
    requires View(a, enda, b, endb, d, i, lim) && i <= lim
    requires WsEnd(a, i, enda) < lim || Shut(a, enda, b, endb, d, lim)
    ensures WsEnd(b, i + d, endb) == WsEnd(a, i, enda) + d
    decreases lim - i
  {
    if i < lim && IsSpace(a[i]) {
      WsEndMoves(a, enda, b, endb, d, i + 1, lim);
    }
  }

  lemma {:induction false} LineEndMoves(a: string, enda: nat, b: string, endb: nat, d: int, i: nat, lim: nat)
    requires View(a, enda, b, endb, d, i, lim) && i <= lim
    requires LineEnd(a, i, enda) < lim || Shut(a, enda, b, endb, d, lim)
    ensures LineEnd(b, i + d, endb) == LineEnd(a, i, enda) + d
    decreases lim - i
  {
    if i < lim && a[i] != '\n' {
      LineEndMoves(a, enda, b, endb, d, i + 1, lim);
    }
  }

  lemma PairMoves(a: string, enda: nat, b: string, endb: nat, d: int, i: nat, lim: nat, pair: string)
    requires View(a, enda, b, endb, d, i, lim) && i < lim
    requires i + 1 < lim || Shut(a, enda, b, endb, d, lim)
    requires |pair| == 2 && pair[1] != '$'
    ensures MatchesAt(b, pair, i + d) <==> MatchesAt(a, pair, i)
  {
    if i + 1 < lim {
      assert a[i..i + 2] == [a[i], a[i + 1]] && b[i + d..i + d + 2] == [b[i + d], b[i + d + 1]];
    }
  }

  lemma {:induction false} BlockEndMoves(a: string, enda: nat, b: string, endb: nat, d: int, i: nat, lim: nat,
                                         depth: nat)
    requires View(a, enda, b, endb, d, i, lim)
    requires BlockEnd(a, i, enda, depth) < lim || Shut(a, enda, b, endb, d, lim)
    ensures BlockEnd(b, i + d, endb, depth) == BlockEnd(a, i, enda, depth) + d
    decreases enda - i
  {
    if i < lim {
      PairMoves(a, enda, b, endb, d, i, lim, "/*");
      PairMoves(a, enda, b, endb, d, i, lim, "*/");
      if MatchesAt(a, "/*", i) {
        BlockEndMoves(a, enda, b, endb, d, i + 2, lim, depth + 1);
      } else if MatchesAt(a, "*/", i) {
        if depth > 1 {
          BlockEndMoves(a, enda, b, endb, d, i + 2, lim, depth - 1);
        }
      } else {
        BlockEndMoves(a, enda, b, endb, d, i + 1, lim, depth);
      }
    }
  }

  lemma QuotedStepMoves(a: string, enda: nat, b: string, endb: nat, d: int, i: nat, lim: nat, quote: char, esc: bool)
    requires View(a, enda, b, endb, d, i, lim) && quote != '$' && i < lim
    requires i + 1 < lim || Shut(a, enda, b, endb, d, lim)
    ensures QuotedStep(b, i + d, quote, esc) == QuotedStep(a, i, quote, esc)
  {
  }

  lemma ViewFits(a: string, enda: nat, b: string, endb: nat, d: int, i: nat, lim: nat)
    requires View(a, enda, b, endb, d, i, lim)
    ensures lim <= enda <= |a| && lim + d <= endb <= |b| && 0 <= i + d
  {
  }

  lemma ShutBounds(a: string, enda: nat, b: string, endb: nat, d: int, lim: nat)
    ensures Shut(a, enda, b, endb, d, lim) ==> lim == enda && lim + d == endb
  {
  }

  lemma ViewShrinks(a: string, enda: nat, b: string, endb: nat, d: int, i: nat, lim: nat, j: nat)
    requires View(a, enda, b, endb, d, i, lim) && i <= j
    ensures View(a, enda, b, endb, d, j, lim)
  {
  }

  lemma {:induction false} QuotedEndMoves(a: string, enda: nat, b: string, endb: nat, d: int, i: nat, lim: nat,
                                          quote: char, esc: bool)
    requires View(a, enda, b, endb, d, i, lim) && quote != '$'
    requires QuotedEnd(a, i, enda, quote, esc) < lim || Shut(a, enda, b, endb, d, lim)
    ensures QuotedEnd(b, i + d, endb, quote, esc) == QuotedEnd(a, i, enda, quote, esc) + d
    decreases enda - i
  {
    hide QuotedStep, Shut, View;
    ViewFits(a, enda, b, endb, d, i, lim);
    ShutBounds(a, enda, b, endb, d, lim);
    if i < lim {
      QuotedStepMoves(a, enda, b, endb, d, i, lim, quote, esc);
      var k := QuotedStep(a, i, quote, esc);
      if k > 0 {
        ViewShrinks(a, enda, b, endb, d, i, lim, i + k);
        QuotedEndMoves(a, enda, b, endb, d, i + k, lim, quote, esc);
      }
    }
  }

  lemma {:induction false} TagEndMoves(a: string, enda: nat, b: string, endb: nat, d: int, i: nat, lim: nat)
    requires View(a, enda, b, endb, d, i, lim) && i <= lim
    requires TagEnd(a, i, enda) < lim || Shut(a, enda, b, endb, d, lim)
    ensures TagEnd(b, i + d, endb) == TagEnd(a, i, enda) + d
    decreases lim - i
  {
    if i < lim && IsAsciiWord(a[i]) {
      TagEndMoves(a, enda, b, endb, d, i + 1, lim);
    }
  }

  lemma {:induction false} WordEndMoves(u: Unicode, a: string, enda: nat, b: string, endb: nat, d: int, i: nat,
                                        lim: nat)
    requires View(a, enda, b, endb, d, i, lim) && i <= lim
    requires WordEnd(u, a, i, enda) < lim || Shut(a, enda, b, endb, d, lim)
    ensures WordEnd(u, b, i + d, endb) == WordEnd(u, a, i, enda) + d
    decreases lim - i
  {
    if i < lim && IsWordPart(u, a[i]) {
      WordEndMoves(u, a, enda, b, endb, d, i + 1, lim);
    }
  }

  lemma SliceMoves(a: string, enda: nat, b: string, endb: nat, d: int, i: nat, lim: nat, j: nat)
    requires View(a, enda, b, endb, d, i, lim) && i <= j <= lim
    ensures a[i..j] == b[i + d..j + d]
  {
  }

  lemma TagMoves(a: string, enda: nat, b: string, endb: nat, d: int, i: nat, lim: nat, tag: string)
    requires View(a, enda, b, endb, d, i, lim) && i + |tag| <= lim
    ensures MatchesAt(b, tag, i + d) <==> MatchesAt(a, tag, i)
  {
    SliceMoves(a, enda, b, endb, d, i, lim, i + |tag|);
  }

  lemma ViewNext(a: string, enda: nat, b: string, endb: nat, d: int, i: nat, lim: nat)
    requires View(a, enda, b, endb, d, i, lim)
    ensures View(a, enda, b, endb, d, i + 1, lim)
  {
  }

  lemma {:induction false} CloseAtMoves(a: string, enda: nat, b: string, endb: nat, d: int, i: nat, lim: nat,
                                        tag: string)
    requires View(a, enda, b, endb, d, i, lim) && i <= lim && tag != ""
    requires CloseAt(a, tag, i, enda) + |tag| <= lim || (lim == enda && lim + d == endb)
    ensures CloseAt(b, tag, i + d, endb) == CloseAt(a, tag, i, enda) + d
    decreases lim - i
  {
    hide MatchesAt, View;
    ViewFits(a, enda, b, endb, d, i, lim);
    if i + |tag| <= enda {
      TagMoves(a, enda, b, endb, d, i, lim, tag);
      if !MatchesAt(a, tag, i) {
        ViewNext(a, enda, b, endb, d, i, lim);
        CloseAtMoves(a, enda, b, endb, d, i + 1, lim, tag);
      }
    }
  }

  /** y is token x at a place d further on. */
  predicate Shifted(x: Tok, y: Tok, d: int) {
    && y.k == x.k && y.s == x.s + d && y.e == x.e + d && y.esc == x.esc
    && if x.k == Dollar then y.bs == x.bs + d && y.be == x.be + d else y.bs == x.bs && y.be == x.be
  }

  /** The last character of the window ends every tag name. */
  ghost predicate Stops(a: string, lim: nat) {
    0 < lim <= |a| && !IsAsciiWord(a[lim - 1])
  }

  lemma {:induction false} TagEndStops(a: string, i: nat, enda: nat, lim: nat)
    requires i < lim <= enda <= |a| && Stops(a, lim)
    ensures TagEnd(a, i, enda) < lim
    decreases lim - i
  {
    if i < lim - 1 && IsAsciiWord(a[i]) {
      TagEndStops(a, i + 1, enda, lim);
    }
  }

  lemma DelimiterEndMoves(a: string, enda: nat, b: string, endb: nat, d: int, i: nat, lim: nat)
    requires View(a, enda, b, endb, d, i, lim) && i < lim && a[i] == '$'
    requires (i + 1 < lim && Stops(a, lim)) || Shut(a, enda, b, endb, d, lim)
    ensures DelimiterEnd(b, i + d, endb) == DelimiterEnd(a, i, enda) + d
    ensures Shut(a, enda, b, endb, d, lim) || DelimiterEnd(a, i, enda) <= lim
  {
    if i + 1 < lim && a[i + 1] != '$' && IsTagStart(a[i + 1]) {
      if Stops(a, lim) {
        TagEndStops(a, i + 1, enda, lim);
        assert TagEnd(a, i + 1, enda) == TagEnd(a, i + 2, enda);
      }
      TagEndMoves(a, enda, b, endb, d, i + 2, lim);
    }
  }

  lemma DollarMoves(a: string, enda: nat, b: string, endb: nat, d: int, i: nat, lim: nat)
    requires View(a, enda, b, endb, d, i, lim) && i < lim && a[i] == '$' && DelimiterEnd(a, i, enda) > i
    requires (DollarTok(a, i, enda).e < lim && Stops(a, lim)) || Shut(a, enda, b, endb, d, lim)
    ensures DelimiterEnd(b, i + d, endb) > i + d
    ensures Shifted(DollarTok(a, i, enda), DollarTok(b, i + d, endb), d)
  {
    hide View, Shut, Stops, CloseAt, DelimiterEnd;
    ViewFits(a, enda, b, endb, d, i, lim);
    ShutBounds(a, enda, b, endb, d, lim);
    DelimiterEndMoves(a, enda, b, endb, d, i, lim);
    var bs := DelimiterEnd(a, i, enda);
    SliceMoves(a, enda, b, endb, d, i, lim, bs);
    ViewShrinks(a, enda, b, endb, d, i, lim, bs);
    CloseAtMoves(a, enda, b, endb, d, bs, lim, a[i..bs]);
  }

  lemma OpensMoves(u: Unicode, a: string, enda: nat, b: string, endb: nat, d: int, i: nat, lim: nat)
    requires View(a, enda, b, endb, d, i, lim) && i < lim
    requires (i + 1 < lim && Stops(a, lim)) || Shut(a, enda, b, endb, d, lim)
    ensures Opens(u, b, i + d, endb) == Opens(u, a, i, enda)
  {
    PairMoves(a, enda, b, endb, d, i, lim, "--");
    PairMoves(a, enda, b, endb, d, i, lim, "/*");
    if a[i] == '$' {
      DelimiterEndMoves(a, enda, b, endb, d, i, lim);
    }
  }

  lemma QuotedNext(u: Unicode, src: string, i: nat, end: nat, afterE: bool)
    requires i < end <= |src|
    ensures Opens(u, src, i, end) == Block ==>
      Next(u, src, i, end, afterE) == Plain(Block, i, Min(BlockEnd(src, i, end, 0), end))
    ensures Opens(u, src, i, end) == Str ==>
      Next(u, src, i, end, afterE) == Tok(Str, i, Min(QuotedEnd(src, i + 1, end, '\'', afterE), end), 0, 0, afterE)
    ensures Opens(u, src, i, end) == Ident ==>
      Next(u, src, i, end, afterE) == Plain(Ident, i, Min(QuotedEnd(src, i + 1, end, '"', false), end))
  {
    hide Opens, BlockEnd, QuotedEnd;
  }

  lemma QuotedMoves(u: Unicode, a: string, enda: nat, b: string, endb: nat, d: int, i: nat, lim: nat, afterE: bool)
    requires View(a, enda, b, endb, d, i, lim) && i < lim
    requires (Next(u, a, i, enda, afterE).e < lim && Stops(a, lim)) || Shut(a, enda, b, endb, d, lim)
    requires Opens(u, a, i, enda) in {Str, Ident, Block} && Opens(u, b, i + d, endb) == Opens(u, a, i, enda)
    ensures Shifted(Next(u, a, i, enda, afterE), Next(u, b, i + d, endb, afterE), d)
  {
    hide Next, Opens, BlockEnd, QuotedEnd, View, Stops;
    ViewFits(a, enda, b, endb, d, i, lim);
    var kind := Opens(u, a, i, enda);
    QuotedNext(u, a, i, enda, afterE);
    QuotedNext(u, b, i + d, endb, afterE);
    ShutBounds(a, enda, b, endb, d, lim);
    hide Shut;
    if kind != Block {
      ViewShrinks(a, enda, b, endb, d, i, lim, i + 1);
    }
    if kind == Block {
      BlockEndMoves(a, enda, b, endb, d, i, lim, 0);
    } else if kind == Str {
      QuotedEndMoves(a, enda, b, endb, d, i + 1, lim, '\'', afterE);
    } else {
      QuotedEndMoves(a, enda, b, endb, d, i + 1, lim, '"', false);
    }
  }

  /** A token that ends inside the window, or in a range that reads alike to its end, is the same token there. */
  lemma NextMoves(u: Unicode, a: string, enda: nat, b: string, endb: nat, d: int, i: nat, lim: nat, afterE: bool)
    requires View(a, enda, b, endb, d, i, lim) && i < lim
    requires (Next(u, a, i, enda, afterE).e < lim && Stops(a, lim)) || Shut(a, enda, b, endb, d, lim)
    ensures Shifted(Next(u, a, i, enda, afterE), Next(u, b, i + d, endb, afterE), d)
  {
    OpensMoves(u, a, enda, b, endb, d, i, lim);
    match Opens(u, a, i, enda)
    case Ws => WsEndMoves(a, enda, b, endb, d, i, lim);
    case Line => LineEndMoves(a, enda, b, endb, d, i, lim);
    case Dollar => DollarMoves(a, enda, b, endb, d, i, lim);
    case Word => WordEndMoves(u, a, enda, b, endb, d, i + 1, lim);
    case Semi =>
    case Other =>
    case _ => QuotedMoves(u, a, enda, b, endb, d, i, lim, afterE);
  }

  /** ys is xs at another place. */
  ghost predicate Moved(xs: seq<Tok>, ys: seq<Tok>, d: int) {
    |xs| == |ys| && forall j :: 0 <= j < |xs| ==> Shifted(xs[j], ys[j], d)
  }

  lemma IsEMoves(a: string, enda: nat, b: string, endb: nat, d: int, i: nat, lim: nat, x: Tok, y: Tok)
    requires View(a, enda, b, endb, d, i, lim) && i <= x.s < x.e <= lim && Shifted(x, y, d)
    ensures IsE(b, y) == IsE(a, x)
  {
  }

  lemma LexFirst(u: Unicode, src: string, i: nat, end: nat, afterE: bool)
    requires i < end <= |src|
    ensures
      var t := Next(u, src, i, end, afterE);
      Lex(u, src, i, end, afterE) == [t] + Lex(u, src, t.e, end, IsE(src, t))
  {
    hide Next, IsE;
  }

  lemma ViewBounds(a: string, enda: nat, b: string, endb: nat, d: int, i: nat)
    requires View(a, enda, b, endb, d, i, enda) && Shut(a, enda, b, endb, d, enda)
    ensures enda <= |a| && enda + d == endb <= |b| && 0 <= i + d
  {
  }

  lemma LexEmpty(u: Unicode, src: string, i: nat, afterE: bool)
    requires i <= |src|
    ensures Lex(u, src, i, i, afterE) == []
  {
  }

  lemma MovedEmpty(d: int)
    ensures Moved([], [], d)
  {
  }

  lemma MovedCons(x: Tok, y: Tok, xs: seq<Tok>, ys: seq<Tok>, d: int)
    requires Shifted(x, y, d) && Moved(xs, ys, d)
    ensures Moved([x] + xs, [y] + ys, d)
  {
    hide Shifted;
  }

  lemma ShiftedEnds(x: Tok, y: Tok, d: int)
    requires Shifted(x, y, d)
    ensures y.s == x.s + d && y.e == x.e + d
  {
  }

  /** Ranges that read alike to their ends have the same tokens. */
  lemma {:induction false} LexMoves(u: Unicode, a: string, enda: nat, b: string, endb: nat, d: int, i: nat,
                                    afterE: bool)
    requires View(a, enda, b, endb, d, i, enda) && i <= enda && Shut(a, enda, b, endb, d, enda)
    ensures Moved(Lex(u, a, i, enda, afterE), Lex(u, b, i + d, endb, afterE), d)
    decreases enda - i
  {
    hide *;
    ViewBounds(a, enda, b, endb, d, i);
    if i == enda {
      LexEmpty(u, a, i, afterE);
      LexEmpty(u, b, i + d, afterE);
      MovedEmpty(d);
    } else {
      var x, y := Next(u, a, i, enda, afterE), Next(u, b, i + d, endb, afterE);
      NextMoves(u, a, enda, b, endb, d, i, enda, afterE);
      IsEMoves(a, enda, b, endb, d, i, enda, x, y);
      ShiftedEnds(x, y, d);
      ViewShrinks(a, enda, b, endb, d, i, enda, x.e);
      LexMoves(u, a, enda, b, endb, d, x.e, IsE(a, x));
      LexFirst(u, a, i, enda, afterE);
      LexFirst(u, b, i + d, endb, afterE);
      MovedCons(x, y, Lex(u, a, x.e, enda, IsE(a, x)), Lex(u, b, y.e, endb, IsE(b, y)), d);
    }
  }

  // ---------- lexing up to a token boundary ----------

  /** Lexing from i reaches p between two tokens. */
  ghost predicate Boundary(u: Unicode, src: string, i: nat, end: nat, afterE: bool, p: nat)
    requires i <= end <= |src|
    decreases end - i
  {
    i == p || (i < p && i < end &&
               var t := Next(u, src, i, end, afterE);
               t.e <= p && Boundary(u, src, t.e, end, IsE(src, t), p))
  }

  ghost function Before(u: Unicode, src: string, i: nat, end: nat, afterE: bool, p: nat): seq<Tok>
    requires i <= end <= |src| && Boundary(u, src, i, end, afterE, p)
    decreases end - i
  {
    if i == p then []
    else
      var t := Next(u, src, i, end, afterE);
      [t] + Before(u, src, t.e, end, IsE(src, t), p)
  }

  ghost function FlagAt(u: Unicode, src: string, i: nat, end: nat, afterE: bool, p: nat): bool
    requires i <= end <= |src| && Boundary(u, src, i, end, afterE, p)
    decreases end - i
  {
    if i == p then afterE
    else
      var t := Next(u, src, i, end, afterE);
      FlagAt(u, src, t.e, end, IsE(src, t), p)
  }

  lemma {:induction false} LexSplits(u: Unicode, src: string, i: nat, end: nat, afterE: bool, p: nat)
    requires i <= end <= |src| && Boundary(u, src, i, end, afterE, p)
    ensures p <= end
    ensures Lex(u, src, i, end, afterE)
         == Before(u, src, i, end, afterE, p) + Lex(u, src, p, end, FlagAt(u, src, i, end, afterE, p))
    decreases end - i
  {
    hide Next, IsE;
    if i < p {
      var t := Next(u, src, i, end, afterE);
      LexSplits(u, src, t.e, end, IsE(src, t), p);
      Concat([t], Before(u, src, t.e, end, IsE(src, t), p),
             Lex(u, src, p, end, FlagAt(u, src, i, end, afterE, p)));
    } else {
      Empty(Lex(u, src, p, end, afterE));
    }
  }

  lemma {:induction false} TokenStartsAtBoundary(u: Unicode, src: string, i: nat, end: nat, afterE: bool, j: nat)
    requires i <= end <= |src| && j < |Lex(u, src, i, end, afterE)|
    ensures var p := Lex(u, src, i, end, afterE)[j].s;
      Boundary(u, src, i, end, afterE, p) && |Before(u, src, i, end, afterE, p)| == j
    decreases end - i
  {
    hide Next, IsE, Lex, Boundary, Before, FlagAt;
    if i < end {
      LexFirst(u, src, i, end, afterE);
      var t := Next(u, src, i, end, afterE);
      if j == 0 {
        BoundaryHere(u, src, i, end, afterE);
      } else {
        TokenStartsAtBoundary(u, src, t.e, end, IsE(src, t), j - 1);
        var p := Lex(u, src, t.e, end, IsE(src, t))[j - 1].s;
        BoundaryBehind(u, src, t.e, end, IsE(src, t), p);
        BoundaryStep(u, src, i, end, afterE, t, p);
      }
    } else {
      LexEmpty(u, src, i, afterE);
    }
  }

  lemma BoundaryHere(u: Unicode, src: string, i: nat, end: nat, afterE: bool)
    requires i <= end <= |src|
    ensures Boundary(u, src, i, end, afterE, i) && Before(u, src, i, end, afterE, i) == []
  {
  }

  lemma BoundaryBehind(u: Unicode, src: string, i: nat, end: nat, afterE: bool, p: nat)
    requires i <= end <= |src| && Boundary(u, src, i, end, afterE, p)
    ensures i <= p
  {
  }

  lemma BoundaryStep(u: Unicode, src: string, i: nat, end: nat, afterE: bool, t: Tok, p: nat)
    requires i < end <= |src| && t == Next(u, src, i, end, afterE)
    requires i < p && t.e <= p && Boundary(u, src, t.e, end, IsE(src, t), p)
    ensures Boundary(u, src, i, end, afterE, p)
    ensures Before(u, src, i, end, afterE, p) == [t] + Before(u, src, t.e, end, IsE(src, t), p)
    ensures FlagAt(u, src, i, end, afterE, p) == FlagAt(u, src, t.e, end, IsE(src, t), p)
  {
  }

  /** The token in front of a boundary does not depend on the text behind the character there. */
  lemma TokenStays(u: Unicode, a: string, enda: nat, b: string, endb: nat, i: nat, afterE: bool, p: nat)
    requires i < p && View(a, enda, b, endb, 0, i, p + 1) && Stops(a, p + 1)
    requires Next(u, a, i, enda, afterE).e <= p
    ensures Next(u, b, i, endb, afterE) == Next(u, a, i, enda, afterE)
    ensures var t := Next(u, a, i, enda, afterE); IsE(b, t) == IsE(a, t)
  {
    NextMoves(u, a, enda, b, endb, 0, i, p + 1, afterE);
    var t := Next(u, a, i, enda, afterE);
    IsEMoves(a, enda, b, endb, 0, i, p + 1, t, Next(u, b, i, endb, afterE));
  }

  /** What comes before a boundary does not depend on the text behind the character there. */
  lemma {:induction false} PrefixStays(u: Unicode, a: string, enda: nat, b: string, endb: nat, i: nat, afterE: bool,
                                       p: nat)
    requires i <= enda && View(a, enda, b, endb, 0, i, p + 1) && Stops(a, p + 1)
    requires Boundary(u, a, i, enda, afterE, p)
    ensures Boundary(u, b, i, endb, afterE, p)
    ensures Before(u, b, i, endb, afterE, p) == Before(u, a, i, enda, afterE, p)
    ensures FlagAt(u, b, i, endb, afterE, p) == FlagAt(u, a, i, enda, afterE, p)
    decreases enda - i
  {
    if i < p {
      var t := Next(u, a, i, enda, afterE);
      TokenStays(u, a, enda, b, endb, i, afterE, p);
      PrefixStays(u, a, enda, b, endb, t.e, IsE(a, t), p);
      BoundaryStep(u, a, i, enda, afterE, t, p);
      BoundaryStep(u, b, i, endb, afterE, t, p);
    }
  }

  // ---------- the lexer as it runs ----------

  method SkipSpace(src: string, i: nat, end: nat) returns (r: nat)
    requires i <= end <= |src|
    ensures r == WsEnd(src, i, end)
  {
    r := i;
    while r < end && IsSpace(src[r])
      invariant i <= r <= end && WsEnd(src, r, end) == WsEnd(src, i, end)
    {
      r := r + 1;
    }
  }

  lemma {:induction false} LineEndIndex(src: string, i: nat, end: nat)
    requires i <= end <= |src|
    ensures
      var nl := IndexOf(src, "\n", i);
      LineEnd(src, i, end) == if nl == -1 || nl > end then end else nl
  {
    var r := LineEnd(src, i, end);
    if r < end {
      assert MatchesAt(src, "\n", r);
    }
  }

  lemma {:induction false} CloseAtIndex(src: string, tag: string, i: nat, end: nat)
    requires i <= end <= |src| && tag != ""
    ensures
      var close := IndexOf(src, tag, i);
      CloseAt(src, tag, i, end) == if close == -1 || close + |tag| > end then end else close
    decreases end - i
  {
    if i + |tag| <= end && !MatchesAt(src, tag, i) {
      CloseAtIndex(src, tag, i + 1, end);
    }
  }

  // ---------- block comments nest ----------

  /** Read from left to right, a text consists of opening marks, closing marks and single characters. */
  function MarkLength(src: string, i: nat): nat { if MatchesAt(src, "/*", i) || MatchesAt(src, "*/", i) then 2 else 1 }

  /** The position after the first k pieces from i on. */
  function Position(src: string, i: nat, k: nat): nat
    decreases k
  {
    if k == 0 then i else Position(src, i + MarkLength(src, i), k - 1)
  }

  /** How many more of these pieces open than close. */
  function Nesting(src: string, i: nat, k: nat): int
    decreases k
  {
    if k == 0 then 0
    else
      (if MatchesAt(src, "/*", i) then 1 else if MatchesAt(src, "*/", i) then -1 else 0)
      + Nesting(src, i + MarkLength(src, i), k - 1)
  }

  /**
   * The pieces up to r stay inside a comment opened depth times before, and at r all is closed or the range is
   * over.
   */
  ghost predicate Nests(src: string, i: nat, end: nat, depth: nat, r: nat, k: nat) {
    && Position(src, i, k) == r
    && (forall j: nat :: j < k ==> Position(src, i, j) < end && (j > 0 ==> depth + Nesting(src, i, j) > 0))
    && (depth + Nesting(src, i, k) == 0 || (r >= end && depth + Nesting(src, i, k) > 0))
  }

  lemma OnePiece(src: string, i: nat, end: nat, depth: nat, next: nat, r: nat, k: nat)
    requires i < end && next > 0 && next == depth + Nesting(src, i, 1)
    requires Nests(src, i + MarkLength(src, i), end, next, r, k)
    ensures Nests(src, i, end, depth, r, k + 1)
  {
    forall j: nat | j < k + 1 ensures Position(src, i, j) < end && (j > 0 ==> depth + Nesting(src, i, j) > 0) {
      if j > 0 {
        assert Position(src, i, j) == Position(src, i + MarkLength(src, i), j - 1);
      }
    }
  }

  /** The end found is where the comment is closed as often as it was opened, and not before. */
  lemma {:induction false} BlockEndNests(src: string, i: nat, end: nat, depth: nat) returns (k: nat)
    requires end <= |src| && (depth > 0 || (i < end && MatchesAt(src, "/*", i)))
    ensures Nests(src, i, end, depth, BlockEnd(src, i, end, depth), k)
    decreases end - i
  {
    k := 0;
    if i < end {
      assert Nesting(src, i + MarkLength(src, i), 0) == 0;
      if MatchesAt(src, "/*", i) {
        k := BlockEndNests(src, i + 2, end, depth + 1);
        OnePiece(src, i, end, depth, depth + 1, BlockEnd(src, i, end, depth), k);
        k := k + 1;
      } else if !MatchesAt(src, "*/", i) {
        k := BlockEndNests(src, i + 1, end, depth);
        OnePiece(src, i, end, depth, depth, BlockEnd(src, i, end, depth), k);
        k := k + 1;
      } else if depth > 1 {
        k := BlockEndNests(src, i + 2, end, depth - 1);
        OnePiece(src, i, end, depth, depth - 1, BlockEnd(src, i, end, depth), k);
        k := k + 1;
      } else {
        k := 1;
        assert Position(src, i, 1) == Position(src, i + 2, 0) == i + 2;
      }
    }
  }

  method SkipBlock(src: string, start: nat, end: nat) returns (i: nat)
    requires start < end <= |src| && MatchesAt(src, "/*", start)
    ensures i == BlockEnd(src, start, end, 0)
    ensures exists k :: Nests(src, start, end, 0, i, k)
  {
    ghost var k := BlockEndNests(src, start, end, 0);
    i := start;
    var depth := 0;
    while i < end
      invariant start <= i && (i == start || depth > 0) && depth >= 0
      invariant BlockEnd(src, i, end, depth) == BlockEnd(src, start, end, 0)
      decreases end - i
    {
      if MatchesAt(src, "/*", i) {
        depth := depth + 1;
        i := i + 2;
      } else if MatchesAt(src, "*/", i) {
        i := i + 2;
        depth := depth - 1;
        if depth == 0 {
          return;
        }
      } else {
        i := i + 1;
      }
    }
  }

  method SkipQuoted(src: string, start: nat, end: nat, quote: char, esc: bool) returns (i: nat)
    requires start <= end <= |src|
    ensures i == QuotedEnd(src, start, end, quote, esc)
  {
    i := start;
    while i < end
      invariant start <= i && QuotedEnd(src, i, end, quote, esc) == QuotedEnd(src, start, end, quote, esc)
      decreases end - i
    {
      if esc && src[i] == '\\' {
        i := i + 2;
      } else if src[i] != quote {
        i := i + 1;
      } else if HasAt(src, i + 1, quote) {
        i := i + 2;
      } else {
        i := i + 1;
        return;
      }
    }
  }

  /** One turn of the main loop: the kind, the end and, for a dollar quote, the content. */
  method Scan(u: Unicode, src: string, s: nat, end: nat, afterE: bool) returns (t: Tok)
    requires s < end <= |src|
    ensures t == Next(u, src, s, end, afterE)
  {
    var c := src[s];
    if IsSpace(c) {
      var i := SkipSpace(src, s, end);
      t := Plain(Ws, s, i);
    } else if MatchesAt(src, "--", s) {
      var nl := IndexOf(src, "\n", s);
      LineEndIndex(src, s, end);
      t := Plain(Line, s, if nl == -1 || nl > end then end else nl);
    } else if MatchesAt(src, "/*", s) {
      var i := SkipBlock(src, s, end);
      t := Plain(Block, s, Min(i, end));
    } else if c == '\'' {
      var i := SkipQuoted(src, s + 1, end, '\'', afterE);
      t := Tok(Str, s, Min(i, end), 0, 0, afterE);
    } else if c == '"' {
      var i := SkipQuoted(src, s + 1, end, '"', false);
      t := Plain(Ident, s, Min(i, end));
    } else if c == '$' && DelimiterEnd(src, s, end) > s {
      var bs := DelimiterEnd(src, s, end);
      var close := IndexOf(src, src[s..bs], bs);
      CloseAtIndex(src, src[s..bs], bs, end);
      var be := if close == -1 || close + (bs - s) > end then end else close;
      t := Tok(Dollar, s, if be == end then end else close + (bs - s), bs, be, false);
    } else if IsWordStart(u, c) {
      t := Plain(Word, s, WordEnd(u, src, s + 1, end));
    } else {
      t := Plain(if c == ';' then Semi else Other, s, s + 1);
    }
  }

  method LexText(u: Unicode, src: string, from: nat, end: nat) returns (toks: seq<Tok>)
    requires from <= end <= |src|
    ensures toks == Lex(u, src, from, end, false)
    ensures Tiles(toks, from, end)
  {
    toks := [];
    var i := from;
    while i < end
      invariant from <= i <= end
      invariant i == from <==> toks == []
      invariant toks != [] ==> toks[|toks| - 1].e == i
      invariant
        var afterE := toks != [] && IsE(src, toks[|toks| - 1]);
        toks + Lex(u, src, i, end, afterE) == Lex(u, src, from, end, false)
    {
      var afterE := toks != [] && IsE(src, toks[|toks| - 1]);
      var t := Scan(u, src, i, end, afterE);
      Snoc(toks, t, Lex(u, src, t.e, end, IsE(src, t)));
      toks := toks + [t];
      i := t.e;
    }
    LexTiles(u, src, from, end, false);
  }
}
