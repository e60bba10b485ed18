/** What a literal contains does not matter to the rules on the statement around it. */
module SqlBlindness {
  import opened Naturals
  import opened Text
  import opened SqlLexer
  import opened SqlStatements
  import opened SqlRules
  import opened SqlCheck
  import opened SqlQuoting
  import opened SqlLayers

  /** A plain string, a quoted identifier or a dollar quote with its delimiter. */
  datatype Delim = Single | Twice | Tag(tag: string)

  function Opening(d: Delim): string {
    match d case Single => "'" case Twice => "\"" case Tag(tag) => tag
  }

  function Literal(d: Delim, body: string): string { Opening(d) + body + Opening(d) }

  /** Every quote in the body is one of a pair. */
  predicate Paired(body: string, quote: char) {
    body == ""
    || (body[0] != quote && Paired(body[1..], quote))
    || (|body| >= 2 && body[0] == quote && body[1] == quote && Paired(body[2..], quote))
  }

  /** The body neither contains its terminator nor completes it with what stands around it. */
  predicate Closes(d: Delim, body: string, post: string) {
    match d
    case Single => Paired(body, '\'') && !HasAt(post, 0, '\'')
    case Twice => Paired(body, '"') && !HasAt(post, 0, '"')
    case Tag(tag) => Fits(Tagged(tag), body)
  }

  function KindOf(d: Delim): Kind {
    match d case Single => Str case Twice => Ident case Tag(_) => Dollar
  }

  // ---------- the literal is one token wherever it stands ----------

  lemma {:induction false} PairedEnd(src: string, i: nat, body: string, end: nat, quote: char)
    requires Paired(body, quote) && i + |body| < end <= |src|
    requires src[i..i + |body|] == body
    requires HasAt(src, i + |body|, quote) && !HasAt(src, i + |body| + 1, quote)
    ensures QuotedEnd(src, i, end, quote, false) == i + |body| + 1
    decreases |body|
  {
    if body != "" {
      assert src[i] == body[0];
      var k := if body[0] == quote then 2 else 1;
      if k == 2 {
        assert src[i + 1] == body[1];
      }
      assert src[i + k..i + |body|] == body[k..];
      PairedEnd(src, i + k, body[k..], end, quote);
    }
  }

  lemma QuoteNext(u: Unicode, src: string, p: nat, afterE: bool)
    requires p < |src|
    ensures src[p] == '\'' ==>
      Next(u, src, p, |src|, afterE) ==
        Tok(Str, p, Min(QuotedEnd(src, p + 1, |src|, '\'', afterE), |src|), 0, 0, afterE)
    ensures src[p] == '"' ==>
      Next(u, src, p, |src|, afterE) == Plain(Ident, p, Min(QuotedEnd(src, p + 1, |src|, '"', false), |src|))
  {
    hide QuotedEnd, DelimiterEnd;
    if p + 2 <= |src| {
      assert src[p..p + 2][0] == src[p];
    }
  }

  lemma QuotedLiteral(u: Unicode, pre: string, d: Delim, body: string, post: string, afterE: bool)
    requires d.Single? || d.Twice?
    requires Closes(d, body, post) && (d.Single? ==> !afterE)
    ensures
      var src := pre + Literal(d, body) + post;
      var t := Next(u, src, |pre|, |src|, afterE);
      t.k == KindOf(d) && t.s == |pre| && t.e == |pre| + |Literal(d, body)|
  {
    hide Next, QuotedEnd, Paired;
    var src, quote, i := pre + Literal(d, body) + post, Opening(d)[0], |pre| + 1;
    assert src == pre + [quote] + body + [quote] + post;
    assert src[i..i + |body|] == body;
    assert post != "" ==> src[i + |body| + 1] == post[0];
    PairedEnd(src, i, body, |src|, quote);
    QuoteNext(u, src, |pre|, afterE);
  }

  lemma DollarNextAt(u: Unicode, src: string, p: nat, afterE: bool)
    requires p < |src| && src[p] == '$' && DelimiterEnd(src, p, |src|) > p
    ensures Next(u, src, p, |src|, afterE) == DollarTok(src, p, |src|)
  {
    hide DelimiterEnd, DollarTok;
    if p + 2 <= |src| {
      assert src[p..p + 2][0] == '$';
    }
  }

  lemma ClosesAt(src: string, p: nat, w: string, tag: string, n: nat)
    requires View(w, |w|, src, |src|, p, 0, |w|) && n <= |w| && n == |tag| > 0
    requires CloseAt(w, tag, n, |w|) + n == |w|
    ensures p + n <= |src| && CloseAt(src, tag, p + n, |src|) == p + |w| - n
  {
    ViewShrinks(w, |w|, src, |src|, p, 0, |w|, n);
    assert p + |w| <= |src|;
    CloseAtMoves(w, |w|, src, |src|, p, n, |w|, tag);
  }

  lemma OpensAt(src: string, p: nat, w: string, n: nat)
    requires View(w, |w|, src, |src|, p, 0, |w|) && w != "" && w[0] == '$' && 0 < n <= |w|
    requires DelimiterEnd(w, 0, |w|) == n && w[n - 1] == '$'
    ensures p < |src| && src[p] == '$' && DelimiterEnd(src, p, |src|) == p + n && src[p..p + n] == w[0..n]
  {
    DelimiterEndMoves(w, |w|, src, |src|, p, 0, n);
    SliceMoves(w, |w|, src, |src|, p, 0, |w|, n);
  }

  lemma PlacedView(pre: string, w: string, post: string)
    ensures View(w, |w|, pre + w + post, |pre + w + post|, |pre|, 0, |w|)
  {
  }

  lemma TagFacts(u: Unicode, tag: string, body: string)
    requires Fits(Tagged(tag), body)
    ensures
      var w, n := Literal(Tag(tag), body), |tag|;
      && w != "" && w[0] == '$' && 0 < n <= |w| && w[0..n] == tag && w[n - 1] == '$'
      && DelimiterEnd(w, 0, |w|) == n && CloseAt(w, tag, n, |w|) + n == |w|
  {
    hide *;
    FitsMeans(tag, body);
    TagCloses(tag);
    TagStrings(tag, body);
    TagOpens(tag, body + tag);
  }

  lemma FitsMeans(tag: string, body: string)
    requires Fits(Tagged(tag), body)
    ensures
      var w := Literal(Tag(tag), body);
      IsDelimiter(tag) && |tag| <= |w| && CloseAt(w, tag, |tag|, |w|) == |tag| + |body|
  {
    hide CloseAt, IsDelimiter;
  }

  lemma TagStrings(tag: string, body: string)
    requires |tag| > 0 && tag[0] == '$' && tag[|tag| - 1] == '$'
    ensures
      var w := Literal(Tag(tag), body);
      && w == tag + (body + tag) && |w| == |tag| + |body| + |tag|
      && w[0] == '$' && w[0..|tag|] == tag && w[|tag| - 1] == '$'
  {
    var w := Literal(Tag(tag), body);
    assert w == tag + (body + tag);
    assert w[0..|tag|] == tag;
  }

  lemma TagCloses(tag: string)
    requires IsDelimiter(tag)
    ensures |tag| > 0 && tag[0] == '$' && tag[|tag| - 1] == '$'
  {
  }

  lemma TaggedLiteral(u: Unicode, pre: string, tag: string, body: string, post: string, afterE: bool)
    requires Fits(Tagged(tag), body)
    ensures
      var src := pre + Literal(Tag(tag), body) + post;
      var t := Next(u, src, |pre|, |src|, afterE);
      t.k == Dollar && t.s == |pre| && t.e == |pre| + |Literal(Tag(tag), body)|
  {
    hide *;
    var w := Literal(Tag(tag), body);
    var src := pre + w + post;
    TagFacts(u, tag, body);
    PlacedView(pre, w, post);
    OpensAt(src, |pre|, w, |tag|);
    ClosesAt(src, |pre|, w, tag, |tag|);
    DollarNextAt(u, src, |pre|, afterE);
    DollarEnd(src, |pre|, tag);
  }

  lemma DollarEnd(src: string, p: nat, tag: string)
    requires p < |src| && src[p] == '$' && DelimiterEnd(src, p, |src|) == p + |tag| > p
    requires src[p..p + |tag|] == tag && CloseAt(src, tag, p + |tag|, |src|) < |src|
    ensures DollarTok(src, p, |src|).e == CloseAt(src, tag, p + |tag|, |src|) + |tag|
  {
    hide DelimiterEnd, CloseAt;
    var bs := p + |tag|;
    assert DelimiterEnd(src, p, |src|) == bs;
    assert CloseAt(src, src[p..bs], bs, |src|) == CloseAt(src, tag, bs, |src|);
  }

  lemma LiteralToken(u: Unicode, pre: string, d: Delim, body: string, post: string, afterE: bool)
    requires Closes(d, body, post) && (d.Single? ==> !afterE)
    ensures
      var src := pre + Literal(d, body) + post;
      var t := Next(u, src, |pre|, |src|, afterE);
      t.k == KindOf(d) && t.s == |pre| && t.e == |pre| + |Literal(d, body)|
  {
    hide Next, Literal, Paired, HasAt, Fits;
    if d.Tag? {
      TaggedLiteral(u, pre, d.tag, body, post, afterE);
    } else {
      QuotedLiteral(u, pre, d, body, post, afterE);
    }
  }

  // ---------- what stands in front and behind stays ----------

  /** A comment line ends before a newline or with the range. */
  lemma {:induction false} LineTokens(u: Unicode, src: string, from: nat, end: nat, afterE: bool, t: Tok)
    requires from <= end <= |src|
    requires t in Lex(u, src, from, end, afterE) && t.k == Line
    ensures t.s < t.e <= end && (t.e == end || src[t.e] == '\n')
    decreases end - from
  {
    var first := Next(u, src, from, end, afterE);
    if t != first {
      hide Next;
      LineTokens(u, src, first.e, end, IsE(src, first), t);
    }
  }

  lemma NoNewlineInBreakpoint()
    ensures forall k :: 0 <= k < |BREAKPOINT| ==> BREAKPOINT[k] != '\n'
  {
  }

  /** A breakpoint lies inside its comment line. */
  lemma BreakpointInside(src: string, t: Tok)
    requires t.k == Line && t.s < t.e < |src| && src[t.e] == '\n'
    ensures IsBreakpoint(src, t) <==> t.s + |BREAKPOINT| <= t.e && src[t.s..t.s + |BREAKPOINT|] == BREAKPOINT
  {
    NoNewlineInBreakpoint();
    if t.s + |BREAKPOINT| > t.e && t.s + |BREAKPOINT| <= |src| {
      assert src[t.s..t.s + |BREAKPOINT|][t.e - t.s] == src[t.e];
    }
  }

  /** The tokens read alike: same kinds, same breakpoints, same text or placeholder, same comments. */
  ghost predicate Alike(src: string, t: Tok, src': string, t': Tok)
    requires t.s <= t.e <= |src| && t'.s <= t'.e <= |src'|
  {
    && t'.k == t.k
    && IsBreakpoint(src', t') == IsBreakpoint(src, t)
    && Piece(src', t') == Piece(src, t)
    && (t.k == Line ==> src'[t'.s..t'.e] == src[t.s..t.e])
  }

  lemma PrefixAlike(src: string, src': string, p: nat, t: Tok)
    requires p < |src| && p < |src'| && src[..p] == src'[..p] && t.s < t.e <= p
    requires t.k == Line ==> src[t.e] == '\n' && src'[t.e] == '\n'
    ensures Alike(src, t, src', t)
  {
    PrefixSlice(src, p, t.s, t.e);
    PrefixSlice(src', p, t.s, t.e);
    if t.k == Line {
      BreakpointInside(src, t);
      BreakpointInside(src', t);
      if t.s + |BREAKPOINT| <= t.e {
        PrefixSlice(src, p, t.s, t.s + |BREAKPOINT|);
        PrefixSlice(src', p, t.s, t.s + |BREAKPOINT|);
      }
    }
  }

  lemma PrefixSlice(src: string, p: nat, i: nat, j: nat)
    requires i <= j <= p <= |src|
    ensures src[..p][i..j] == src[i..j]
  {
  }

  lemma SuffixAlike(g: Range, h: Range, x: Tok, y: Tok)
    requires SameText(g, h) && g.from <= x.s < x.e <= g.end && Shifted(x, y, h.from - g.from)
    ensures y.s <= y.e <= |h.src| && Alike(g.src, x, h.src, y)
  {
    SameSlice(g, h, x, y);
    BreakpointMoves(g, h, x, y);
  }

  lemma {:induction false} BeforeEnds(u: Unicode, src: string, i: nat, end: nat, afterE: bool, p: nat)
    requires i <= end <= |src| && Boundary(u, src, i, end, afterE, p)
    ensures forall t :: t in Before(u, src, i, end, afterE, p) ==> t.s < t.e <= p
    decreases end - i
  {
    if i != p {
      var t := Next(u, src, i, end, afterE);
      hide Next, IsE;
      BeforeEnds(u, src, t.e, end, IsE(src, t), p);
    }
  }

  /** A text with a literal at place |pre|. */
  function Source(pre: string, d: Delim, body: string, post: string): string { pre + Literal(d, body) + post }

  /** Lexing the text reaches the literal between two tokens, and it is not the string of an E'...'. */
  ghost predicate HasLiteral(u: Unicode, pre: string, d: Delim, body: string, post: string) {
    var src := Source(pre, d, body, post);
    && Closes(d, body, post)
    && Boundary(u, src, 0, |src|, false, |pre|)
    && (d.Single? ==> !FlagAt(u, src, 0, |src|, false, |pre|))
  }

  lemma OpeningChar(d: Delim, body: string, post: string)
    requires Closes(d, body, post)
    ensures Opening(d) != "" && Opening(d)[0] in {'\'', '"', '$'}
  {
  }

  lemma TextParts(pre: string, d: Delim, body: string, post: string)
    requires Opening(d) != ""
    ensures
      var src, q := Source(pre, d, body, post), |pre| + |Literal(d, body)|;
      && |pre| < q <= |src| && src[..|pre|] == pre && src[|pre|] == Opening(d)[0] && src[q..] == post
      && src[q - 1] == Opening(d)[|Opening(d)| - 1]
  {
    var src, q := Source(pre, d, body, post), |pre| + |Literal(d, body)|;
    assert src[q..] == post;
  }

  ghost function Ahead(u: Unicode, pre: string, d: Delim, body: string, post: string): seq<Tok>
    requires HasLiteral(u, pre, d, body, post)
  {
    Before(u, Source(pre, d, body, post), 0, |Source(pre, d, body, post)|, false, |pre|)
  }

  ghost function Behind(u: Unicode, pre: string, d: Delim, body: string, post: string): seq<Tok> {
    var src := Source(pre, d, body, post);
    Lex(u, src, |pre| + |Literal(d, body)|, |src|, false)
  }

  ghost function TheLiteral(u: Unicode, pre: string, d: Delim, body: string, post: string): Tok
    requires HasLiteral(u, pre, d, body, post) && |pre| < |Source(pre, d, body, post)|
  {
    var src := Source(pre, d, body, post);
    Next(u, src, |pre|, |src|, FlagAt(u, src, 0, |src|, false, |pre|))
  }

  lemma LexAtBoundary(u: Unicode, src: string, p: nat)
    requires p < |src| && Boundary(u, src, 0, |src|, false, p)
    ensures
      var t := Next(u, src, p, |src|, FlagAt(u, src, 0, |src|, false, p));
      Lex(u, src, 0, |src|, false) == Before(u, src, 0, |src|, false, p) + ([t] + Lex(u, src, t.e, |src|, IsE(src, t)))
  {
    hide *;
    LexSplits(u, src, 0, |src|, false, p);
    LexFirst(u, src, p, |src|, FlagAt(u, src, 0, |src|, false, p));
  }

  lemma LiteralThere(u: Unicode, pre: string, d: Delim, body: string, post: string)
    requires HasLiteral(u, pre, d, body, post)
    ensures |pre| < |Source(pre, d, body, post)|
    ensures
      var t := TheLiteral(u, pre, d, body, post);
      t.k == KindOf(d) && t.s == |pre| && t.e == |pre| + |Literal(d, body)|
  {
    var src := Source(pre, d, body, post);
    hide Next, Closes, Boundary, Literal, Opening, FlagAt;
    OpeningChar(d, body, post);
    TextParts(pre, d, body, post);
    LiteralToken(u, pre, d, body, post, FlagAt(u, src, 0, |src|, false, |pre|));
  }

  lemma NotE(src: string, t: Tok)
    requires t.k != Word
    ensures !IsE(src, t)
  {
  }

  lemma LexAround(u: Unicode, pre: string, d: Delim, body: string, post: string)
    requires HasLiteral(u, pre, d, body, post)
    ensures |pre| < |Source(pre, d, body, post)|
    ensures
      var src, t := Source(pre, d, body, post), TheLiteral(u, pre, d, body, post);
      && t.k == KindOf(d) && t.s == |pre| && t.e == |pre| + |Literal(d, body)| <= |src|
      && Lex(u, src, 0, |src|, false) == Ahead(u, pre, d, body, post) + ([t] + Behind(u, pre, d, body, post))
  {
    var src := Source(pre, d, body, post);
    hide Lex, Next, Literal, Closes, Opening, Boundary, Before, FlagAt, IsE;
    LiteralThere(u, pre, d, body, post);
    NotE(src, TheLiteral(u, pre, d, body, post));
    LexAtBoundary(u, src, |pre|);
  }

  // ---------- two bodies in the same place ----------

  lemma SameFront(pre: string, d: Delim, body: string, body': string, post: string)
    requires Opening(d) != "" && Opening(d)[0] in {'\'', '"', '$'}
    ensures
      var src, src' := Source(pre, d, body, post), Source(pre, d, body', post);
      View(src, |src|, src', |src'|, 0, 0, |pre| + 1) && Stops(src, |pre| + 1)
  {
    TextParts(pre, d, body, post);
    TextParts(pre, d, body', post);
    var src, src' := Source(pre, d, body, post), Source(pre, d, body', post);
    hide Source, Literal, Opening;
    forall j | 0 <= j < |pre| + 1 ensures src[j] == src'[j] {
      if j < |pre| {
        assert src[..|pre|][j] == src'[..|pre|][j];
      }
    }
  }

  lemma AheadStays(u: Unicode, pre: string, d: Delim, body: string, body': string, post: string)
    requires HasLiteral(u, pre, d, body, post) && Closes(d, body', post)
    ensures HasLiteral(u, pre, d, body', post)
    ensures Ahead(u, pre, d, body', post) == Ahead(u, pre, d, body, post)
  {
    var src, src' := Source(pre, d, body, post), Source(pre, d, body', post);
    hide Source, Literal, Opening, Closes, View, Stops, Boundary, Before, FlagAt;
    OpeningChar(d, body, post);
    SameFront(pre, d, body, body', post);
    PrefixStays(u, src, |src|, src', |src'|, 0, false, |pre|);
  }

  function After(pre: string, d: Delim, body: string, post: string): Range {
    Range(Source(pre, d, body, post), |pre| + |Literal(d, body)|, |Source(pre, d, body, post)|, 1)
  }

  lemma NoLineStart(pre: string, d: Delim, body: string, post: string)
    requires Closes(d, body, post)
    ensures Valid(After(pre, d, body, post))
    ensures !StartsLine(After(pre, d, body, post).src, After(pre, d, body, post).from)
    ensures After(pre, d, body, post).src[After(pre, d, body, post).from..] == post
  {
    OpeningChar(d, body, post);
    TextParts(pre, d, body, post);
    ClosingChar(d, body, post);
    hide Source, Literal, Opening, Closes;
  }

  lemma ClosingChar(d: Delim, body: string, post: string)
    requires Closes(d, body, post)
    ensures Opening(d) != "" && Opening(d)[|Opening(d)| - 1] in {'\'', '"', '$'}
  {
    if d.Tag? {
      TagCloses(d.tag);
    }
  }

  lemma BehindSame(pre: string, d: Delim, body: string, body': string, post: string)
    requires Closes(d, body, post) && Closes(d, body', post)
    ensures SameText(After(pre, d, body, post), After(pre, d, body', post))
  {
    NoLineStart(pre, d, body, post);
    NoLineStart(pre, d, body', post);
    var g, h := After(pre, d, body, post), After(pre, d, body', post);
    assert g.end == |g.src| && h.end == |h.src|;
    hide After, Closes, StartsLine;
    assert |g.src[g.from..]| == |h.src[h.from..]|;
    forall j | g.from <= j < g.end ensures g.src[j] == h.src[j + (h.from - g.from)] {
      assert g.src[g.from..][j - g.from] == h.src[h.from..][j - g.from];
    }
  }

  ghost predicate AllAlike(src: string, toks: seq<Tok>, src': string, toks': seq<Tok>) {
    && |toks| == |toks'| && InText(src, toks) && InText(src', toks')
    && forall j :: 0 <= j < |toks| ==> Alike(src, toks[j], src', toks'[j])
  }

  lemma AlikeConcat(src: string, a: seq<Tok>, b: seq<Tok>, src': string, a': seq<Tok>, b': seq<Tok>)
    requires AllAlike(src, a, src', a') && AllAlike(src, b, src', b')
    ensures AllAlike(src, a + b, src', a' + b')
  {
    hide Alike;
  }

  lemma AheadAlike(u: Unicode, pre: string, d: Delim, body: string, body': string, post: string)
    requires HasLiteral(u, pre, d, body, post) && HasLiteral(u, pre, d, body', post)
    requires Ahead(u, pre, d, body', post) == Ahead(u, pre, d, body, post)
    ensures AllAlike(Source(pre, d, body, post), Ahead(u, pre, d, body, post),
                     Source(pre, d, body', post), Ahead(u, pre, d, body', post))
  {
    var src, src', toks := Source(pre, d, body, post), Source(pre, d, body', post), Ahead(u, pre, d, body, post);
    OpeningChar(d, body, post);
    OpeningChar(d, body', post);
    BeforeEnds(u, src, 0, |src|, false, |pre|);
    TextParts(pre, d, body, post);
    TextParts(pre, d, body', post);
    LexAround(u, pre, d, body, post);
    LexAround(u, pre, d, body', post);
    forall t | t in toks ensures t.s <= t.e <= |src| && t.e <= |src'| && Alike(src, t, src', t) {
      AheadTokenAlike(u, src, src', |pre|, t);
    }
  }

  lemma AheadTokenAlike(u: Unicode, src: string, src': string, p: nat, t: Tok)
    requires p < |src| && p < |src'| && src[..p] == src'[..p] && t.s < t.e <= p
    requires t in Lex(u, src, 0, |src|, false) && t in Lex(u, src', 0, |src'|, false)
    ensures Alike(src, t, src', t)
  {
    hide Lex, Alike;
    if t.k == Line {
      LineTokens(u, src, 0, |src|, false, t);
      LineTokens(u, src', 0, |src'|, false, t);
    }
    PrefixAlike(src, src', p, t);
  }

  lemma RangesAlike(u: Unicode, g: Range, h: Range)
    requires SameText(g, h)
    ensures AllAlike(g.src, Toks(u, g), h.src, Toks(u, h))
  {
    SameToks(u, g, h);
    var xs, ys := Toks(u, g), Toks(u, h);
    hide SameText, Toks, Alike;
    forall j | 0 <= j < |xs| ensures ys[j].s <= ys[j].e <= |h.src| && Alike(g.src, xs[j], h.src, ys[j]) {
      SuffixAlike(g, h, xs[j], ys[j]);
    }
  }

  lemma BehindIsToks(u: Unicode, pre: string, d: Delim, body: string, post: string)
    requires Closes(d, body, post)
    ensures Valid(After(pre, d, body, post)) && Toks(u, After(pre, d, body, post)) == Behind(u, pre, d, body, post)
    ensures After(pre, d, body, post).src == Source(pre, d, body, post)
  {
    hide Lex;
    NoLineStart(pre, d, body, post);
  }

  lemma BehindAlike(u: Unicode, pre: string, d: Delim, body: string, body': string, post: string)
    requires Closes(d, body, post) && Closes(d, body', post)
    ensures AllAlike(Source(pre, d, body, post), Behind(u, pre, d, body, post),
                     Source(pre, d, body', post), Behind(u, pre, d, body', post))
  {
    hide *;
    BehindSame(pre, d, body, body', post);
    RangesAlike(u, After(pre, d, body, post), After(pre, d, body', post));
    BehindIsToks(u, pre, d, body, post);
    BehindIsToks(u, pre, d, body', post);
  }

  lemma LiteralAlike(src: string, t: Tok, src': string, t': Tok)
    requires t.k == t'.k && t.k in {Str, Ident, Dollar} && t.s <= t.e <= |src| && t'.s <= t'.e <= |src'|
    ensures AllAlike(src, [t], src', [t'])
  {
  }

  /** Token by token, the two texts read alike. */
  lemma TokensAlike(u: Unicode, pre: string, d: Delim, body: string, body': string, post: string)
    requires HasLiteral(u, pre, d, body, post) && Closes(d, body', post)
    ensures
      var src, src' := Source(pre, d, body, post), Source(pre, d, body', post);
      AllAlike(src, Lex(u, src, 0, |src|, false), src', Lex(u, src', 0, |src'|, false))
  {
    var src, src' := Source(pre, d, body, post), Source(pre, d, body', post);
    hide *;
    AheadStays(u, pre, d, body, body', post);
    LexAround(u, pre, d, body, post);
    LexAround(u, pre, d, body', post);
    LiteralCloses(u, pre, d, body, post);
    AheadAlike(u, pre, d, body, body', post);
    BehindAlike(u, pre, d, body, body', post);
    var t, t' := TheLiteral(u, pre, d, body, post), TheLiteral(u, pre, d, body', post);
    KindOfLiteral(d);
    LiteralAlike(src, t, src', t');
    AlikeConcat(src, [t], Behind(u, pre, d, body, post), src', [t'], Behind(u, pre, d, body', post));
    AlikeConcat(src, Ahead(u, pre, d, body, post), [t] + Behind(u, pre, d, body, post),
                src', Ahead(u, pre, d, body', post), [t'] + Behind(u, pre, d, body', post));
  }

  lemma LiteralCloses(u: Unicode, pre: string, d: Delim, body: string, post: string)
    requires HasLiteral(u, pre, d, body, post)
    ensures Closes(d, body, post)
  {
  }

  lemma KindOfLiteral(d: Delim)
    ensures KindOf(d) in {Str, Ident, Dollar}
  {
  }

  // ---------- the reports ----------

  /** No comment of the file mentions the marker that lifts rules. */
  ghost predicate NoNotes(src: string, toks: seq<Tok>)
    requires InText(src, toks)
  {
    forall t :: t in toks && t.k == Line ==> IndexOf(src[t.s..t.e], ALLOW, 0) < 0
  }

  lemma NoNotesAlike(src: string, toks: seq<Tok>, src': string, toks': seq<Tok>)
    requires AllAlike(src, toks, src', toks') && NoNotes(src, toks)
    ensures NoNotes(src', toks')
  {
    forall t' | t' in toks' && t'.k == Line ensures IndexOf(src'[t'.s..t'.e], ALLOW, 0) < 0 {
      var j :| 0 <= j < |toks'| && toks'[j] == t';
      assert Alike(src, toks[j], src', toks'[j]);
      assert toks[j] in toks;
    }
  }

  lemma {:induction false} AboveAreComments(src: string, toks: seq<Tok>, a: nat, j: nat)
    requires a <= j <= |toks| && InText(src, toks)
    ensures forall t :: t in Above(src, toks, a, j) ==> t in toks && t.k == Line
    decreases j
  {
    if j > a {
      hide StartsLine, Newlines;
      AboveAreComments(src, toks, a, j - 1);
    }
  }

  lemma {:induction false} TrailingAreComments(src: string, toks: seq<Tok>, j: nat)
    requires j <= |toks| && InText(src, toks)
    ensures forall t :: t in Trailing(src, toks, j) ==> t in toks && t.k == Line
    decreases |toks| - j
  {
    if j < |toks| {
      TrailingAreComments(src, toks, j + 1);
    }
  }

  lemma {:induction false} NothingLifted(u: Unicode, src: string, toks: seq<Tok>, comments: seq<Tok>)
    requires InText(src, toks) && NoNotes(src, toks) && InText(src, comments)
    requires forall t :: t in comments ==> t in toks && t.k == Line
    ensures LiftedBy(u, src, comments) == {}
  {
    if comments != [] {
      var last := comments[|comments| - 1];
      assert last in comments;
      NothingLifted(u, src, toks, comments[..|comments| - 1]);
    }
  }

  lemma NothingAllowed(u: Unicode, g: Range, n: nat)
    requires Valid(g) && NoNotes(g.src, Toks(u, g)) && n < |Stmts(u, g)|
    ensures Allowed(u, g, n, {}) == {}
  {
    var st := Stmts(u, g)[n];
    AboveAreComments(g.src, Toks(u, g), st.a, st.f);
    TrailingAreComments(g.src, Toks(u, g), st.f);
    hide NoNotes, Toks, Stmts, Above, Trailing, LiftedBy;
    NothingLifted(u, g.src, Toks(u, g), Comments(u, g, n));
  }

  /** The rules reported for each statement of a file on its own account. */
  ghost function RuleLists(u: Unicode, src: string): seq<seq<Rule>> {
    var g := Whole(src);
    seq(|Stmts(u, g)|, n requires 0 <= n < |Stmts(u, g)| =>
      Broken(RULES, StmtText(u, g, n), Top, Allowed(u, g, n, {})))
  }

  lemma StmtsAlike(u: Unicode, g: Range, h: Range)
    requires Valid(g) && Valid(h) && AllAlike(g.src, Toks(u, g), h.src, Toks(u, h))
    ensures Stmts(u, h) == Stmts(u, g)
  {
    var xs, ys := Toks(u, g), Toks(u, h);
    hide Toks, SplitFrom;
    assert forall j :: 0 <= j < |xs| ==> Alike(g.src, xs[j], h.src, ys[j]);
    SplitSame(g.src, xs, h.src, ys, 0, 0, -1);
  }

  lemma PiecesAlike(src: string, xs: seq<Tok>, src': string, ys: seq<Tok>)
    requires AllAlike(src, xs, src', ys)
    ensures |xs| == |ys| && InText(src, xs) && InText(src', ys)
    ensures forall k :: 0 <= k < |xs| ==> Piece(src', ys[k]) == Piece(src, xs[k])
  {
    hide Piece;
    assert forall j :: 0 <= j < |xs| ==> Alike(src, xs[j], src', ys[j]);
  }

  lemma SameRaw(u: Unicode, g: Range, h: Range, n: nat)
    requires Valid(g) && Valid(h) && n < |Stmts(u, g)| && Stmts(u, h) == Stmts(u, g)
    requires
      var st := Stmts(u, g)[n];
      Raw(h.src, Toks(u, h), st.f, st.z) == Raw(g.src, Toks(u, g), st.f, st.z)
    ensures StmtText(u, h, n) == StmtText(u, g, n)
  {
    hide Toks, Stmts, Raw, Upper, Trim, Collapse;
  }

  lemma StmtTextAlike(u: Unicode, g: Range, h: Range, n: nat)
    requires Valid(g) && Valid(h) && AllAlike(g.src, Toks(u, g), h.src, Toks(u, h))
    requires n < |Stmts(u, g)| && Stmts(u, h) == Stmts(u, g)
    ensures StmtText(u, h, n) == StmtText(u, g, n)
  {
    hide *;
    StmtInside(u, g, n);
    PiecesAlike(g.src, Toks(u, g), h.src, Toks(u, h));
    RawSame(g.src, Toks(u, g), h.src, Toks(u, h), Stmts(u, g)[n].f, Stmts(u, g)[n].z);
    SameRaw(u, g, h, n);
  }

  lemma StmtInside(u: Unicode, g: Range, n: nat)
    requires Valid(g) && n < |Stmts(u, g)|
    ensures Stmts(u, g)[n].f < Stmts(u, g)[n].z <= |Toks(u, g)|
  {
    hide Toks, Stmts;
  }

  /** The two files have the same statements, and no annotations. */
  ghost predicate SameStatements(u: Unicode, g: Range, h: Range) {
    && Valid(g) && Valid(h) && Stmts(u, h) == Stmts(u, g)
    && forall n :: 0 <= n < |Stmts(u, g)| ==>
         StmtText(u, h, n) == StmtText(u, g, n) && Allowed(u, h, n, {}) == {} && Allowed(u, g, n, {}) == {}
  }

  lemma SameFromAlike(u: Unicode, g: Range, h: Range)
    requires Valid(g) && Valid(h) && AllAlike(g.src, Toks(u, g), h.src, Toks(u, h)) && NoNotes(g.src, Toks(u, g))
    ensures SameStatements(u, g, h)
  {
    hide Toks, AllAlike, NoNotes, Stmts, StmtText, Allowed;
    NoNotesAlike(g.src, Toks(u, g), h.src, Toks(u, h));
    StmtsAlike(u, g, h);
    forall n | 0 <= n < |Stmts(u, g)|
      ensures StmtText(u, h, n) == StmtText(u, g, n) && Allowed(u, h, n, {}) == {} && Allowed(u, g, n, {}) == {}
    {
      StmtTextAlike(u, g, h, n);
      NothingAllowed(u, g, n);
      NothingAllowed(u, h, n);
    }
  }

  lemma AlikeFiles(u: Unicode, pre: string, d: Delim, body: string, body': string, post: string)
    requires HasLiteral(u, pre, d, body, post) && Closes(d, body', post)
    requires NoNotes(Source(pre, d, body, post), Toks(u, Whole(Source(pre, d, body, post))))
    ensures SameStatements(u, Whole(Source(pre, d, body, post)), Whole(Source(pre, d, body', post)))
  {
    var g, h := Whole(Source(pre, d, body, post)), Whole(Source(pre, d, body', post));
    hide Source, HasLiteral, Closes, Lex, AllAlike, NoNotes, SameStatements;
    TokensAlike(u, pre, d, body, body', post);
    SameFromAlike(u, g, h);
  }

  lemma SameLists(u: Unicode, src: string, src': string)
    requires SameStatements(u, Whole(src), Whole(src'))
    ensures RuleLists(u, src') == RuleLists(u, src)
  {
    hide Stmts, StmtText, Allowed, Broken;
  }

  /**
   * In a file without annotations, what a closed literal contains changes neither the number of statements nor
   * the rules reported for any of them.
   */
  lemma LiteralsAreBlind(u: Unicode, pre: string, d: Delim, body: string, body': string, post: string)
    requires HasLiteral(u, pre, d, body, post) && Closes(d, body', post)
    requires NoNotes(Source(pre, d, body, post), Toks(u, Whole(Source(pre, d, body, post))))
    ensures RuleLists(u, Source(pre, d, body', post)) == RuleLists(u, Source(pre, d, body, post))
  {
    hide *;
    AlikeFiles(u, pre, d, body, body', post);
    SameLists(u, Source(pre, d, body, post), Source(pre, d, body', post));
  }

  ghost predicate HasDo(u: Unicode, src: string) {
    exists n :: 0 <= n < |Stmts(u, Whole(src))| && IsDo(StmtText(u, Whole(src), n))
  }

  lemma OwnFlag(u: Unicode, g: Range, n: nat, r: Rule)
    requires Valid(g) && n < |Stmts(u, g)| && !IsDo(StmtText(u, g, n))
    ensures StatementFlags(u, g, Top, {}, n, r) <==> Breaks(r, StmtText(u, g, n), Top, Allowed(u, g, n, {}))
  {
    RuleReportsFlag(u, g, Top, {}, n, r);
  }

  lemma FlagsAlike(u: Unicode, src: string, src': string, r: Rule)
    requires SameStatements(u, Whole(src), Whole(src')) && !HasDo(u, src)
    requires Flags(Reports(u, Whole(src), Top, {}), r)
    ensures Flags(Reports(u, Whole(src'), Top, {}), r)
  {
    var g, h := Whole(src), Whole(src');
    hide Reports, FirstReports, Flags, Stmts, StmtText, Allowed, IsDo, Breaks, StatementFlags;
    AllStatements(u, g, Top, {});
    var n := FlaggedStatement(u, g, Top, {}, |Stmts(u, g)|, r);
    OwnFlag(u, g, n, r);
    OwnFlag(u, h, n, r);
    StatementIsReported(u, h, Top, {}, |Stmts(u, h)|, n, r);
    AllStatements(u, h, Top, {});
  }

  lemma SameBothWays(u: Unicode, src: string, src': string)
    requires SameStatements(u, Whole(src), Whole(src'))
    ensures SameStatements(u, Whole(src'), Whole(src)) && (HasDo(u, src') <==> HasDo(u, src))
  {
    hide Stmts, StmtText, Allowed, IsDo;
  }

  /** Without DO statements, the same rules are reported for the whole file. */
  lemma LiteralsChangeNoReport(u: Unicode, pre: string, d: Delim, body: string, body': string, post: string, r: Rule)
    requires HasLiteral(u, pre, d, body, post) && Closes(d, body', post)
    requires NoNotes(Source(pre, d, body, post), Toks(u, Whole(Source(pre, d, body, post))))
    requires !HasDo(u, Source(pre, d, body, post))
    ensures Flags(Reports(u, Whole(Source(pre, d, body', post)), Top, {}), r)
       <==> Flags(Reports(u, Whole(Source(pre, d, body, post)), Top, {}), r)
  {
    hide *;
    var src, src' := Source(pre, d, body, post), Source(pre, d, body', post);
    AlikeFiles(u, pre, d, body, body', post);
    SameBothWays(u, src, src');
    if Flags(Reports(u, Whole(src), Top, {}), r) {
      FlagsAlike(u, src, src', r);
    }
    if Flags(Reports(u, Whole(src'), Top, {}), r) {
      FlagsAlike(u, src', src, r);
    }
  }
}
