/** The destructive-statement rules and the comments that lift them. */
module SqlRules {
  import opened Sequences
  import opened Text
  import opened SqlLexer
  import opened SqlStatements

  // ---------- word patterns on normalised statements ----------

  predicate IsBoundary(s: string, i: nat)
    requires i <= |s|
  {
    (i > 0 && IsAsciiWord(s[i - 1])) != (i < |s| && IsAsciiWord(s[i]))
  }

  /** The words stand at i, and no word runs on behind them. */
  predicate WordsAt(s: string, words: string, i: nat) {
    MatchesAt(s, words, i) && IsBoundary(s, i + |words|)
  }

  predicate HasWords(s: string, words: string) {
    exists i: nat :: i <= |s| && IsBoundary(s, i) && WordsAt(s, words, i)
  }

  predicate IsAlterTable(s: string) { HasWords(s, "ALTER TABLE") }

  /** ALTER [COLUMN] name [SET DATA] TYPE, where name is one unspaced word other than COLUMN or TABLE. */
  predicate ChangesType(s: string) {
    exists i: nat, j: nat, k: nat, l: nat :: i < j < k < l <= |s| && ChangesTypeAt(s, i, j, k, l)
  }

  predicate ChangesTypeAt(s: string, i: nat, j: nat, k: nat, l: nat)
    requires i < j < k < l <= |s|
  {
    && IsBoundary(s, i) && MatchesAt(s, "ALTER ", i)
    && (j == i + 6 || (j == i + 13 && MatchesAt(s, "COLUMN ", i + 6)))
    && !WordsAt(s, "COLUMN", j) && !WordsAt(s, "TABLE", j)
    && (forall p :: j <= p < k ==> !IsSpace(s[p]))
    && s[k] == ' '
    && (l == k + 1 || (l == k + 10 && MatchesAt(s, "SET DATA ", k + 1)))
    && WordsAt(s, "TYPE", l)
  }

  predicate AddsAt(part: string, i: nat)
    requires i <= |part|
  {
    && IsBoundary(part, i) && MatchesAt(part, "ADD ", i)
    && !WordsAt(part, "CONSTRAINT", i + 4) && !WordsAt(part, "PRIMARY", i + 4) && !WordsAt(part, "UNIQUE", i + 4)
    && !WordsAt(part, "CHECK", i + 4) && !WordsAt(part, "FOREIGN", i + 4) && !WordsAt(part, "EXCLUDE", i + 4)
  }

  /** The first column addition at or after i, or the length of the part. */
  function FirstAdd(part: string, i: nat): (r: nat)
    requires i <= |part|
    ensures i <= r <= |part|
    decreases |part| - i
  {
    if i == |part| || AddsAt(part, i) then i else FirstAdd(part, i + 1)
  }

  predicate HasSerial(col: string) {
    exists size, width ::
      size in ["", "SMALL", "BIG"] && width in ["", "2", "4", "8"] && HasWords(col, size + "SERIAL" + width)
  }

  predicate AddsRequiredColumn(part: string) {
    var m := FirstAdd(part, 0);
    var col := part[m..];
    && m < |part|
    && (HasWords(col, "NOT NULL") || HasWords(col, "PRIMARY KEY"))
    && !HasWords(col, "DEFAULT") && !HasWords(col, "GENERATED") && !HasSerial(col)
  }

  predicate AddsNotNullColumn(s: string) {
    IsAlterTable(s) && exists part :: part in PartsFrom(s, 0, 0) && AddsRequiredColumn(part)
  }

  /** EXECUTE that is neither a privilege nor a trigger's function. */
  predicate ExecutesAt(s: string, i: nat) {
    && i <= |s| && IsBoundary(s, i) && WordsAt(s, "EXECUTE", i)
    && !WordsAt(s, " ON", i + 7) && !WordsAt(s, " FUNCTION", i + 7) && !WordsAt(s, " PROCEDURE", i + 7)
  }

  predicate HasExecute(s: string) {
    exists i: nat :: i <= |s| && ExecutesAt(s, i)
  }

  predicate CreatesFunction(s: string) {
    || HasWords(s, "CREATE FUNCTION") || HasWords(s, "CREATE PROCEDURE")
    || HasWords(s, "CREATE OR REPLACE FUNCTION") || HasWords(s, "CREATE OR REPLACE PROCEDURE")
  }

  predicate IsDo(s: string) { WordsAt(s, "DO", 0) }

  // ---------- rules ----------

  datatype Rule =
    | Drop | Rename | AlterType | AddNotNull | SetNotNull | AddCheck | CreateOrReplace | AlterPolicy | Revoke | Execute

  const RULES :=
    [Drop, Rename, AlterType, AddNotNull, SetNotNull, AddCheck, CreateOrReplace, AlterPolicy, Revoke, Execute]

  function Name(r: Rule): string {
    match r
    case Drop => "drop"
    case Rename => "rename"
    case AlterType => "alter-type"
    case AddNotNull => "add-not-null"
    case SetNotNull => "set-not-null"
    case AddCheck => "add-check"
    case CreateOrReplace => "create-or-replace"
    case AlterPolicy => "alter-policy"
    case Revoke => "revoke"
    case Execute => "execute"
  }

  predicate Test(r: Rule, s: string) {
    match r
    case Drop => HasWords(s, "DROP")
    case Rename => HasWords(s, "RENAME")
    case AlterType => IsAlterTable(s) && ChangesType(s)
    case AddNotNull => AddsNotNullColumn(s)
    case SetNotNull => HasWords(s, "SET NOT NULL")
    case AddCheck => (IsAlterTable(s) || HasWords(s, "ALTER DOMAIN")) && HasWords(s, "CHECK")
    case CreateOrReplace => HasWords(s, "CREATE OR REPLACE")
    case AlterPolicy => HasWords(s, "ALTER POLICY")
    case Revoke => HasWords(s, "REVOKE")
    case Execute => HasExecute(s)
  }

  /** Top: the file; Do: the body of a DO block; Lit: a literal inside one, most likely dynamic SQL. */
  datatype Mode = Top | Do | Lit

  predicate Breaks(r: Rule, s: string, mode: Mode, allow: set<string>) {
    (mode == Do || r != Execute) && Name(r) !in allow && Test(r, s)
  }

  function Broken(rules: seq<Rule>, s: string, mode: Mode, allow: set<string>): seq<Rule> {
    if rules == [] then []
    else (if Breaks(rules[0], s, mode, allow) then [rules[0]] else []) + Broken(rules[1..], s, mode, allow)
  }

  lemma {:induction false} BrokenIff(rules: seq<Rule>, s: string, mode: Mode, allow: set<string>, r: Rule)
    ensures r in Broken(rules, s, mode, allow) <==> r in rules && Breaks(r, s, mode, allow)
  {
    if rules != [] {
      BrokenIff(rules[1..], s, mode, allow, r);
    }
  }

  // ---------- comments that lift rules ----------

  function Newlines(src: string, i: nat, j: nat): nat
    requires i <= j <= |src|
  {
    if i == j then 0 else Newlines(src, i, j - 1) + if src[j - 1] == '\n' then 1 else 0
  }

  /** Only blanks stand between the start of the line and pos. */
  predicate StartsLine(src: string, pos: nat)
    requires pos <= |src|
  {
    pos == 0 || src[pos - 1] == '\n' || (IsSpace(src[pos - 1]) && StartsLine(src, pos - 1))
  }

  /** The comments on lines of their own directly above token j, nearest first. */
  function Above(src: string, toks: seq<Tok>, a: nat, j: nat): seq<Tok>
    requires a <= j <= |toks| && InText(src, toks)
    decreases j - a
  {
    if j == a then []
    else
      var t := toks[j - 1];
      if t.k == Ws && Newlines(src, t.s, t.e) <= 1 then Above(src, toks, a, j - 1)
      else if t.k == Line && StartsLine(src, t.s) then [t] + Above(src, toks, a, j - 1)
      else []
  }

  /** The comment at the end of the line on which token j stands. */
  function Trailing(src: string, toks: seq<Tok>, j: nat): seq<Tok>
    requires j <= |toks| && InText(src, toks)
    decreases |toks| - j
  {
    if j == |toks| then []
    else if toks[j].k == Line then [toks[j]]
    else if '\n' in src[toks[j].s..toks[j].e] then []
    else Trailing(src, toks, j + 1)
  }

  function Annotations(src: string, toks: seq<Tok>, st: Stmt): seq<Tok>
    requires st.a <= st.f <= |toks| && InText(src, toks)
  {
    Above(src, toks, st.a, st.f) + Trailing(src, toks, st.f)
  }

  method FindAnnotations(src: string, toks: seq<Tok>, st: Stmt) returns (found: seq<Tok>)
    requires st.a <= st.f <= |toks| && InText(src, toks)
    ensures found == Annotations(src, toks, st)
  {
    found := [];
    var j := st.f;
    while j > st.a
      invariant st.a <= j <= st.f
      invariant found + Above(src, toks, st.a, j) == Above(src, toks, st.a, st.f)
    {
      var t := toks[j - 1];
      if t.k == Ws && Newlines(src, t.s, t.e) <= 1 {
      } else if t.k == Line && StartsLine(src, t.s) {
        Snoc(found, t, Above(src, toks, st.a, j - 1));
        found := found + [t];
      } else {
        break;
      }
      j := j - 1;
    }
    assert found == Above(src, toks, st.a, st.f);
    j := st.f;
    while j < |toks|
      invariant st.f <= j <= |toks| && found == Above(src, toks, st.a, st.f)
      invariant Trailing(src, toks, j) == Trailing(src, toks, st.f)
    {
      var t := toks[j];
      if t.k == Line {
        found := found + [t];
        return;
      }
      if '\n' in src[t.s..t.e] {
        return;
      }
      j := j + 1;
    }
  }

  const ALLOW := "migration-allow:"

  /** What a comment says: nothing, a marker without rule names, or names with or without a reason. */
  datatype Note = NoNote | Nameless | Named(names: seq<string>, reason: bool)

  predicate IsLineEnd(c: char) { c == '\n' || c == '\r' || c == '\U{2028}' || c == '\U{2029}' }

  function FirstLine(s: string): string {
    if s == "" || IsLineEnd(s[0]) then "" else [s[0]] + FirstLine(s[1..])
  }

  predicate IsNameChar(c: char) { 'a' <= c <= 'z' || c == '-' }

  function NameEnd(s: string, i: nat): (r: nat)
    requires i <= |s|
    ensures i <= r <= |s|
    decreases |s| - i
  {
    if i == |s| || !IsNameChar(s[i]) then i else NameEnd(s, i + 1)
  }

  /** The end of a comma-separated list of names whose first names end at i. */
  function ListEnd(s: string, i: nat): (r: nat)
    requires i <= |s|
    ensures i <= r <= |s|
    decreases |s| - i
  {
    var comma := WsEnd(s, i, |s|);
    if comma == |s| || s[comma] != ',' then i
    else
      var start := WsEnd(s, comma + 1, |s|);
      var end := NameEnd(s, start);
      if end == start then i else ListEnd(s, end)
  }

  predicate SaysSomething(u: Unicode, s: string) {
    exists i :: 0 <= i < |s| && IsWordStart(u, s[i]) && s[i] != '_'
  }

  function TrimAll(names: seq<string>): seq<string> {
    seq(|names|, i requires 0 <= i < |names| => Trim(names[i]))
  }

  function ParseNote(u: Unicode, comment: string): Note {
    var k := IndexOf(comment, ALLOW, 0);
    if k < 0 then NoNote
    else
      var rest := FirstLine(comment[k + |ALLOW|..]);
      var start := WsEnd(rest, 0, |rest|);
      var first := NameEnd(rest, start);
      if first == start then Nameless
      else
        var end := ListEnd(rest, first);
        Named(TrimAll(Split(rest[start..end], ",")), SaysSomething(u, rest[end..]))
  }

  /** The rules a comment lifts: none without a reason. */
  function Lifts(note: Note): set<string> {
    if note.Named? && note.reason then set n | n in note.names else {}
  }

  function LiftedBy(u: Unicode, src: string, comments: seq<Tok>): set<string>
    requires InText(src, comments)
  {
    if comments == [] then {}
    else
      var n := |comments| - 1;
      LiftedBy(u, src, comments[..n]) + Lifts(ParseNote(u, src[comments[n].s..comments[n].e]))
  }
}
