/** Which comments lift rules, where they have to stand, on which lines reports are, and what escapes stand for. */
module SqlNotes {
  import opened Sequences
  import opened Text
  import opened SqlLexer
  import opened SqlStatements
  import opened SqlRules
  import opened SqlCheck
  import SqlQuoting

  // ---------- what a comment says ----------

  /** Names with what separates them: blanks, a comma and blanks. */
  datatype Listing = Listing(names: seq<string>, blanks: seq<(string, string)>)

  predicate IsName(name: string) {
    name != "" && forall i :: 0 <= i < |name| ==> 'a' <= name[i] <= 'z' || name[i] == '-'
  }

  predicate IsListing(list: Listing) {
    && |list.names| == |list.blanks| + 1
    && (forall i :: 0 <= i < |list.names| ==> IsName(list.names[i]))
    && (forall i :: 0 <= i < |list.blanks| ==> IsBlank(list.blanks[i].0) && IsBlank(list.blanks[i].1))
  }

  /** What follows the first name. */
  function Others(list: Listing): string
    requires IsListing(list)
    decreases |list.names|
  {
    if |list.names| == 1 then ""
    else list.blanks[0].0 + "," + list.blanks[0].1 + list.names[1] + Others(Behind(list))
  }

  function Behind(list: Listing): (r: Listing)
    requires IsListing(list) && |list.names| > 1
    ensures IsListing(r)
  {
    Listing(list.names[1..], list.blanks[1..])
  }

  function Written(list: Listing): string
    requires IsListing(list)
  {
    list.names[0] + Others(list)
  }

  /** The text cannot be taken for the end of a name, nor for a comma and one more name. */
  ghost predicate EndsList(tail: string) {
    && (tail != "" ==> !IsName([tail[0]]))
    && !exists i, j :: 0 <= i < j < |tail| && MoreNames(tail, i, j)
  }

  predicate MoreNames(tail: string, i: int, j: int)
    requires 0 <= i < j < |tail|
  {
    tail[i] == ',' && IsBlank(tail[..i]) && IsBlank(tail[i + 1..j]) && IsName([tail[j]])
  }

  /** There is a letter or a digit. */
  ghost predicate GivesReason(u: Unicode, tail: string) {
    exists i :: 0 <= i < |tail| && IsLetterOrDigit(u, tail[i])
  }

  predicate IsLetterOrDigit(u: Unicode, c: char) {
    'a' <= c <= 'z' || 'A' <= c <= 'Z' || '0' <= c <= '9' || (c >= '\U{0080}' && u.word(c))
  }

  predicate OneLine(s: string) { forall i :: 0 <= i < |s| ==> s[i] !in {'\n', '\r', '\U{2028}', '\U{2029}'} }

  /** The marker stands behind this text and nowhere before, and its line goes on like this. */
  ghost predicate Marked(comment: string, before: string, line: string, behind: string) {
    && comment == before + "migration-allow:" + line + behind
    && OneLine(line) && (behind != "" ==> !OneLine([behind[0]]))
    && forall i: nat :: MatchesAt(comment, "migration-allow:", i) ==> |before| <= i
  }

  lemma {:induction false} FirstLineIs(line: string, behind: string)
    requires OneLine(line) && (behind != "" ==> !OneLine([behind[0]]))
    ensures FirstLine(line + behind) == line
  {
    if line != "" {
      assert (line + behind)[1..] == line[1..] + behind && line == [line[0]] + line[1..];
      FirstLineIs(line[1..], behind);
    } else if behind != "" {
      assert "" + behind == behind && behind[0] == [behind[0]][0];
    }
  }

  lemma BlankParts(s: string, n: nat)
    requires IsBlank(s) && n <= |s|
    ensures IsBlank(s[..n]) && IsBlank(s[n..])
  {
    forall k | 0 <= k < |s| - n ensures IsSpace(s[n..][k]) {
      assert s[n..][k] == s[n + k];
    }
  }

  lemma {:induction false} BlanksEnd(s: string, i: nat, j: nat)
    requires i <= j <= |s| && IsBlank(s[i..j]) && (j < |s| ==> !IsSpace(s[j]))
    ensures WsEnd(s, i, |s|) == j
    decreases j - i
  {
    if i < j {
      assert s[i] == s[i..j][0] && IsSpace(s[i..j][0]);
      assert s[i + 1..j] == s[i..j][1..];
      BlankParts(s[i..j], 1);
      BlanksEnd(s, i + 1, j);
    }
  }

  lemma {:induction false} NameEnds(s: string, i: nat, j: nat)
    requires i <= j <= |s| && (forall p :: i <= p < j ==> IsNameChar(s[p])) && (j < |s| ==> !IsNameChar(s[j]))
    ensures NameEnd(s, i) == j
    decreases j - i
  {
    if i < j {
      NameEnds(s, i + 1, j);
    }
  }

  lemma NameIs(s: string, i: nat, name: string)
    requires IsName(name) && i + |name| <= |s| && s[i..i + |name|] == name
    requires i + |name| < |s| ==> !IsNameChar(s[i + |name|])
    ensures NameEnd(s, i) == i + |name|
  {
    forall p | i <= p < i + |name| ensures IsNameChar(s[p]) {
      assert s[p] == name[p - i];
    }
    NameEnds(s, i, i + |name|);
  }

  /** What stands behind a name of the list is no part of a name. */
  lemma OthersBegin(list: Listing, tail: string)
    requires IsListing(list) && EndsList(tail)
    ensures var rest := Others(list) + tail; rest != "" ==> !IsNameChar(rest[0])
  {
    var rest := Others(list) + tail;
    if |list.names| == 1 {
      assert rest == tail;
      assert tail != "" ==> [tail[0]][0] == tail[0];
    } else {
      var blank := list.blanks[0].0;
      assert rest[0] == if blank == "" then ',' else blank[0];
      assert blank != "" ==> IsSpace(blank[0]);
    }
  }

  lemma NothingMore(s: string, i: nat, tail: string)
    requires i <= |s| && s[i..] == tail && EndsList(tail)
    ensures ListEnd(s, i) == i
  {
    var comma := WsEnd(s, i, |s|);
    if comma < |s| && s[comma] == ',' {
      NotAnotherName(s, i, comma, tail);
    }
  }

  lemma SliceBehind(s: string, i: nat, j: nat, k: nat)
    requires i <= j <= k <= |s|
    ensures s[i..][j - i..k - i] == s[j..k]
  {
  }

  lemma NotAnotherName(s: string, i: nat, comma: nat, tail: string)
    requires i <= |s| && s[i..] == tail && EndsList(tail)
    requires comma == WsEnd(s, i, |s|) < |s| && s[comma] == ','
    ensures NameEnd(s, WsEnd(s, comma + 1, |s|)) == WsEnd(s, comma + 1, |s|)
  {
    WsEndBlank(s, i);
    WsEndBlank(s, comma + 1);
    var start := WsEnd(s, comma + 1, |s|);
    if start < |s| {
      SliceBehind(s, i, i, comma);
      SliceBehind(s, i, comma + 1, start);
      assert tail[..comma - i] == tail[0..comma - i];
      assert !MoreNames(tail, comma - i, start - i);
      OneCharName(s[start]);
    }
  }

  lemma OneCharName(c: char)
    ensures IsName([c]) <==> IsNameChar(c)
  {
    assert [c][0] == c;
  }

  lemma {:induction false} WsEndBlank(s: string, i: nat)
    requires i <= |s|
    ensures IsBlank(s[i..WsEnd(s, i, |s|)])
    decreases |s| - i
  {
    if i < |s| && IsSpace(s[i]) {
      WsEndBlank(s, i + 1);
      var j := WsEnd(s, i, |s|);
      assert s[i..j] == [s[i]] + s[i + 1..j];
    }
  }

  lemma ListEndStep(s: string, i: nat, comma: nat, start: nat, end: nat)
    requires i <= |s| && WsEnd(s, i, |s|) == comma < |s| && s[comma] == ','
    requires WsEnd(s, comma + 1, |s|) == start && NameEnd(s, start) == end != start
    ensures ListEnd(s, i) == ListEnd(s, end)
  {
  }

  lemma OneMoreAt(s: string, i: nat, comma: nat, start: nat, name: string)
    requires i <= comma < start && start + |name| <= |s| && IsName(name) && name != ""
    requires IsBlank(s[i..comma]) && s[comma] == ',' && IsBlank(s[comma + 1..start])
    requires s[start..start + |name|] == name && !IsSpace(s[start])
    requires start + |name| < |s| ==> !IsNameChar(s[start + |name|])
    ensures ListEnd(s, i) == ListEnd(s, start + |name|)
  {
    hide *;
    CommaIsNoBlank();
    BlanksEnd(s, i, comma);
    BlanksEnd(s, comma + 1, start);
    NameIs(s, start, name);
    ListEndStep(s, i, comma, start, start + |name|);
  }

  /** A comma and a name more. */
  lemma OneMoreRead(s: string, i: nat, a: string, b: string, name: string, rest: string)
    requires i <= |s| && s[i..] == a + "," + b + name + rest
    requires IsBlank(a) && IsBlank(b) && IsName(name) && name != "" && (rest != "" ==> !IsNameChar(rest[0]))
    ensures
      var next := i + |a| + 1 + |b| + |name|;
      next <= |s| && s[next..] == rest && ListEnd(s, i) == ListEnd(s, next)
  {
    hide *;
    NameBegins(name);
    Layout(s, i, a, b, name, rest);
    OneMoreAt(s, i, i + |a|, i + |a| + 1 + |b|, name);
  }

  lemma NameBegins(name: string)
    requires IsName(name)
    ensures name != "" && !IsSpace(name[0])
  {
    assert IsNameChar(name[0]);
  }

  lemma CommaIsNoBlank()
    ensures !IsSpace(',')
  {
  }

  lemma OthersNext(list: Listing, tail: string) returns (a: string, b: string, name: string)
    requires IsListing(list) && |list.names| > 1
    ensures IsBlank(a) && IsBlank(b) && IsName(name) && name != ""
    ensures Others(list) + tail == a + "," + b + name + (Others(Behind(list)) + tail)
    ensures |Others(list)| == |a| + 1 + |b| + |name| + |Others(Behind(list))|
    ensures |Behind(list).names| < |list.names|
  {
    a, b, name := list.blanks[0].0, list.blanks[0].1, list.names[1];
  }

  lemma OthersLast(list: Listing, tail: string)
    requires IsListing(list) && |list.names| <= 1
    ensures Others(list) == "" && Others(list) + tail == tail
  {
  }

  lemma {:induction false} ListIsRead(s: string, i: nat, list: Listing, tail: string)
    requires i <= |s| && IsListing(list) && EndsList(tail) && s[i..] == Others(list) + tail
    ensures ListEnd(s, i) == i + |Others(list)|
    decreases |list.names|
  {
    hide *;
    if |list.names| <= 1 {
      OthersLast(list, tail);
      NothingMore(s, i, tail);
    } else {
      var a, b, name := OthersNext(list, tail);
      OthersBegin(Behind(list), tail);
      OneMoreRead(s, i, a, b, name, Others(Behind(list)) + tail);
      ListIsRead(s, i + |a| + 1 + |b| + |name|, Behind(list), tail);
    }
  }

  lemma Layout(s: string, i: nat, a: string, b: string, name: string, rest: string)
    requires i <= |s| && s[i..] == a + "," + b + name + rest && name != ""
    ensures
      var comma, start := i + |a|, i + |a| + 1 + |b|;
      && start + |name| <= |s| && s[i..comma] == a && s[comma] == ',' && s[comma + 1..start] == b
      && s[start..start + |name|] == name && s[start] == name[0] && s[start + |name|..] == rest
      && (start + |name| < |s| ==> rest != "" && s[start + |name|] == rest[0])
  {
    assert s == s[..i] + a + "," + b + name + rest;
  }

  lemma EmptyIsBlank()
    ensures IsBlank("")
  {
  }

  lemma TrimName(before: string, name: string, behind: string)
    requires IsBlank(before) && IsName(name) && IsBlank(behind)
    ensures Trim(before + name + behind) == name
  {
    TrimFront(before, name + behind);
    assert before + name + behind == before + (name + behind);
    TrimBack(name, behind);
  }

  lemma {:induction false} TrimFront(before: string, s: string)
    requires IsBlank(before) && s != "" && !IsSpace(s[0])
    ensures TrimStart(before + s) == s
  {
    if before == "" {
      assert before + s == s;
    } else {
      assert IsSpace(before[0]) && (before + s)[1..] == before[1..] + s;
      BlankParts(before, 1);
      TrimFront(before[1..], s);
    }
  }

  lemma {:induction false} TrimBack(s: string, behind: string)
    requires IsBlank(behind) && s != "" && !IsSpace(s[|s| - 1])
    ensures TrimEnd(s + behind) == s
  {
    if behind == "" {
      assert s + behind == s;
    } else {
      var n := |behind| - 1;
      assert IsSpace(behind[n]) && (s + behind)[..|s + behind| - 1] == s + behind[..n];
      BlankParts(behind, n);
      TrimBack(s, behind[..n]);
    }
  }

  lemma NoComma(before: string, name: string, behind: string)
    requires IsBlank(before) && IsName(name) && IsBlank(behind)
    ensures ',' !in before + name + behind
  {
    forall i | 0 <= i < |before + name + behind| ensures (before + name + behind)[i] != ',' {
      if i < |before| {
        assert IsSpace(before[i]);
      } else if i >= |before| + |name| {
        assert IsSpace(behind[i - |before| - |name|]);
      }
    }
  }

  lemma TrimCons(piece: string, pieces: seq<string>)
    ensures TrimAll([piece] + pieces) == [Trim(piece)] + TrimAll(pieces)
  {
  }

  /** The first name with the blanks around it, the comma and the rest. */
  lemma LeadingName(list: Listing) returns (name: string, a: string, b: string)
    requires IsListing(list) && |list.names| > 1
    ensures Written(list) == name + a + "," + b + Written(Behind(list))
    ensures IsName(name) && IsBlank(a) && IsBlank(b) && IsListing(Behind(list))
    ensures list.names == [name] + Behind(list).names
  {
    name, a, b := list.names[0], list.blanks[0].0, list.blanks[0].1;
  }

  lemma OnlyName(list: Listing) returns (name: string)
    requires IsListing(list) && |list.names| <= 1
    ensures list.names == [name] && IsName(name) && Written(list) == name
  {
    name := list.names[0];
  }

  lemma {:induction false} NamesAreSplit(before: string, list: Listing)
    requires IsBlank(before) && IsListing(list)
    ensures TrimAll(Split(before + Written(list), ",")) == list.names
    decreases |list.names|
  {
    hide Split, Trim, Written, Behind, IsListing, IsName, IsBlank;
    if |list.names| <= 1 {
      var name := OnlyName(list);
      assert before + name == before + name + "";
      EmptyIsBlank();
      NoComma(before, name, "");
      SplitWhole(before + name, ",");
      TrimName(before, name, "");
      assert TrimAll([before + name]) == [name];
    } else {
      var name, a, b := LeadingName(list);
      var piece, rest := before + name + a, b + Written(Behind(list));
      assert before + Written(list) == piece + "," + rest;
      NoComma(before, name, a);
      SplitAt(piece, ",", rest);
      TrimName(before, name, a);
      NamesAreSplit(b, Behind(list));
      TrimCons(piece, Split(rest, ","));
    }
  }

  lemma SaysExactly(u: Unicode, tail: string)
    ensures SaysSomething(u, tail) <==> GivesReason(u, tail)
  {
    forall c: char ensures (IsWordStart(u, c) && c != '_') == IsLetterOrDigit(u, c) {
    }
  }

  lemma MarkerIsFound(comment: string, before: string, line: string, behind: string)
    requires Marked(comment, before, line, behind)
    ensures IndexOf(comment, ALLOW, 0) == |before|
    ensures FirstLine(comment[|before| + |ALLOW|..]) == line
  {
    assert comment[|before|..|before| + |ALLOW|] == ALLOW;
    assert MatchesAt(comment, ALLOW, |before|);
    assert comment[|before| + |ALLOW|..] == line + behind;
    FirstLineIs(line, behind);
  }

  /** A marker followed by names names exactly them, and the rest of its line is the reason. */
  lemma NoteIsRead(u: Unicode, comment: string, before: string, lead: string, list: Listing, tail: string,
                   behind: string)
    requires IsBlank(lead) && IsListing(list) && EndsList(tail)
    requires Marked(comment, before, lead + Written(list) + tail, behind)
    ensures ParseNote(u, comment) == Named(list.names, GivesReason(u, tail))
  {
    hide Split, Trim, Marked, IsBlank, EndsList, FirstLine;
    var line := lead + Written(list) + tail;
    MarkerIsFound(comment, before, line, behind);
    ListIsPlaced(line, lead, list, tail);
    assert "" + Written(list) == Written(list);
    BlankNothing();
    NamesAreSplit("", list);
    SaysExactly(u, tail);
  }

  lemma BlankNothing()
    ensures IsBlank("")
  {
  }

  lemma ListIsPlaced(line: string, lead: string, list: Listing, tail: string)
    requires IsBlank(lead) && IsListing(list) && EndsList(tail) && line == lead + Written(list) + tail
    ensures
      var start := WsEnd(line, 0, |line|);
      var first := NameEnd(line, start);
      var end := ListEnd(line, first);
      first > start && line[start..end] == Written(list) && line[end..] == tail
  {
    hide *;
    var name := FirstName(list);
    Regroup(line, lead, name, Others(list), tail);
    NameIsPlaced(line, lead, list, name, tail);
    ListIsRead(line, |lead| + |name|, list, tail);
  }

  lemma NameIsPlaced(line: string, lead: string, list: Listing, name: string, tail: string)
    requires IsBlank(lead) && IsListing(list) && EndsList(tail) && IsName(name) && name != ""
    requires line == lead + (name + (Others(list) + tail))
    ensures WsEnd(line, 0, |line|) == |lead| && NameEnd(line, |lead|) == |lead| + |name| <= |line|
    ensures line[|lead| + |name|..] == Others(list) + tail
  {
    hide *;
    ListBegins(line, lead, name, Others(list) + tail);
    OthersBegin(list, tail);
    BlanksEnd(line, 0, |lead|);
    NameIs(line, |lead|, name);
  }

  lemma FirstName(list: Listing) returns (name: string)
    requires IsListing(list)
    ensures IsName(name) && name != "" && Written(list) == name + Others(list)
  {
    name := list.names[0];
  }

  lemma Regroup(line: string, lead: string, name: string, others: string, tail: string)
    requires line == lead + (name + others) + tail
    ensures line == lead + (name + (others + tail))
    ensures |lead| + |name| + |others| <= |line|
    ensures line[|lead|..|lead| + |name| + |others|] == name + others
    ensures line[|lead| + |name| + |others|..] == tail
  {
    assert lead + (name + others) + tail == lead + (name + (others + tail));
  }

  lemma ListBegins(line: string, lead: string, name: string, rest: string)
    requires line == lead + (name + rest) && IsName(name)
    ensures
      var start := |lead|;
      && line[0..start] == lead && start < |line| && !IsSpace(line[start]) && line[start..start + |name|] == name
      && line[start + |name|..] == rest && (start + |name| < |line| ==> line[start + |name|] == rest[0])
  {
    assert IsNameChar(name[0]) && line[|lead|] == name[0];
  }

  /** A marker that no name follows. */
  lemma NamelessIsRead(u: Unicode, comment: string, before: string, lead: string, tail: string, behind: string)
    requires IsBlank(lead) && (tail != "" ==> !IsSpace(tail[0]) && !IsName([tail[0]]))
    requires Marked(comment, before, lead + tail, behind)
    ensures ParseNote(u, comment) == Nameless
  {
    MarkerIsFound(comment, before, lead + tail, behind);
    var line := lead + tail;
    assert line[0..|lead|] == lead;
    BlanksEnd(line, 0, |lead|);
    assert tail != "" ==> line[|lead|] == tail[0] == [tail[0]][0];
  }

  /** Without the marker a comment says nothing. */
  lemma NoMarker(u: Unicode, comment: string)
    ensures ParseNote(u, comment) == NoNote <==> forall i: nat :: !MatchesAt(comment, "migration-allow:", i)
  {
  }

  /** A comment lifts exactly the rules it names, if it gives a reason. */
  lemma NoteLifts(u: Unicode, comment: string, before: string, lead: string, list: Listing, tail: string,
                  behind: string)
    requires IsBlank(lead) && IsListing(list) && EndsList(tail)
    requires Marked(comment, before, lead + Written(list) + tail, behind)
    ensures forall name ::
      name in Lifts(ParseNote(u, comment)) <==> name in list.names && GivesReason(u, tail)
  {
    hide ParseNote, Marked, EndsList, IsListing;
    NoteIsRead(u, comment, before, lead, list, tail, behind);
  }

  predicate IsRuleName(name: string) {
    name in {"drop", "rename", "alter-type", "add-not-null", "set-not-null", "add-check", "create-or-replace",
             "alter-policy", "revoke", "execute"}
  }

  lemma KnownExactly(name: string)
    ensures Known(name) <==> IsRuleName(name)
  {
    forall r: Rule ensures r in RULES {
      SqlQuoting.EveryRule(r);
    }
    if IsRuleName(name) {
      assert exists r :: Name(r) == name by {
        if name == "drop" { assert Name(Drop) == name; }
        if name == "rename" { assert Name(Rename) == name; }
        if name == "alter-type" { assert Name(AlterType) == name; }
        if name == "add-not-null" { assert Name(AddNotNull) == name; }
        if name == "set-not-null" { assert Name(SetNotNull) == name; }
        if name == "add-check" { assert Name(AddCheck) == name; }
        if name == "create-or-replace" { assert Name(CreateOrReplace) == name; }
        if name == "alter-policy" { assert Name(AlterPolicy) == name; }
        if name == "revoke" { assert Name(Revoke) == name; }
        if name == "execute" { assert Name(Execute) == name; }
      }
    }
  }

  /** Faulty comments: a marker without names, with a name no rule has, or without a reason. */
  lemma FaultsExactly(note: Note, line: nat, report: Report)
    ensures report in NoteReports(note, line) <==>
      || (report == NamelessNote(line) && note == Nameless)
      || (report == UnknownName(line) && note.Named? && exists name :: name in note.names && !IsRuleName(name))
      || (report == NoReason(line) && note.Named? && !note.reason)
  {
    forall name ensures Known(name) == IsRuleName(name) {
      KnownExactly(name);
    }
  }

  // ---------- where a comment has to stand ----------

  /** Only blanks stand between the beginning of a line and the position. */
  ghost predicate LineBlankBefore(src: string, pos: nat)
    requires pos <= |src|
  {
    exists b :: 0 <= b <= pos && BlankSince(src, b, pos)
  }

  predicate BlankSince(src: string, b: int, pos: nat)
    requires 0 <= b <= pos <= |src|
  {
    (b == 0 || src[b - 1] == '\n') && forall p :: b <= p < pos ==> IsSpace(src[p])
  }

  lemma {:induction false} StartsLineExactly(src: string, pos: nat)
    requires pos <= |src|
    ensures StartsLine(src, pos) <==> LineBlankBefore(src, pos)
  {
    if pos == 0 || src[pos - 1] == '\n' {
      assert BlankSince(src, pos, pos);
    } else {
      StartsLineExactly(src, pos - 1);
      if b :| 0 <= b <= pos && BlankSince(src, b, pos) {
        assert BlankSince(src, b, pos - 1);
      }
      if IsSpace(src[pos - 1]) && StartsLine(src, pos - 1) {
        var b :| 0 <= b <= pos - 1 && BlankSince(src, b, pos - 1);
        assert BlankSince(src, b, pos);
      }
    }
  }

  ghost function LineEnds(src: string, i: nat, j: nat): set<nat>
    requires i <= j <= |src|
  {
    set p: nat | i <= p < j && src[p] == '\n'
  }

  lemma LineEndsNext(src: string, i: nat, j: nat)
    requires i < j <= |src|
    ensures |LineEnds(src, i, j)| == |LineEnds(src, i, j - 1)| + if src[j - 1] == '\n' then 1 else 0
  {
    assert LineEnds(src, i, j) == LineEnds(src, i, j - 1) + if src[j - 1] == '\n' then {j - 1} else {};
  }

  /** The number of line ends in a stretch; so a report is on its line. */
  lemma {:induction false} NewlinesExactly(src: string, i: nat, j: nat)
    requires i <= j <= |src|
    ensures Newlines(src, i, j) == |LineEnds(src, i, j)|
    decreases j - i
  {
    if i < j {
      NewlinesExactly(src, i, j - 1);
      LineEndsNext(src, i, j);
    }
  }

  /** The line of a position: one more than the line ends before it, counted from the line its text begins on. */
  lemma LineExactly(g: Range, pos: nat)
    requires pos <= |g.src|
    ensures LineOf(g, pos) == g.base + |LineEnds(g.src, 0, pos)|
  {
    NewlinesExactly(g.src, 0, pos);
  }

  /** A comment that has its line to itself. */
  ghost predicate OwnLine(src: string, t: Tok)
    requires t.s <= t.e <= |src|
  {
    t.k == Line && LineBlankBefore(src, t.s)
  }

  /** Blanks with no empty line in them. */
  ghost predicate NoEmptyLine(src: string, t: Tok)
    requires t.s <= t.e <= |src|
  {
    t.k == Ws && |LineEnds(src, t.s, t.e)| <= 1
  }

  ghost predicate Adjoins(src: string, t: Tok)
    requires t.s <= t.e <= |src|
  {
    OwnLine(src, t) || NoEmptyLine(src, t)
  }

  /** Comment i stands on a line of its own above token j with nothing but such comments and line ends between. */
  ghost predicate StandsAbove(src: string, toks: seq<Tok>, a: nat, j: nat, i: nat)
    requires j <= |toks| && InText(src, toks)
  {
    a <= i < j && OwnLine(src, toks[i]) && forall k :: i < k < j ==> Adjoins(src, toks[k])
  }

  /** Comment i is the first on the line on which token j begins. */
  ghost predicate StandsBehind(src: string, toks: seq<Tok>, j: nat, i: nat)
    requires InText(src, toks)
  {
    j <= i < |toks| && toks[i].k == Line &&
    forall k :: j <= k < i ==> toks[k].k != Line && '\n' !in src[toks[k].s..toks[k].e]
  }

  lemma {:induction false} AboveExactly(src: string, toks: seq<Tok>, a: nat, j: nat, t: Tok)
    requires a <= j <= |toks| && InText(src, toks)
    ensures t in Above(src, toks, a, j) <==> exists i: nat :: StandsAbove(src, toks, a, j, i) && toks[i] == t
    decreases j - a
  {
    if a < j {
      var last := toks[j - 1];
      StartsLineExactly(src, last.s);
      NewlinesExactly(src, last.s, last.e);
      AboveExactly(src, toks, a, j - 1, t);
      hide StartsLine, Newlines, LineBlankBefore, LineEnds;
      forall i: nat | StandsAbove(src, toks, a, j, i) && i < j - 1 ensures StandsAbove(src, toks, a, j - 1, i) {
        assert Adjoins(src, toks[j - 1]);
      }
      forall i: nat | StandsAbove(src, toks, a, j - 1, i) && Adjoins(src, last)
        ensures StandsAbove(src, toks, a, j, i)
      {
      }
      if OwnLine(src, last) {
        assert StandsAbove(src, toks, a, j, j - 1);
      }
    }
  }

  lemma {:induction false} TrailingExactly(src: string, toks: seq<Tok>, j: nat, t: Tok)
    requires j <= |toks| && InText(src, toks)
    ensures t in Trailing(src, toks, j) <==> exists i: nat :: StandsBehind(src, toks, j, i) && toks[i] == t
    decreases |toks| - j
  {
    if j < |toks| {
      if toks[j].k == Line {
        assert StandsBehind(src, toks, j, j);
      } else if '\n' !in src[toks[j].s..toks[j].e] {
        TrailingExactly(src, toks, j + 1, t);
        forall i: nat ensures StandsBehind(src, toks, j, i) <==> StandsBehind(src, toks, j + 1, i) {
        }
      }
    }
  }

  /** Token i of the range is a comment that counts for statement n. */
  ghost predicate Annotates(u: Unicode, g: Range, n: nat, i: nat)
    requires Valid(g) && n < |Stmts(u, g)|
  {
    var st, toks := Stmts(u, g)[n], Toks(u, g);
    StandsAbove(g.src, toks, st.a, st.f, i) || StandsBehind(g.src, toks, st.f, i)
  }

  lemma CommentsExactly(u: Unicode, g: Range, n: nat, t: Tok)
    requires Valid(g) && n < |Stmts(u, g)|
    ensures t in Comments(u, g, n) <==> exists i: nat :: Annotates(u, g, n, i) && i < |Toks(u, g)| && Toks(u, g)[i] == t
  {
    hide Toks, Stmts, Above, Trailing, StandsAbove, StandsBehind;
    var st, toks := Stmts(u, g)[n], Toks(u, g);
    AboveExactly(g.src, toks, st.a, st.f, t);
    TrailingExactly(g.src, toks, st.f, t);
    InsideToks(g.src, toks, st);
  }

  lemma InsideToks(src: string, toks: seq<Tok>, st: Stmt)
    requires st.f <= |toks| && InText(src, toks)
    ensures forall i: nat :: StandsAbove(src, toks, st.a, st.f, i) ==> i < |toks|
    ensures forall i: nat :: StandsBehind(src, toks, st.f, i) ==> i < |toks|
  {
  }

  lemma LiftedNext(u: Unicode, src: string, comments: seq<Tok>, name: string)
    requires InText(src, comments) && comments != []
    ensures InText(src, comments[..|comments| - 1])
    ensures name in LiftedBy(u, src, comments) <==>
      name in LiftedBy(u, src, comments[..|comments| - 1]) || LiftedAt(u, src, comments, |comments| - 1, name)
  {
    hide Lifts, ParseNote;
  }

  ghost predicate SomeLifts(u: Unicode, src: string, comments: seq<Tok>, name: string)
    requires InText(src, comments)
  {
    exists i :: 0 <= i < |comments| && LiftedAt(u, src, comments, i, name)
  }

  lemma SomeLiftsNext(u: Unicode, src: string, comments: seq<Tok>, name: string)
    requires InText(src, comments) && comments != []
    ensures InText(src, comments[..|comments| - 1])
    ensures SomeLifts(u, src, comments, name) <==>
      SomeLifts(u, src, comments[..|comments| - 1], name) || LiftedAt(u, src, comments, |comments| - 1, name)
  {
    var front := comments[..|comments| - 1];
    assert InText(src, front);
    if i :| 0 <= i < |front| && LiftedAt(u, src, front, i, name) {
      assert LiftedAt(u, src, comments, i, name);
    }
    if i :| 0 <= i < |comments| - 1 && LiftedAt(u, src, comments, i, name) {
      assert LiftedAt(u, src, front, i, name);
    }
  }

  lemma {:induction false} LiftedExactly(u: Unicode, src: string, comments: seq<Tok>, name: string)
    requires InText(src, comments)
    ensures name in LiftedBy(u, src, comments) <==> SomeLifts(u, src, comments, name)
  {
    if comments != [] {
      hide LiftedBy, LiftedAt, SomeLifts;
      LiftedNext(u, src, comments, name);
      SomeLiftsNext(u, src, comments, name);
      LiftedExactly(u, src, comments[..|comments| - 1], name);
    }
  }

  predicate LiftedAt(u: Unicode, src: string, comments: seq<Tok>, i: int, name: string)
    requires 0 <= i < |comments| && InText(src, comments)
  {
    name in Lifts(ParseNote(u, src[comments[i].s..comments[i].e]))
  }

  /** A comment that counts for statement n lifts the rule. */
  ghost predicate LiftedThere(u: Unicode, g: Range, n: nat, i: nat, name: string)
    requires Valid(g) && n < |Stmts(u, g)|
  {
    Annotates(u, g, n, i) && i < |Toks(u, g)| && name in Lifts(ParseNote(u, g.src[Toks(u, g)[i].s..Toks(u, g)[i].e]))
  }

  /** A rule is lifted for a statement exactly if it is lifted outside or by a comment that counts for it. */
  lemma AllowedExactly(u: Unicode, g: Range, n: nat, inherited: set<string>, name: string)
    requires Valid(g) && n < |Stmts(u, g)|
    ensures name in Allowed(u, g, n, inherited) <==>
      name in inherited || exists i: nat :: LiftedThere(u, g, n, i, name)
  {
    hide Toks, Stmts, Lifts, ParseNote, Annotates, Comments;
    var comments := Comments(u, g, n);
    LiftedExactly(u, g.src, comments, name);
    if i :| 0 <= i < |comments| && LiftedAt(u, g.src, comments, i, name) {
      CommentsExactly(u, g, n, comments[i]);
      var k: nat :| Annotates(u, g, n, k) && k < |Toks(u, g)| && Toks(u, g)[k] == comments[i];
      assert LiftedThere(u, g, n, k, name);
    }
    forall i: nat | LiftedThere(u, g, n, i, name)
      ensures exists k :: 0 <= k < |comments| && LiftedAt(u, g.src, comments, k, name)
    {
      CommentsExactly(u, g, n, Toks(u, g)[i]);
      var k :| 0 <= k < |comments| && comments[k] == Toks(u, g)[i];
      assert LiftedAt(u, g.src, comments, k, name);
    }
  }

  // ---------- where statements end ----------

  /** A semicolon or the comment that separates statements. */
  predicate Ends(src: string, t: Tok) {
    t.k == Semi || (t.k == Line && MatchesAt(src, "--> statement-breakpoint", t.s))
  }

  /** No statement goes on beyond such a token, and each ends at one or with the text. */
  ghost predicate Cut(src: string, toks: seq<Tok>, st: Stmt) {
    && st.f < st.z <= |toks| && (st.z < |toks| ==> Ends(src, toks[st.z]))
    && forall k :: st.f < k < st.z ==> !Ends(src, toks[k])
  }

  lemma {:induction false} StatementsAreCut(src: string, toks: seq<Tok>, j: nat, a: nat, f: int)
    requires j <= |toks| && f < j && (f >= 0 ==> forall k :: f < k < j ==> !Ends(src, toks[k]))
    ensures forall st :: st in SplitFrom(src, toks, j, a, f) ==> Cut(src, toks, st)
    decreases |toks| - j
  {
    if j < |toks| {
      if toks[j].k == Semi || (IsBreakpoint(src, toks[j]) && f >= 0) {
        StatementsAreCut(src, toks, j + 1, j + 1, -1);
      } else {
        StatementsAreCut(src, toks, j + 1, a, if f < 0 && !IsTrivia(toks[j].k) then j else f);
      }
    }
  }

  /**
   * A later token belongs to the statement of an earlier one exactly if no semicolon and no breakpoint stands between
   * them.
   */
  lemma SameStatement(src: string, toks: seq<Tok>, n: nat, j: nat, k: nat)
    requires n < |Statements(src, toks)| && Inside(Statements(src, toks)[n], j)
    requires j < k < |toks| && IsSubstance(toks[k])
    ensures Inside(Statements(src, toks)[n], k) <==> forall m :: j < m < k ==> !Ends(src, toks[m])
  {
    StatementsAreCut(src, toks, 0, 0, -1);
    var st := Statements(src, toks)[n];
    assert Cut(src, toks, st);
  }

  // ---------- escapes ----------

  /** How a text is written in a string with backslash escapes. */
  function Escape(s: string): string {
    if s == "" then "" else EscapeOf(s[0]) + Escape(s[1..])
  }

  function EscapeOf(c: char): string {
    if c == '\'' then "''" else if c == '\\' then "\\\\" else if c == '\n' then "\\n" else if c == '\r' then "\\r"
    else if c == '\t' then "\\t" else [c]
  }

  lemma OneEscape(c: char, rest: string)
    ensures Unescape(EscapeOf(c) + rest) == [c] + Unescape(rest)
  {
    var t := EscapeOf(c) + rest;
    if |EscapeOf(c)| == 2 {
      assert t[0] == EscapeOf(c)[0] && t[1] == EscapeOf(c)[1] && t[2..] == rest;
    } else {
      assert t[0] == c && t[1..] == rest;
    }
  }

  /** Every text comes back from its escaped form. */
  lemma {:induction false} EscapeRoundTrip(s: string)
    ensures Unescape(Escape(s)) == s
  {
    if s != "" {
      EscapeRoundTrip(s[1..]);
      OneEscape(s[0], Escape(s[1..]));
    }
  }

  /** A backslash in front of any other character stands for that character. */
  lemma OtherEscape(c: char, rest: string)
    requires c !in {'n', 'r', 't'}
    ensures Unescape("\\" + [c] + rest) == [c] + Unescape(rest)
  {
    var t := "\\" + [c] + rest;
    assert t[0] == '\\' && t[1] == c && t[2..] == rest;
  }

  lemma TwoSlices(src: string, i: nat, a: string, b: string)
    requires i + |a| + |b| <= |src| && src[i..i + |a| + |b|] == a + b
    ensures src[i..i + |a|] == a && src[i + |a|..i + |a| + |b|] == b
  {
    var s := src[i..i + |a| + |b|];
    assert s[..|a|] == a && s[|a|..] == b;
  }

  lemma StepOfEscape(src: string, i: nat, c: char)
    requires i + |EscapeOf(c)| <= |src| && src[i..i + |EscapeOf(c)|] == EscapeOf(c)
    ensures i < |src| && QuotedStep(src, i, '\'', true) == |EscapeOf(c)| > 0
  {
    var e := EscapeOf(c);
    assert src[i] == e[0];
    assert |e| == 2 ==> src[i + 1] == e[1];
  }

  lemma EscapeFirst(s: string)
    requires s != ""
    ensures Escape(s) == EscapeOf(s[0]) + Escape(s[1..])
  {
  }

  /** The scan takes one escaped character at a time. */
  lemma EscapedStep(src: string, i: nat, s: string)
    requires s != "" && i + |Escape(s)| <= |src| && src[i..i + |Escape(s)|] == Escape(s)
    ensures
      var k, rest := |EscapeOf(s[0])|, Escape(s[1..]);
      && i < |src| && k > 0 && |Escape(s)| == k + |rest| && QuotedStep(src, i, '\'', true) == k
      && src[i + k..i + k + |rest|] == rest
  {
    hide *;
    EscapeFirst(s);
    TwoSlices(src, i, EscapeOf(s[0]), Escape(s[1..]));
    StepOfEscape(src, i, s[0]);
  }

  /** Inside quoted text with escapes the scan runs to the closing quote. */
  lemma {:induction false} EscapedEnd(src: string, i: nat, s: string, end: nat)
    requires i + |Escape(s)| < end <= |src| && src[i..i + |Escape(s)|] == Escape(s)
    requires HasAt(src, i + |Escape(s)|, '\'') && !HasAt(src, i + |Escape(s)| + 1, '\'')
    ensures QuotedEnd(src, i, end, '\'', true) == i + |Escape(s)| + 1
    decreases |s|
  {
    if s != "" {
      hide Escape, EscapeOf, QuotedStep, HasAt;
      EscapedStep(src, i, s);
      EscapedEnd(src, i + |EscapeOf(s[0])|, s[1..], end);
    }
  }

  function EscapeString(e: char, s: string): string { [e] + "'" + Escape(s) + "'" }

  lemma EscapeStringIs(e: char, s: string)
    ensures
      var q := EscapeString(e, s);
      && |q| == |Escape(s)| + 3 && q[0] == e && q[1] == '\'' && q[2..2 + |Escape(s)|] == Escape(s)
      && q[2..|q| - 1] == Escape(s) && q[|q| - 1] == '\''
  {
  }

  lemma PrefixToken(u: Unicode, q: string, e: char)
    requires (e == 'e' || e == 'E') && |q| >= 3 && q[0] == e && q[1] == '\''
    ensures Next(u, q, 0, |q|, false) == Tok(Word, 0, 1, 0, 0, false) && IsE(q, Tok(Word, 0, 1, 0, 0, false))
  {
    assert !IsWordPart(u, '\'') && WordEnd(u, q, 1, |q|) == 1;
  }

  lemma QuoteOpens(u: Unicode, q: string, end: nat)
    requires 1 < end <= |q| && q[1] == '\''
    ensures Opens(u, q, 1, end) == Str
  {
    assert !IsSpace('\'');
  }

  lemma EscapeStringTokens(u: Unicode, e: char, s: string)
    requires e == 'e' || e == 'E'
    ensures
      var q := EscapeString(e, s);
      && |q| >= 3 && Next(u, q, 0, |q|, false) == Tok(Word, 0, 1, 0, 0, false)
      && IsE(q, Tok(Word, 0, 1, 0, 0, false))
      && Next(u, q, 1, |q|, true) == Tok(Str, 1, |q|, 0, 0, true)
      && q[|q| - 1] == '\'' && q[2..|q| - 1] == Escape(s)
  {
    hide Escape, EscapeString;
    var q := EscapeString(e, s);
    EscapeStringIs(e, s);
    PrefixToken(u, q, e);
    EscapedEnd(q, 2, s, |q|);
    QuoteOpens(u, q, |q|);
    hide IsE, WordEnd, Opens;
  }

  /** A text written with escapes behind e or E is one string token that stands for the text. */
  lemma EscapeStringRoundTrip(u: Unicode, e: char, s: string)
    requires e == 'e' || e == 'E'
    ensures
      var q := EscapeString(e, s);
      var t := Tok(Str, 1, |q|, 0, 0, true);
      |q| >= 3 && Lex(u, q, 0, |q|, false) == [Tok(Word, 0, 1, 0, 0, false), t] && Unquote(q, t) == s
  {
    var q := EscapeString(e, s);
    var t := Tok(Str, 1, |q|, 0, 0, true);
    EscapeStringTokens(u, e, s);
    hide Next, IsE, Escape, EscapeString;
    LexFirst(u, q, 0, |q|, false);
    LexFirst(u, q, 1, |q|, true);
    LexEmpty(u, q, |q|, IsE(q, t));
    EscapeRoundTrip(s);
  }

  // ---------- lines inside literals ----------

  /** A report inside a dollar quote has its own line, one inside a string counts on from the line of the string. */
  lemma LiteralLine(g: Range, t: Tok, pos: nat)
    requires Valid(g) && g.from <= t.s < t.e <= g.end
    requires t.k == Dollar ==> t.s + 2 <= t.bs <= t.be <= t.e
    requires pos <= |Child(g, t).src|
    ensures t.k == Dollar ==> Child(g, t).src == g.src && LineOf(Child(g, t), pos) == LineOf(g, pos)
    ensures t.k != Dollar ==> Child(g, t).src == Unquote(g.src, t)
    ensures t.k != Dollar ==>
      LineOf(Child(g, t), pos) == LineOf(g, t.s) + |LineEnds(Unquote(g.src, t), 0, pos)|
  {
    LineExactly(Child(g, t), pos);
  }
}
