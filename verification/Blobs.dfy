/** Reading every indexed file in one go: the index listing, the length-framed stream of contents, and their pairing. */
module Blobs {
  import opened Sequences
  import opened Options
  import opened Naturals
  import Text

  /** A byte is written as the character with its number, as the latin1 decoder of the headers does. */
  type Byte = c: char | c < '\U{0100}' witness 'a'

  type Bytes = seq<Byte>

  const LF := "\n"
  const SPACE := " "
  const TAB := "\t"
  const NUL := "\0"
  const SUBMODULE := "160000"

  /** None stands for not-a-number; only plain decimal sizes are read here. */
  function Number(s: string): Option<nat> {
    if AllDigits(s) then Some(Value(s)) else None
  }

  // ---------- the stream of contents ----------

  /** The third word of a header line. */
  function SizeIn(header: string): Option<nat> {
    var words := Text.Split(header, SPACE);
    if |words| > 2 then Number(words[2]) else None
  }

  /** The bytes between two positions as far as there are any; a negative end counts from the back. */
  function Sub(out: Bytes, from: nat, end: int): Bytes {
    var stop := if end < 0 then |out| + end else Min(end, |out|);
    if from < stop then out[from..stop] else []
  }

  /**
   * The contents of count frames from a position on. None is the position that is not a number: searching and cutting
   * take it for the beginning.
   */
  function Frames(out: Bytes, pos: Option<nat>, count: nat): (r: seq<Bytes>)
    ensures |r| == count
    decreases count
  {
    if count == 0 then []
    else [FrameAt(out, pos).0] + Frames(out, FrameAt(out, pos).1, count - 1)
  }

  /** The content read at a position, and the position after it. */
  function FrameAt(out: Bytes, pos: Option<nat>): (Bytes, Option<nat>) {
    var start := Start(pos);
    var nl := Text.IndexOf(out, LF, start);
    var size := SizeIn(Sub(out, start, nl));
    if size.None? then ([], None) else (Sub(out, nl + 1, nl + 1 + size.value), Some(nl + 1 + size.value + 1))
  }

  function Start(pos: Option<nat>): nat { if pos.Some? then pos.value else 0 }

  method ReadBlobs(out: Bytes, count: nat) returns (blobs: seq<Bytes>)
    ensures blobs == Frames(out, Some(0), count)
  {
    hide Text.IndexOf, SizeIn, Sub, Frames;
    if count == 0 {
      NoFrames(out, Some(0));
      return [];
    }
    blobs := [];
    var pos: Option<nat> := Some(0);
    for i := 0 to count
      invariant |blobs| == i && Frames(out, Some(0), count) == blobs + Frames(out, pos, count - i)
    {
      var nl := Text.IndexOf(out, LF, Start(pos));
      var size := SizeIn(Sub(out, Start(pos), nl));
      NextFrame(out, pos, count - i, blobs);
      if size.None? {
        blobs, pos := blobs + [[]], None;
      } else {
        blobs, pos := blobs + [Sub(out, nl + 1, nl + 1 + size.value)], Some(nl + 1 + size.value + 1);
      }
    }
    NoFrames(out, pos);
    assert blobs + [] == blobs;
  }

  lemma NoFrames(out: Bytes, pos: Option<nat>)
    ensures Frames(out, pos, 0) == []
  {
  }

  lemma NextFrame(out: Bytes, pos: Option<nat>, count: nat, blobs: seq<Bytes>)
    requires count > 0
    ensures blobs + Frames(out, pos, count)
      == blobs + [FrameAt(out, pos).0] + Frames(out, FrameAt(out, pos).1, count - 1)
  {
    hide FrameAt;
    Snoc(blobs, FrameAt(out, pos).0, Frames(out, FrameAt(out, pos).1, count - 1));
  }

  /** An object id: no space, no line end, no tab, no NUL, not empty. */
  ghost predicate IsId(oid: string) {
    oid != "" && forall i :: 0 <= i < |oid| ==>
      oid[i] != ' ' && oid[i] != '\n' && oid[i] != '\t' && oid[i] != '\0' && oid[i] < '\U{0100}'
  }

  function Header(oid: string, size: nat): string { oid + " blob " + Decimal(size) }

  /** The answer for one id: header, line end, content, line end; one line if there is no such object. */
  function Answer(oid: string, content: Option<Bytes>): string {
    if content.Some? then Header(oid, |content.value|) + LF + content.value + LF else oid + " missing" + LF
  }

  /** What the object reader answers for each id in turn. */
  function Batch(oids: seq<string>, contents: seq<Option<Bytes>>): string
    requires |oids| == |contents|
  {
    if oids == [] then "" else Answer(oids[0], contents[0]) + Batch(oids[1..], contents[1..])
  }

  lemma HeaderSize(oid: string, size: nat)
    requires IsId(oid)
    ensures SizeIn(Header(oid, size)) == Some(size)
    ensures '\n' !in Header(oid, size)
  {
    hide Text.Split, Decimal;
    ValueDecimal(size);
    var digits := Decimal(size);
    assert ' ' !in digits && '\n' !in digits;
    assert Header(oid, size) == oid + SPACE + ("blob" + SPACE + digits);
    Text.SplitAt(oid, SPACE, "blob" + SPACE + digits);
    Text.SplitAt("blob", SPACE, digits);
    Text.SplitWhole(digits, SPACE);
  }

  lemma MissingSize(oid: string)
    requires IsId(oid)
    ensures SizeIn(oid + " missing") == None && '\n' !in oid + " missing"
  {
    hide Text.Split;
    assert oid + " missing" == oid + SPACE + "missing";
    Text.SplitAt(oid, SPACE, "missing");
    Text.SplitWhole("missing", SPACE);
  }

  lemma FirstLineEnd(out: string, pos: nat, header: string, rest: string)
    requires pos <= |out| && out[pos..] == header + LF + rest && '\n' !in header
    ensures Text.IndexOf(out, LF, pos) == pos + |header| && out[pos..pos + |header|] == header
  {
    var nl := pos + |header|;
    assert out[nl] == out[pos..][|header|] == '\n';
    assert Text.MatchesAt(out, LF, nl);
    forall k: nat | pos <= k < nl ensures !Text.MatchesAt(out, LF, k) {
      assert out[k] == out[pos..][k - pos] == header[k - pos];
    }
  }

  /** The contents that are read: behind a missing object reading starts again with the first one. */
  function Shown(contents: seq<Option<Bytes>>, at: nat, count: nat): (r: seq<Bytes>)
    requires at + count <= |contents|
    ensures |r| == count
    decreases count
  {
    if count == 0 then []
    else if contents[at].Some? then [contents[at].value] + Shown(contents, at + 1, count - 1)
    else [[]] + Shown(contents, 0, count - 1)
  }

  /** The position stands in front of the answer for the id at this place. */
  ghost predicate StandsAt(out: Bytes, pos: Option<nat>, oids: seq<string>, contents: seq<Option<Bytes>>, at: nat)
    requires |oids| == |contents| && at <= |oids|
  {
    Start(pos) <= |out| && out[Start(pos)..] == Batch(oids[at..], contents[at..])
  }

  /**
   * Whatever the contents hold, line ends and header look-alikes included, and whatever objects are missing, the
   * frames are exactly these.
   */
  lemma {:induction false} BatchReads(out: Bytes, pos: Option<nat>, oids: seq<string>, contents: seq<Option<Bytes>>,
                                      at: nat, count: nat)
    requires |oids| == |contents| && at + count <= |oids| && out == Batch(oids, contents)
    requires StandsAt(out, pos, oids, contents, at) && forall i :: 0 <= i < |oids| ==> IsId(oids[i])
    ensures Frames(out, pos, count) == Shown(contents, at, count)
    decreases count
  {
    hide FrameAt, Header, IsId, Batch;
    if count > 0 {
      if contents[at].Some? {
        var next := FoundFrame(out, pos, oids, contents, at);
        BatchReads(out, Some(next), oids, contents, at + 1, count - 1);
      } else {
        MissingFrame(out, pos, oids, contents, at);
        assert oids[0..] == oids && contents[0..] == contents && out[0..] == out;
        BatchReads(out, None, oids, contents, 0, count - 1);
      }
    }
  }

  /** The answer that stands at a position, and what follows it. */
  lemma AnswerAt(out: Bytes, pos: Option<nat>, oids: seq<string>, contents: seq<Option<Bytes>>, at: nat)
    requires |oids| == |contents| && at < |oids| && StandsAt(out, pos, oids, contents, at)
    ensures out[Start(pos)..] == Answer(oids[at], contents[at]) + Batch(oids[at + 1..], contents[at + 1..])
  {
    hide Answer;
    assert oids[at..][1..] == oids[at + 1..] && contents[at..][1..] == contents[at + 1..];
  }

  lemma HeaderAt(out: Bytes, start: nat, header: string, rest: string)
    requires start <= |out| && out[start..] == header + LF + rest && '\n' !in header
    ensures Text.IndexOf(out, LF, start) == start + |header|
    ensures Sub(out, start, start + |header|) == header
  {
    hide Text.IndexOf;
    FirstLineEnd(out, start, header, rest);
    assert |out[start..]| == |header| + 1 + |rest|;
  }

  lemma ContentAt(out: Bytes, start: nat, header: string, content: string, rest: string)
    requires start <= |out| && out[start..] == header + LF + (content + LF + rest)
    ensures var from := start + |header| + 1;
      && Sub(out, from, from + |content|) == content
      && from + |content| + 1 <= |out| && out[from + |content| + 1..] == rest
  {
    FrameCut(out, start, header, content, rest);
  }

  /** A frame with a header that has a size. */
  lemma FoundFrame(out: Bytes, pos: Option<nat>, oids: seq<string>, contents: seq<Option<Bytes>>, at: nat)
    returns (next: nat)
    requires |oids| == |contents| && at < |oids| && contents[at].Some? && IsId(oids[at])
    requires StandsAt(out, pos, oids, contents, at)
    ensures FrameAt(out, pos) == (contents[at].value, Some(next))
    ensures StandsAt(out, Some(next), oids, contents, at + 1)
  {
    hide Text.IndexOf, SizeIn, Header, IsId, Sub, Batch;
    var start, content := Start(pos), contents[at].value;
    var header, rest := Header(oids[at], |content|), Batch(oids[at + 1..], contents[at + 1..]);
    AnswerAt(out, pos, oids, contents, at);
    HeaderSize(oids[at], |content|);
    Regroup(header, content, rest);
    HeaderAt(out, start, header, content + LF + rest);
    ContentAt(out, start, header, content, rest);
    next := start + |header| + 1 + |content| + 1;
  }

  lemma Regroup(header: string, content: string, rest: string)
    ensures header + LF + content + LF + rest == header + LF + (content + LF + rest)
  {
  }

  lemma MissingFrame(out: Bytes, pos: Option<nat>, oids: seq<string>, contents: seq<Option<Bytes>>, at: nat)
    requires |oids| == |contents| && at < |oids| && contents[at].None? && IsId(oids[at])
    requires StandsAt(out, pos, oids, contents, at)
    ensures FrameAt(out, pos) == ([], None)
  {
    hide Text.IndexOf, SizeIn, IsId, Sub, Batch;
    AnswerAt(out, pos, oids, contents, at);
    MissingSize(oids[at]);
    HeaderAt(out, Start(pos), oids[at] + " missing", Batch(oids[at + 1..], contents[at + 1..]));
  }

  /** Objects that are there are read in order. */
  lemma {:induction false} ShownFirst(contents: seq<Option<Bytes>>, at: nat, gap: nat, count: nat)
    requires at <= gap <= at + count <= |contents| && forall i :: at <= i < gap ==> contents[i].Some?
    ensures forall i :: at <= i < gap ==> Some(Shown(contents, at, count)[i - at]) == contents[i]
    decreases count
  {
    if at < gap {
      ShownFirst(contents, at + 1, gap, count - 1);
      forall i | at < i < gap ensures Some(Shown(contents, at, count)[i - at]) == contents[i] {
        assert Shown(contents, at, count)[i - at] == Shown(contents, at + 1, count - 1)[i - (at + 1)];
      }
    }
  }

  lemma ShownNext(contents: seq<Option<Bytes>>, at: nat, count: nat)
    requires at + count <= |contents| && count > 0
    ensures Shown(contents, at, count) ==
      if contents[at].Some? then [contents[at].value] + Shown(contents, at + 1, count - 1)
      else [[]] + Shown(contents, 0, count - 1)
  {
  }

  /** For a missing object nothing is read, and then the first contents again. */
  lemma {:induction false} MissingStartsAgain(contents: seq<Option<Bytes>>, at: nat, gap: nat, count: nat)
    requires at <= gap < at + count <= |contents| && contents[gap].None?
    requires forall i :: at <= i < gap ==> contents[i].Some?
    ensures Shown(contents, at, count)[gap - at] == []
    ensures Shown(contents, at, count)[gap - at + 1..] == Shown(contents, 0, count - (gap - at) - 1)
    decreases count
  {
    hide Shown;
    ShownNext(contents, at, count);
    if at < gap {
      MissingStartsAgain(contents, at + 1, gap, count - 1);
      OneBehind(contents[at].value, Shown(contents, at + 1, count - 1), gap - at);
    } else {
      assert ([[]] + Shown(contents, 0, count - 1))[1..] == Shown(contents, 0, count - 1);
    }
  }

  lemma OneBehind(first: Bytes, rest: seq<Bytes>, k: nat)
    requires 0 < k <= |rest|
    ensures ([first] + rest)[k] == rest[k - 1] && ([first] + rest)[k + 1..] == rest[k..]
  {
  }

  /** If every object is there, the frames give back exactly the contents. */
  lemma BatchRoundTrip(out: Bytes, oids: seq<string>, contents: seq<Option<Bytes>>)
    requires |oids| == |contents| && out == Batch(oids, contents)
    requires forall i :: 0 <= i < |oids| ==> IsId(oids[i]) && contents[i].Some?
    ensures forall i :: 0 <= i < |oids| ==> Some(Frames(out, Some(0), |oids|)[i]) == contents[i]
  {
    hide IsId, Frames;
    assert oids[0..] == oids && contents[0..] == contents && out[0..] == out;
    BatchReads(out, Some(0), oids, contents, 0, |oids|);
    ShownFirst(contents, 0, |oids|, |oids|);
  }

  lemma FrameCut(out: string, pos: nat, header: string, content: string, rest: string)
    requires pos <= |out| && out[pos..] == header + LF + (content + LF + rest)
    ensures var from := pos + |header| + 1;
      from + |content| + 1 <= |out| && out[from..from + |content|] == content && out[from + |content| + 1..] == rest
  {
    var from, s := pos + |header| + 1, header + LF + (content + LF + rest);
    assert |s| == |header| + 1 + |content| + 1 + |rest|;
    assert out[from..from + |content|] == s[|header| + 1..|header| + 1 + |content|] == content;
    assert out[from + |content| + 1..] == s[|header| + 1 + |content| + 1..] == rest;
  }

  // ---------- the index ----------

  /** A path and the id of its content; a submodule has a directory path and no id. */
  datatype Listing = Listing(path: string, oid: Option<string>)

  function ListingOf(rec: string): Listing {
    var tab := Text.IndexOf(rec, TAB, 0);
    var head := if tab >= 0 then rec[..tab] else if rec == "" then "" else rec[..|rec| - 1];
    var words := Text.Split(head, SPACE);
    var path := rec[tab + 1..];
    if words[0] == SUBMODULE then Listing(path + "/", None)
    else Listing(path, if |words| > 1 then Some(words[1]) else None)
  }

  function Listings(recs: seq<string>): seq<Listing> {
    if recs == [] then []
    else (if recs[0] == "" then [] else [ListingOf(recs[0])]) + Listings(recs[1..])
  }

  method IndexEntries(out: string) returns (entries: seq<Listing>)
    ensures entries == Listings(Text.Split(out, NUL))
  {
    hide ListingOf;
    var recs := Text.Split(out, NUL);
    entries := [];
    for i := 0 to |recs|
      invariant entries + Listings(recs[i..]) == Listings(recs)
    {
      var rec := recs[i];
      assert recs[i..][1..] == recs[i + 1..];
      if rec != "" {
        Snoc(entries, ListingOf(rec), Listings(recs[i + 1..]));
        entries := entries + [ListingOf(rec)];
      } else {
        Empty(Listings(recs[i + 1..]));
      }
    }
  }

  /** One file of the index. */
  datatype Staged = Staged(mode: string, oid: string, stage: string, path: string)

  ghost predicate IsStaged(s: Staged) { IsId(s.mode) && IsId(s.oid) && IsId(s.stage) && '\0' !in s.path }

  function Recorded(s: Staged): string { s.mode + SPACE + s.oid + SPACE + s.stage + TAB + s.path }

  function Index(staged: seq<Staged>): string {
    if staged == [] then "" else Recorded(staged[0]) + NUL + Index(staged[1..])
  }

  function Expected(s: Staged): Listing {
    if s.mode == SUBMODULE then Listing(s.path + "/", None) else Listing(s.path, Some(s.oid))
  }

  lemma RecordedWords(s: Staged)
    requires IsStaged(s)
    ensures Text.Split(s.mode + SPACE + s.oid + SPACE + s.stage, SPACE) == [s.mode, s.oid, s.stage]
  {
    hide Text.Split;
    assert s.mode + SPACE + s.oid + SPACE + s.stage == s.mode + SPACE + (s.oid + SPACE + s.stage);
    Text.SplitAt(s.mode, SPACE, s.oid + SPACE + s.stage);
    Text.SplitAt(s.oid, SPACE, s.stage);
    Text.SplitWhole(s.stage, SPACE);
  }

  lemma FirstTab(head: string, path: string)
    requires '\t' !in head
    ensures Text.IndexOf(head + TAB + path, TAB, 0) == |head|
  {
    var rec := head + TAB + path;
    assert Text.MatchesAt(rec, TAB, |head|);
    forall k: nat | k < |head| ensures !Text.MatchesAt(rec, TAB, k) {
      assert rec[k] == head[k];
    }
  }

  lemma RecordedReads(s: Staged)
    requires IsStaged(s)
    ensures ListingOf(Recorded(s)) == Expected(s) && Recorded(s) != "" && '\0' !in Recorded(s)
  {
    hide Text.Split, Text.IndexOf, SUBMODULE;
    var head := s.mode + SPACE + s.oid + SPACE + s.stage;
    RecordedWords(s);
    FirstTab(head, s.path);
    assert Recorded(s) == head + TAB + s.path;
    assert Recorded(s)[..|head|] == head && Recorded(s)[|head| + 1..] == s.path;
  }

  lemma LastListing()
    ensures Listings([""]) == []
  {
    assert Listings([""][1..]) == [];
  }

  lemma FirstListing(rec: string, recs: seq<string>)
    requires rec != ""
    ensures Listings([rec] + recs) == [ListingOf(rec)] + Listings(recs)
  {
    assert ([rec] + recs)[1..] == recs;
  }

  /** The listing reads back every path, whatever it contains, with its own id. */
  lemma {:induction false} IndexRoundTrip(staged: seq<Staged>)
    requires forall i :: 0 <= i < |staged| ==> IsStaged(staged[i])
    ensures |Listings(Text.Split(Index(staged), NUL))| == |staged|
    ensures forall i :: 0 <= i < |staged| ==> Listings(Text.Split(Index(staged), NUL))[i] == Expected(staged[i])
  {
    hide Text.Split, Listings, Recorded, Expected, IsStaged, ListingOf;
    if staged == [] {
      Text.SplitWhole("", NUL);
      LastListing();
    } else {
      RecordedReads(staged[0]);
      var rest := Index(staged[1..]);
      Text.SplitAt(Recorded(staged[0]), NUL, rest);
      IndexRoundTrip(staged[1..]);
      FirstListing(Recorded(staged[0]), Text.Split(rest, NUL));
    }
  }

  // ---------- each path with its own content ----------

  /** The ids that are asked for, in the order of the entries. */
  function Asked(entries: seq<Listing>): seq<string> {
    if entries == [] then []
    else (if HasId(entries[0]) then [entries[0].oid.value] else []) + Asked(entries[1..])
  }

  /** An empty id counts as none. */
  predicate HasId(e: Listing) { e.oid.Some? && e.oid.value != "" }

  /** The contents handed out in order to the entries with an id. */
  function Paired(entries: seq<Listing>, blobs: seq<Bytes>): (r: seq<Option<Bytes>>)
    requires |blobs| == |Asked(entries)|
    ensures |r| == |entries|
  {
    if entries == [] then []
    else if HasId(entries[0]) then [Some(blobs[0])] + Paired(entries[1..], blobs[1..])
    else [None] + Paired(entries[1..], blobs)
  }

  /** A cursor moves through the contents, one step for each entry that has one. */
  method Pair(entries: seq<Listing>, blobs: seq<Bytes>) returns (contents: seq<Option<Bytes>>)
    requires |blobs| == |Asked(entries)|
    ensures contents == Paired(entries, blobs)
  {
    contents := [];
    var k := 0;
    for i := 0 to |entries|
      invariant 0 <= k <= |blobs| && |blobs[k..]| == |Asked(entries[i..])|
      invariant contents + Paired(entries[i..], blobs[k..]) == Paired(entries, blobs)
    {
      AskedStep(entries, i);
      assert entries[i..][1..] == entries[i + 1..];
      if HasId(entries[i]) {
        assert blobs[k..][1..] == blobs[k + 1..];
        Snoc(contents, Some(blobs[k]), Paired(entries[i + 1..], blobs[k + 1..]));
        contents := contents + [Some(blobs[k])];
        k := k + 1;
      } else {
        Snoc(contents, None, Paired(entries[i + 1..], blobs[k..]));
        contents := contents + [None];
      }
    }
  }

  lemma AskedStep(entries: seq<Listing>, i: nat)
    requires i < |entries|
    ensures Asked(entries[i..]) == (if HasId(entries[i]) then [entries[i].oid.value] else []) + Asked(entries[i + 1..])
  {
    assert entries[i..][1..] == entries[i + 1..];
  }

  function Stored(oids: seq<string>, store: string -> Option<Bytes>): (r: seq<Option<Bytes>>)
    ensures |r| == |oids|
  {
    if oids == [] then [] else [store(oids[0])] + Stored(oids[1..], store)
  }

  /** Each entry with an id gets the content of its own object, whatever its place among those asked for. */
  lemma {:induction false} PairedFromStore(entries: seq<Listing>, blobs: seq<Bytes>, store: string -> Option<Bytes>)
    requires |blobs| == |Asked(entries)|
    requires forall i :: 0 <= i < |blobs| ==> Some(blobs[i]) == Stored(Asked(entries), store)[i]
    ensures forall i :: 0 <= i < |entries| ==>
      Paired(entries, blobs)[i] == if HasId(entries[i]) then store(entries[i].oid.value) else None
  {
    if entries != [] {
      var asked := Asked(entries[1..]);
      if HasId(entries[0]) {
        assert Asked(entries)[1..] == asked;
        assert Stored(Asked(entries), store)[1..] == Stored(asked, store);
        assert forall i :: 0 <= i < |blobs[1..]| ==> blobs[1..][i] == blobs[i + 1];
        PairedFromStore(entries[1..], blobs[1..], store);
      } else {
        assert Asked(entries) == asked;
        PairedFromStore(entries[1..], blobs, store);
      }
    }
  }

  lemma {:induction false} PairedHasContent(entries: seq<Listing>, blobs: seq<Bytes>)
    requires |blobs| == |Asked(entries)|
    ensures forall i :: 0 <= i < |entries| ==> (Paired(entries, blobs)[i].Some? <==> HasId(entries[i]))
  {
    if entries != [] {
      PairedHasContent(entries[1..], if HasId(entries[0]) then blobs[1..] else blobs);
    }
  }

  lemma {:induction false} StoredHas(oids: seq<string>, store: string -> Option<Bytes>)
    requires forall i :: 0 <= i < |oids| ==> store(oids[i]).Some?
    ensures forall i :: 0 <= i < |oids| ==> Stored(oids, store)[i].Some?
  {
    if oids != [] {
      StoredHas(oids[1..], store);
    }
  }

  lemma {:induction false} AskedAreStored(entries: seq<Listing>, store: string -> Option<Bytes>)
    requires forall i :: 0 <= i < |entries| && HasId(entries[i]) ==> store(entries[i].oid.value).Some?
    ensures forall i :: 0 <= i < |Asked(entries)| ==> store(Asked(entries)[i]).Some?
  {
    if entries != [] {
      AskedAreStored(entries[1..], store);
    }
  }

  lemma {:induction false} AskedAreIds(entries: seq<Listing>)
    requires forall i :: 0 <= i < |entries| && HasId(entries[i]) ==> IsId(entries[i].oid.value)
    ensures forall i :: 0 <= i < |Asked(entries)| ==> IsId(Asked(entries)[i])
  {
    if entries != [] {
      AskedAreIds(entries[1..]);
    }
  }

  /** The whole reading: the listing gives the entries, the answer to their ids gives the contents. */
  method ReadAll(index: string, batch: Bytes) returns (entries: seq<Listing>, contents: seq<Option<Bytes>>)
    ensures entries == Listings(Text.Split(index, NUL))
    ensures contents == Pairing(entries, batch)
  {
    hide Frames, Paired, Listings, Asked;
    entries := IndexEntries(index);
    var asked := [];
    for i := 0 to |entries|
      invariant asked + Asked(entries[i..]) == Asked(entries)
    {
      AskedStep(entries, i);
      if HasId(entries[i]) {
        Snoc(asked, entries[i].oid.value, Asked(entries[i + 1..]));
        asked := asked + [entries[i].oid.value];
      } else {
        Empty(Asked(entries[i + 1..]));
      }
    }
    AskedNone(asked);
    assert entries[|entries|..] == [];
    var blobs := ReadBlobs(batch, |asked|);
    contents := Pair(entries, blobs);
  }

  lemma AskedNone(asked: seq<string>)
    ensures asked + Asked([]) == asked
  {
  }

  function Pairing(entries: seq<Listing>, batch: Bytes): (r: seq<Option<Bytes>>)
    ensures |r| == |entries|
  {
    Paired(entries, Frames(batch, Some(0), |Asked(entries)|))
  }

  /** The entries have the paths of the index; those that are no submodules have their ids. */
  lemma EntriesOfIndex(staged: seq<Staged>)
    requires forall i :: 0 <= i < |staged| ==> IsStaged(staged[i])
    ensures var entries := Listings(Text.Split(Index(staged), NUL));
      && |entries| == |staged|
      && (forall i :: 0 <= i < |entries| && HasId(entries[i]) ==> IsId(entries[i].oid.value))
      && forall i :: 0 <= i < |staged| ==>
           && entries[i].path == staged[i].path + (if staged[i].mode == SUBMODULE then "/" else "")
           && (HasId(entries[i]) <==> staged[i].mode != SUBMODULE)
           && (HasId(entries[i]) ==> entries[i].oid.value == staged[i].oid)
  {
    hide Text.Split, Listings, SUBMODULE;
    var entries := Listings(Text.Split(Index(staged), NUL));
    IndexRoundTrip(staged);
    forall i | 0 <= i < |staged|
      ensures entries[i] == Expected(staged[i]) && IsStaged(staged[i])
    {
    }
  }

  /**
   * For every index and every object store, each path comes with the content of its own object and each submodule
   * with none, if and only if no object is missing.
   */
  lemma EachPathItsContent(staged: seq<Staged>, store: string -> Option<Bytes>, batch: Bytes)
    requires forall i :: 0 <= i < |staged| ==> IsStaged(staged[i])
    requires var oids := Asked(Listings(Text.Split(Index(staged), NUL))); batch == Batch(oids, Stored(oids, store))
    ensures var entries := Listings(Text.Split(Index(staged), NUL));
      && |entries| == |staged|
      && (forall i :: 0 <= i < |staged| ==>
            entries[i].path == staged[i].path + (if staged[i].mode == SUBMODULE then "/" else ""))
      && ((forall i :: 0 <= i < |staged| ==>
             Pairing(entries, batch)[i] == if staged[i].mode == SUBMODULE then None else store(staged[i].oid))
          <==> forall i :: 0 <= i < |staged| && staged[i].mode != SUBMODULE ==> store(staged[i].oid).Some?)
  {
    hide Text.Split, Listings, Asked, Frames, Paired, Batch, Stored, SUBMODULE, IsStaged, IsId;
    var entries := Listings(Text.Split(Index(staged), NUL));
    EntriesOfIndex(staged);
    var blobs := Frames(batch, Some(0), |Asked(entries)|);
    PairedHasContent(entries, blobs);
    if forall i :: 0 <= i < |staged| && staged[i].mode != SUBMODULE ==> store(staged[i].oid).Some? {
      AskedAreIds(entries);
      AskedAreStored(entries, store);
      StoredHas(Asked(entries), store);
      BatchRoundTrip(batch, Asked(entries), Stored(Asked(entries), store));
      PairedFromStore(entries, blobs, store);
    }
  }

  lemma ShownShifts(contents: seq<Option<Bytes>>, gap: nat)
    requires gap < |contents| && contents[gap].None? && forall i :: 0 <= i < gap ==> contents[i].Some?
    ensures var read := Shown(contents, 0, |contents|);
      && read[gap] == []
      && (forall i :: 0 <= i < gap ==> Some(read[i]) == contents[i])
      && forall i :: 0 <= i < gap && gap + 1 + i < |contents| ==> Some(read[gap + 1 + i]) == contents[i]
  {
    hide Shown;
    var n := |contents|;
    MissingStartsAgain(contents, 0, gap, n);
    ShownFirst(contents, 0, gap, n);
    ShownFirst(contents, 0, Min(gap, n - gap - 1), n - gap - 1);
    var read, again := Shown(contents, 0, n), Shown(contents, 0, n - gap - 1);
    forall i | 0 <= i < gap && gap + 1 + i < n ensures Some(read[gap + 1 + i]) == contents[i] {
      assert read[gap + 1..][i] == again[i];
    }
  }

  /** Behind the first missing object the contents go to the wrong paths, beginning with the first content. */
  lemma MissingShifts(oids: seq<string>, contents: seq<Option<Bytes>>, gap: nat, batch: Bytes)
    requires |oids| == |contents| && batch == Batch(oids, contents) && gap < |contents|
    requires forall i :: 0 <= i < |oids| ==> IsId(oids[i])
    requires contents[gap].None? && forall i :: 0 <= i < gap ==> contents[i].Some?
    ensures var read := Frames(batch, Some(0), |oids|);
      && read[gap] == []
      && (forall i :: 0 <= i < gap ==> Some(read[i]) == contents[i])
      && forall i :: 0 <= i < gap && gap + 1 + i < |oids| ==> Some(read[gap + 1 + i]) == contents[i]
  {
    hide IsId, Frames, Shown, Batch;
    assert oids[0..] == oids && contents[0..] == contents && batch[0..] == batch;
    BatchReads(batch, Some(0), oids, contents, 0, |oids|);
    ShownShifts(contents, gap);
  }
}
