/**
 * The append-only migration journal: what the check compares with the base, and what it gives a database over any
 * history of deployments.
 */
module Journal {
  import opened Sequences
  import opened Options

  /** One journal entry; rest stands for its further fields, which only take part in the deep comparison. */
  datatype Entry = Entry(idx: int, when: int, tag: string, rest: string)

  datatype Parsed = Missing | Malformed | Entries(entries: seq<Entry>)

  /** The migration directory at one commit: the journal and the content of every .sql file. */
  datatype Repo = Repo(journal: Parsed, files: map<string, string>)

  datatype Hit =
    | JournalMissing | JournalMalformed | BaseMalformed
    | FileDeleted(name: string) | FileChanged(name: string)
    | EntryDeleted(entry: Entry) | EntryChanged(entry: Entry)
    | WrongIndex(at: nat) | NotIncreasing(at: nat) | NotAfterBase(at: nat) | NoFile(at: nat)
    | NotListed(name: string)

  const SQL := ".sql"

  function FileOf(e: Entry): string { e.tag + SQL }

  function Listed(p: Parsed): seq<Entry> { if p.Entries? then p.entries else [] }

  function Find(entries: seq<Entry>, idx: int): (r: Option<Entry>)
    ensures r.Some? ==> r.value in entries && r.value.idx == idx
    ensures r.None? ==> forall i :: 0 <= i < |entries| ==> entries[i].idx != idx
  {
    if entries == [] then None
    else if entries[0].idx == idx then Some(entries[0])
    else Find(entries[1..], idx)
  }

  // ---------- the four parts of the check ----------

  /** Files of the base that are gone or no longer byte for byte the same. */
  method CompareFiles(now: Repo, base: Repo) returns (hits: seq<Hit>)
    ensures forall h :: h in hits <==>
      || (h.FileDeleted? && h.name in base.files && h.name !in now.files)
      || (h.FileChanged? && h.name in base.files && h.name in now.files && now.files[h.name] != base.files[h.name])
  {
    hits := [];
    var left := base.files.Keys;
    while left != {}
      invariant left <= base.files.Keys
      invariant forall h :: h in hits <==>
        || (h.FileDeleted? && h.name in base.files && h.name !in left && h.name !in now.files)
        || (h.FileChanged? && h.name in base.files && h.name !in left && h.name in now.files &&
          now.files[h.name] != base.files[h.name])
      decreases |left|
    {
      var name :| name in left;
      if name !in now.files {
        hits := hits + [FileDeleted(name)];
      } else if now.files[name] != base.files[name] {
        hits := hits + [FileChanged(name)];
      }
      left := left - {name};
    }
  }

  /** Entries of the base that the journal no longer has under their number, or has with other content. */
  method CompareEntries(now: seq<Entry>, base: seq<Entry>) returns (hits: seq<Hit>)
    ensures forall h :: h in hits <==>
      || (h.EntryDeleted? && h.entry in base && Find(now, h.entry.idx) == None)
      || (h.EntryChanged? && h.entry in base && Find(now, h.entry.idx).Some? && Find(now, h.entry.idx).value != h.entry)
  {
    hits := [];
    for i := 0 to |base|
      invariant forall h :: h in hits <==>
        || (h.EntryDeleted? && h.entry in base[..i] && Find(now, h.entry.idx) == None)
        || (h.EntryChanged? && h.entry in base[..i] && Find(now, h.entry.idx).Some? &&
          Find(now, h.entry.idx).value != h.entry)
    {
      var cur := Find(now, base[i].idx);
      if cur.None? {
        hits := hits + [EntryDeleted(base[i])];
      } else if cur.value != base[i] {
        hits := hits + [EntryChanged(base[i])];
      }
    }
    assert base[..|base|] == base;
  }

  predicate Indexed(base: seq<Entry>, idx: int) { exists j :: 0 <= j < |base| && base[j].idx == idx }

  predicate LaterThan(base: seq<Entry>, when: int) { forall j :: 0 <= j < |base| ==> base[j].when < when }

  predicate Wrong(entries: seq<Entry>, base: seq<Entry>, files: map<string, string>, h: Hit) {
    match h
    case WrongIndex(i) => i < |entries| && entries[i].idx != i
    case NotIncreasing(i) => 0 < i < |entries| && entries[i].when <= entries[i - 1].when
    case NotAfterBase(i) => i < |entries| && !Indexed(base, entries[i].idx) && !LaterThan(base, entries[i].when)
    case NoFile(i) => i < |entries| && FileOf(entries[i]) !in files
    case _ => false
  }

  /** An entry the base does not have is faulty exactly if some entry of the base is not earlier. */
  lemma NotLaterExactly(entries: seq<Entry>, base: seq<Entry>, files: map<string, string>, i: nat)
    ensures Wrong(entries, base, files, NotAfterBase(i)) <==>
      && i < |entries| && (forall earlier :: earlier in base ==> earlier.idx != entries[i].idx)
      && exists earlier :: earlier in base && earlier.when >= entries[i].when
  {
    if i < |entries| && exists earlier :: earlier in base && earlier.when >= entries[i].when {
      var earlier :| earlier in base && earlier.when >= entries[i].when;
      var k :| 0 <= k < |base| && base[k] == earlier;
      assert !LaterThan(base, entries[i].when);
    }
  }

  /** What is wrong with the journal itself, entry by entry. */
  method CheckEntries(entries: seq<Entry>, base: seq<Entry>, files: map<string, string>) returns (hits: seq<Hit>)
    ensures forall h :: h in hits <==> Wrong(entries, base, files, h)
  {
    hide Indexed, LaterThan, SQL;
    hits := [];
    for i := 0 to |entries|
      invariant forall h :: h in hits <==> Wrong(entries, base, files, h) && h.at < i
    {
      var e := entries[i];
      var more := CheckEntry(entries, base, files, i);
      hits := hits + more;
    }
  }

  method CheckEntry(entries: seq<Entry>, base: seq<Entry>, files: map<string, string>, i: nat) returns (hits: seq<Hit>)
    requires i < |entries|
    ensures forall h :: h in hits <==> Wrong(entries, base, files, h) && h.at == i
  {
    hide Indexed, LaterThan, SQL;
    var e := entries[i];
    hits := [];
    if e.idx != i {
      hits := hits + [WrongIndex(i)];
    }
    if i > 0 && !(e.when > entries[i - 1].when) {
      hits := hits + [NotIncreasing(i)];
    }
    if !Indexed(base, e.idx) && !LaterThan(base, e.when) {
      hits := hits + [NotAfterBase(i)];
    }
    if FileOf(e) !in files {
      hits := hits + [NoFile(i)];
    }
  }

  predicate HasEntry(entries: seq<Entry>, name: string) { exists i :: 0 <= i < |entries| && FileOf(entries[i]) == name }

  method CheckNames(entries: seq<Entry>, files: map<string, string>) returns (hits: seq<Hit>)
    ensures forall h :: h in hits <==> h.NotListed? && h.name in files && !HasEntry(entries, h.name)
  {
    hide HasEntry;
    hits := [];
    var left := files.Keys;
    while left != {}
      invariant left <= files.Keys
      invariant forall h :: h in hits <==>
        h.NotListed? && h.name in files && h.name !in left && !HasEntry(entries, h.name)
      decreases |left|
    {
      var name :| name in left;
      if !HasEntry(entries, name) {
        hits := hits + [NotListed(name)];
      }
      left := left - {name};
    }
  }

  // ---------- what acceptance means ----------

  ghost predicate Increasing(entries: seq<Entry>) {
    forall i, j :: 0 <= i < j < |entries| ==> entries[i].when < entries[j].when
  }

  /** A journal and files that fit each other: numbered from 0, strictly later and later, one entry for each file. */
  ghost predicate Sound(r: Repo) {
    && !r.journal.Malformed?
    && (r.journal.Missing? ==> r.files == map[])
    && (forall i :: 0 <= i < |Listed(r.journal)| ==> Listed(r.journal)[i].idx == i)
    && Increasing(Listed(r.journal))
    && (forall i :: 0 <= i < |Listed(r.journal)| ==> FileOf(Listed(r.journal)[i]) in r.files)
    && forall name :: name in r.files ==> HasEntry(Listed(r.journal), name)
  }

  /** Nothing the base has is changed. */
  ghost predicate Extends(r: Repo, base: Repo) {
    && !base.journal.Malformed?
    && (forall name :: name in base.files ==> name in r.files && r.files[name] == base.files[name])
    && (forall e :: e in Listed(base.journal) ==> Find(Listed(r.journal), e.idx) == Some(e))
    && forall i :: 0 <= i < |Listed(r.journal)| ==>
         || Indexed(Listed(base.journal), Listed(r.journal)[i].idx)
         || LaterThan(Listed(base.journal), Listed(r.journal)[i].when)
  }

  lemma {:induction false} StepsIncrease(entries: seq<Entry>, i: nat, j: nat)
    requires i < j < |entries| && forall k :: 0 < k < |entries| ==> entries[k - 1].when < entries[k].when
    ensures entries[i].when < entries[j].when
  {
    if i < j - 1 {
      StepsIncrease(entries, i, j - 1);
    }
  }

  lemma OwnMeans(entries: seq<Entry>, base: seq<Entry>, files: map<string, string>, own: seq<Hit>)
    requires forall h :: h in own <==> Wrong(entries, base, files, h)
    ensures own == [] <==>
      && (forall i :: 0 <= i < |entries| ==> entries[i].idx == i)
      && Increasing(entries)
      && (forall i :: 0 <= i < |entries| ==> FileOf(entries[i]) in files)
      && (forall i :: 0 <= i < |entries| ==> Indexed(base, entries[i].idx) || LaterThan(base, entries[i].when))
  {
    hide Indexed, LaterThan, SQL;
    if own == [] {
      forall i: nat | i < |entries|
        ensures entries[i].idx == i && FileOf(entries[i]) in files
        ensures Indexed(base, entries[i].idx) || LaterThan(base, entries[i].when)
        ensures i > 0 ==> entries[i - 1].when < entries[i].when
      {
        assert !Wrong(entries, base, files, WrongIndex(i)) && !Wrong(entries, base, files, NoFile(i));
        assert !Wrong(entries, base, files, NotAfterBase(i)) && !Wrong(entries, base, files, NotIncreasing(i));
      }
      forall i, j | 0 <= i < j < |entries| ensures entries[i].when < entries[j].when {
        StepsIncrease(entries, i, j);
      }
    } else {
      assert own[0] in own;
    }
  }

  /** The hits of the four parts. */
  ghost predicate Parts(now: Repo, base: Option<Repo>, files: seq<Hit>, kept: seq<Hit>, own: seq<Hit>,
                        names: seq<Hit>) {
    var entries, was := Listed(now.journal), if base.Some? then Listed(base.value.journal) else [];
    && (forall h :: h in files <==>
         || (base.Some? && h.FileDeleted? && h.name in base.value.files && h.name !in now.files)
         || (base.Some? && h.FileChanged? && h.name in base.value.files && h.name in now.files &&
           now.files[h.name] != base.value.files[h.name]))
    && (forall h :: h in kept <==>
         || (h.EntryDeleted? && h.entry in was && Find(entries, h.entry.idx) == None)
         || (h.EntryChanged? && h.entry in was && Find(entries, h.entry.idx).Some? &&
           Find(entries, h.entry.idx).value != h.entry))
    && (forall h :: h in own <==> Wrong(entries, was, now.files, h))
    && (forall h :: h in names <==>
      now.journal.Entries? && h.NotListed? && h.name in now.files && !HasEntry(entries, h.name))
  }

  lemma NamesMean(now: Repo, names: seq<Hit>)
    requires !now.journal.Malformed? && (now.journal.Missing? ==> now.files == map[])
    requires forall h :: h in names <==>
      now.journal.Entries? && h.NotListed? && h.name in now.files && !HasEntry(Listed(now.journal), h.name)
    ensures names == [] <==> forall name :: name in now.files ==> HasEntry(Listed(now.journal), name)
  {
    hide HasEntry;
    if names == [] {
      forall name | name in now.files ensures HasEntry(Listed(now.journal), name) {
        assert NotListed(name) !in names;
      }
    } else {
      assert names[0] in names;
    }
  }

  lemma FilesMean(now: Repo, base: Repo, files: seq<Hit>)
    requires forall h :: h in files <==>
      || (h.FileDeleted? && h.name in base.files && h.name !in now.files)
      || (h.FileChanged? && h.name in base.files && h.name in now.files && now.files[h.name] != base.files[h.name])
    ensures files == [] <==>
      forall name :: name in base.files ==> name in now.files && now.files[name] == base.files[name]
  {
    if files == [] {
      forall name | name in base.files ensures name in now.files && now.files[name] == base.files[name] {
        assert FileDeleted(name) !in files && FileChanged(name) !in files;
      }
    } else {
      assert files[0] in files;
    }
  }

  lemma KeptMeans(entries: seq<Entry>, was: seq<Entry>, kept: seq<Hit>)
    requires forall h :: h in kept <==>
      || (h.EntryDeleted? && h.entry in was && Find(entries, h.entry.idx) == None)
      || (h.EntryChanged? && h.entry in was && Find(entries, h.entry.idx).Some? &&
        Find(entries, h.entry.idx).value != h.entry)
    ensures kept == [] <==> forall e :: e in was ==> Find(entries, e.idx) == Some(e)
  {
    hide Find;
    if kept == [] {
      forall e | e in was ensures Find(entries, e.idx) == Some(e) {
        assert EntryDeleted(e) !in kept && EntryChanged(e) !in kept;
      }
    } else {
      assert kept[0] in kept;
    }
  }

  lemma PartsMean(now: Repo, base: Option<Repo>, files: seq<Hit>, kept: seq<Hit>, own: seq<Hit>, names: seq<Hit>)
    requires Parts(now, base, files, kept, own, names)
    ensures
      && !now.journal.Malformed? && (now.journal.Missing? ==> now.files == map[])
      && (base.Some? ==> !base.value.journal.Malformed?)
      && files == [] && kept == [] && own == [] && names == []
      <==> Sound(now) && (base.Some? ==> Extends(now, base.value))
  {
    hide Find, Wrong, HasEntry, Indexed, LaterThan, Increasing, SQL;
    var entries, was := Listed(now.journal), if base.Some? then Listed(base.value.journal) else [];
    OwnMeans(entries, was, now.files, own);
    KeptMeans(entries, was, kept);
    if base.Some? {
      FilesMean(now, base.value, files);
    } else {
      NoBase(entries, files, kept);
    }
    if !now.journal.Malformed? && (now.journal.Missing? ==> now.files == map[]) {
      NamesMean(now, names);
    }
  }

  lemma NoBase(entries: seq<Entry>, files: seq<Hit>, kept: seq<Hit>)
    requires forall h :: h !in files
    ensures files == []
    ensures forall i :: 0 <= i < |entries| ==> LaterThan([], entries[i].when)
  {
    NoneHeld(files);
  }

  lemma NoneHeld<T>(s: seq<T>)
    ensures s == [] || exists x :: x in s
  {
    if s != [] {
      assert s[0] in s;
    }
  }

  /** Everything the check reports for a commit and its base. */
  method Hits(now: Repo, base: Option<Repo>) returns (hits: seq<Hit>)
    ensures hits == [] <==> Sound(now) && (base.Some? ==> Extends(now, base.value))
  {
    hide Find, Wrong, HasEntry, Indexed, LaterThan, Increasing, SQL, Sound, Extends;
    hits := [];
    if now.journal.Malformed? {
      hits := hits + [JournalMalformed];
    }
    if now.journal.Missing? && now.files != map[] {
      hits := hits + [JournalMissing];
    }
    var entries, was, files, kept := Listed(now.journal), [], [], [];
    if base.Some? {
      files := CompareFiles(now, base.value);
      if base.value.journal.Malformed? {
        hits := hits + [BaseMalformed];
      }
      was := Listed(base.value.journal);
      kept := CompareEntries(entries, was);
    }
    var own := CheckEntries(entries, was, now.files);
    var names := [];
    if now.journal.Entries? {
      names := CheckNames(entries, now.files);
    }
    PartsMean(now, base, files, kept, own, names);
    hits := hits + files + kept + own + names;
  }

  /**
   * Without a base the comparison is skipped, except in CI; without a base and a directory there is nothing to
   * check.
   */
  method Accept(now: Repo, hasDir: bool, base: Option<Repo>, ci: bool) returns (ok: bool)
    requires !hasDir ==> now == Repo(Missing, map[])
    ensures base.Some? ==> (ok <==> Sound(now) && Extends(now, base.value))
    ensures base.None? ==> (ok <==> Sound(now) && (hasDir ==> !ci))
  {
    if base.None? && !hasDir {
      return true;
    }
    var hits := Hits(now, base);
    ok := hits == [] && !(base.None? && ci);
  }

  // ---------- a commit after its base ----------

  lemma {:induction false} FindNumbered(entries: seq<Entry>, i: nat, first: nat)
    requires first <= i < |entries| && forall k :: 0 <= k < |entries| ==> entries[k].idx == k
    ensures Find(entries[first..], i) == Some(entries[i])
    decreases i - first
  {
    if first < i {
      FindNumbered(entries, i, first + 1);
      assert entries[first..][1..] == entries[first + 1..];
    }
  }

  lemma FindAt(entries: seq<Entry>, idx: int)
    requires forall k :: 0 <= k < |entries| ==> entries[k].idx == k
    ensures Find(entries, idx) == if 0 <= idx < |entries| then Some(entries[idx]) else None
  {
    if 0 <= idx < |entries| {
      FindNumbered(entries, idx, 0);
      assert entries[0..] == entries;
    }
  }

  /** The scripts a database runs for the journal, in order. */
  datatype Script = Script(entry: Entry, sql: string)

  function Scripts(r: Repo): (s: seq<Script>)
    requires Sound(r)
    ensures |s| == |Listed(r.journal)|
  {
    var entries := Listed(r.journal);
    seq(|entries|, i requires 0 <= i < |entries| => Script(entries[i], r.files[FileOf(entries[i])]))
  }

  lemma ScriptAt(r: Repo, i: nat)
    requires Sound(r) && i < |Listed(r.journal)|
    ensures Listed(r.journal)[i].idx == i && FileOf(Listed(r.journal)[i]) in r.files
    ensures Scripts(r)[i] == Script(Listed(r.journal)[i], r.files[FileOf(Listed(r.journal)[i])])
  {
  }

  lemma FindInSound(r: Repo, idx: int)
    requires Sound(r)
    ensures var entries := Listed(r.journal);
      Find(entries, idx) == if 0 <= idx < |entries| then Some(entries[idx]) else None
  {
    FindAt(Listed(r.journal), idx);
  }

  lemma ExtendsGivesPrefix(now: Repo, base: Repo)
    requires Sound(now) && Sound(base) && Extends(now, base)
    ensures Scripts(base) <= Scripts(now)
  {
    hide Scripts, Sound, Find, SQL, Indexed, LaterThan;
    var es, bs := Listed(now.journal), Listed(base.journal);
    forall i: nat | i < |bs| ensures i < |es| && Scripts(now)[i] == Scripts(base)[i] {
      ScriptAt(base, i);
      assert bs[i] in bs && Find(es, bs[i].idx) == Some(bs[i]);
      FindInSound(now, i);
      ScriptAt(now, i);
    }
    if bs != [] {
      FindInSound(now, |bs| - 1);
      ScriptAt(base, |bs| - 1);
      assert bs[|bs| - 1] in bs;
    }
  }

  lemma PrefixHolds(now: Repo, base: Repo, i: nat)
    requires Sound(now) && Sound(base) && Scripts(base) <= Scripts(now) && i < |Listed(base.journal)|
    ensures i < |Listed(now.journal)| && Listed(now.journal)[i] == Listed(base.journal)[i]
    ensures var name := FileOf(Listed(base.journal)[i]);
      name in base.files && name in now.files && now.files[name] == base.files[name]
  {
    hide Scripts, Sound, SQL;
    ScriptAt(now, i);
    ScriptAt(base, i);
    assert Scripts(now)[i] == Scripts(base)[i];
  }

  lemma FileHasEntry(r: Repo, name: string) returns (i: nat)
    requires Sound(r) && name in r.files
    ensures i < |Listed(r.journal)| && FileOf(Listed(r.journal)[i]) == name
  {
    hide SQL;
    assert HasEntry(Listed(r.journal), name);
    i :| 0 <= i < |Listed(r.journal)| && FileOf(Listed(r.journal)[i]) == name;
  }

  lemma PrefixGivesExtends(now: Repo, base: Repo)
    requires Sound(now) && Sound(base) && Scripts(base) <= Scripts(now)
    ensures Extends(now, base)
  {
    hide Scripts, Find, FileOf, HasEntry, Increasing, LaterThan;
    var es, bs := Listed(now.journal), Listed(base.journal);
    forall name | name in base.files ensures name in now.files && now.files[name] == base.files[name] {
      var i := FileHasEntry(base, name);
      PrefixHolds(now, base, i);
    }
    forall e | e in bs ensures Find(es, e.idx) == Some(e) {
      var i: nat :| i < |bs| && bs[i] == e;
      PrefixHolds(now, base, i);
      FindInSound(now, i);
    }
    forall i: nat | i < |es| ensures Indexed(bs, es[i].idx) || LaterThan(bs, es[i].when) {
      if i < |bs| {
        PrefixHolds(now, base, i);
        assert bs[i].idx == es[i].idx;
      } else {
        NewIsLater(now, base, i);
      }
    }
  }

  lemma NewIsLater(now: Repo, base: Repo, i: nat)
    requires Sound(now) && Sound(base) && Scripts(base) <= Scripts(now)
    requires |Listed(base.journal)| <= i < |Listed(now.journal)|
    ensures LaterThan(Listed(base.journal), Listed(now.journal)[i].when)
  {
    hide Scripts, FileOf, HasEntry;
    var es, bs := Listed(now.journal), Listed(base.journal);
    forall j: nat | j < |bs| ensures bs[j].when < es[i].when {
      PrefixHolds(now, base, j);
      assert es[j].when < es[i].when;
    }
  }

  /** For sound commits, passing the comparison with the base means that its scripts are a prefix of the new ones. */
  lemma ExtendsIsPrefix(now: Repo, base: Repo)
    requires Sound(now) && Sound(base)
    ensures Extends(now, base) <==> Scripts(base) <= Scripts(now)
  {
    hide Sound, Extends, Scripts;
    if Extends(now, base) {
      ExtendsGivesPrefix(now, base);
    }
    if Scripts(base) <= Scripts(now) {
      PrefixGivesExtends(now, base);
    }
  }

  // ---------- deployments ----------

  function Latest(applied: seq<Script>, before: int): int {
    if applied == [] then before else applied[|applied| - 1].entry.when
  }

  function Due(x: Script, applied: seq<Script>): seq<Script> {
    if applied == [] || x.entry.when > Latest(applied, 0) then [x] else []
  }

  /** The migrator runs, in order, the scripts later than the last one it has run. */
  function Pending(scripts: seq<Script>, applied: seq<Script>): seq<Script> {
    if scripts == [] then [] else Due(scripts[0], applied) + Pending(scripts[1..], applied)
  }

  function Migrate(applied: seq<Script>, r: Repo): seq<Script>
    requires Sound(r)
  {
    applied + Pending(Scripts(r), applied)
  }

  ghost predicate ScriptsIncrease(s: seq<Script>) {
    forall i, j :: 0 <= i < j < |s| ==> s[i].entry.when < s[j].entry.when
  }

  lemma {:induction false} AllPending(s: seq<Script>, applied: seq<Script>)
    requires applied == [] || forall i :: 0 <= i < |s| ==> s[i].entry.when > Latest(applied, 0)
    ensures Pending(s, applied) == s
  {
    if s != [] {
      AllPending(s[1..], applied);
    }
  }

  lemma {:induction false} NonePending(s: seq<Script>, applied: seq<Script>)
    requires applied != [] && forall i :: 0 <= i < |s| ==> s[i].entry.when <= Latest(applied, 0)
    ensures Pending(s, applied) == []
  {
    if s != [] {
      NonePending(s[1..], applied);
    }
  }

  lemma {:induction false} PendingConcat(s: seq<Script>, t: seq<Script>, applied: seq<Script>)
    ensures Pending(s + t, applied) == Pending(s, applied) + Pending(t, applied)
  {
    hide Due;
    if s == [] {
      assert s + t == t && Pending(s, applied) + Pending(t, applied) == Pending(t, applied);
    } else {
      assert (s + t)[0] == s[0] && (s + t)[1..] == s[1..] + t;
      PendingConcat(s[1..], t, applied);
      Concat(Due(s[0], applied), Pending(s[1..], applied), Pending(t, applied));
    }
  }

  lemma ScriptsAreIncreasing(r: Repo)
    requires Sound(r)
    ensures ScriptsIncrease(Scripts(r))
  {
  }

  lemma RestIsPending(applied: seq<Script>, rest: seq<Script>)
    requires ScriptsIncrease(applied + rest)
    ensures Pending(applied + rest, applied) == rest
  {
    hide Pending, Due;
    var s := applied + rest;
    if applied == [] {
      AllPending(rest, applied);
      assert s == rest;
    } else {
      forall i | 0 <= i < |rest| ensures rest[i].entry.when > Latest(applied, 0) {
        assert s[|applied| + i] == rest[i] && s[|applied| - 1] == applied[|applied| - 1];
      }
      forall i | 0 <= i < |applied| ensures applied[i].entry.when <= Latest(applied, 0) {
        assert s[i] == applied[i] && s[|applied| - 1] == applied[|applied| - 1];
      }
      NonePending(applied, applied);
      AllPending(rest, applied);
      PendingConcat(applied, rest, applied);
    }
  }

  lemma PrefixIsRun(s: seq<Script>, applied: seq<Script>)
    requires ScriptsIncrease(applied) && s <= applied && applied != []
    ensures Pending(s, applied) == []
  {
    hide Pending, Due;
    forall i | 0 <= i < |s| ensures s[i].entry.when <= Latest(applied, 0) {
      assert s[i] == applied[i];
    }
    NonePending(s, applied);
  }

  /** A later commit brings exactly the rest, an earlier or the same one brings nothing. */
  lemma MigrateMoves(applied: seq<Script>, r: Repo)
    requires Sound(r) && ScriptsIncrease(applied) && (applied <= Scripts(r) || Scripts(r) <= applied)
    ensures Migrate(applied, r) == if applied <= Scripts(r) then Scripts(r) else applied
  {
    hide Sound, Scripts, Pending, ScriptsIncrease;
    var s := Scripts(r);
    ScriptsAreIncreasing(r);
    if applied <= s {
      assert s == applied + s[|applied|..];
      RestIsPending(applied, s[|applied|..]);
    } else {
      PrefixIsRun(s, applied);
    }
  }

  /** A database that ran all of the base ends with exactly the new scripts if and only if the comparison passes. */
  lemma UpgradeIsExact(now: Repo, base: Repo)
    requires Sound(now) && Sound(base)
    ensures Extends(now, base) <==> Migrate(Scripts(base), now) == Scripts(now)
  {
    hide Sound, Extends, Scripts;
    ExtendsIsPrefix(now, base);
    ScriptsAreIncreasing(base);
    if Extends(now, base) {
      MigrateMoves(Scripts(base), now);
    }
  }

  /** A line of commits, each accepted against the one before it, the first one accepted on its own. */
  ghost predicate History(commits: seq<Repo>) {
    && (forall i :: 0 <= i < |commits| ==> Sound(commits[i]))
    && forall i :: 0 < i < |commits| ==> Extends(commits[i], commits[i - 1])
  }

  /** Every commit's scripts are a prefix of those of every later one. */
  lemma {:induction false} HistoryGrows(commits: seq<Repo>, i: nat, j: nat)
    requires History(commits) && i <= j < |commits|
    ensures Scripts(commits[i]) <= Scripts(commits[j])
  {
    hide Sound, Extends, Scripts;
    if i < j {
      HistoryGrows(commits, i, j - 1);
      ExtendsIsPrefix(commits[j], commits[j - 1]);
    }
  }

  /** The scripts run after deploying the numbered commits one after the other onto an empty database. */
  ghost function Deploy(commits: seq<Repo>, deployed: seq<nat>): seq<Script>
    requires History(commits) && forall k :: 0 <= k < |deployed| ==> deployed[k] < |commits|
  {
    if deployed == [] then []
    else Migrate(Deploy(commits, deployed[..|deployed| - 1]), commits[deployed[|deployed| - 1]])
  }

  function Newest(deployed: seq<nat>): nat {
    if deployed == [] then 0
    else
      var before, last := Newest(deployed[..|deployed| - 1]), deployed[|deployed| - 1];
      if last > before then last else before
  }

  lemma {:induction false} NewestIsMaximum(deployed: seq<nat>)
    requires deployed != []
    ensures Newest(deployed) in deployed && forall k :: 0 <= k < |deployed| ==> deployed[k] <= Newest(deployed)
  {
    if |deployed| > 1 {
      NewestIsMaximum(deployed[..|deployed| - 1]);
    }
  }

  /**
   * Deployments in any order, with commits skipped, repeated and rolled back, leave the database with exactly the
   * newest deployed commit's scripts, with the contents of that commit, as if applied from scratch.
   */
  lemma {:induction false} AnyDeployments(commits: seq<Repo>, deployed: seq<nat>)
    requires History(commits) && deployed != [] && forall k :: 0 <= k < |deployed| ==> deployed[k] < |commits|
    ensures Newest(deployed) in deployed && forall k :: 0 <= k < |deployed| ==> deployed[k] <= Newest(deployed)
    ensures Newest(deployed) < |commits| && Deploy(commits, deployed) == Scripts(commits[Newest(deployed)])
    ensures Scripts(commits[Newest(deployed)]) == Migrate([], commits[Newest(deployed)])
  {
    hide Sound, Extends, Scripts, Migrate;
    NewestIsMaximum(deployed);
    var front, last := deployed[..|deployed| - 1], deployed[|deployed| - 1];
    var applied: seq<Script> := Deploy(commits, front);
    if front != [] {
      AnyDeployments(commits, front);
      ScriptsAreIncreasing(commits[Newest(front)]);
      if last <= Newest(front) {
        HistoryGrows(commits, last, Newest(front));
      } else {
        HistoryGrows(commits, Newest(front), last);
      }
    }
    MigrateMoves(applied, commits[last]);
    MigrateMoves([], commits[Newest(deployed)]);
  }
}
