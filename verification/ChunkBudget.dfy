/** What a console user downloads: the budget of each navigation and the one page that may load the editor. */
module ChunkBudget {
  import opened Sequences
  import opened ChunkGraph
  import Text

  const FIRST_SCREEN_JS := 420_000
  const NAV_JS := 250_000
  const OVERVIEW := "src/pages/overview.lazy.tsx"
  const SOP := "src/pages/sop.lazy.tsx"

  predicate EndsWith(s: string, tail: string) { |tail| <= |s| && s[|s| - |tail|..] == tail }

  predicate IsJs(file: string) { EndsWith(file, ".js") }

  /** The whole key is one of the two page directories, one path segment and ".lazy.tsx". */
  predicate IsRoute(key: string) {
    InDirectory(key, "src/pages/") || InDirectory(key, "src/_specimen/")
  }

  predicate InDirectory(key: string, dir: string) {
    dir <= key && '/' !in key[|dir|..] && EndsWith(key, ".lazy.tsx") && |key| > |dir| + |".lazy.tsx"|
  }

  // ---------- what a chunk needs ----------

  /** The JS file belongs to the chunk or to one of its static dependencies at any depth. */
  ghost predicate Needs(m: Manifest, key: string, file: string) {
    IsJs(file) && exists k :: k in m && m[k].file == file && Reachable(m, Static, {}, key, k)
  }

  ghost function Needed(m: Manifest, key: string): (r: set<string>)
    ensures forall f :: f in r <==> Needs(m, key, f)
  {
    set k | k in m && IsJs(m[k].file) && Reachable(m, Static, {}, key, k) :: m[k].file
  }

  /** The list names the files a browser fetches for a chunk when it already holds the loaded ones. */
  ghost predicate Fetches(m: Manifest, key: string, loaded: set<string>, got: seq<string>) {
    Distinct(got) && forall f :: f in got <==> Needs(m, key, f) && f !in loaded
  }

  function Bytes(files: seq<string>, size: string -> nat): nat {
    if files == [] then 0 else size(files[0]) + Bytes(files[1..], size)
  }

  /** However the fetched files are listed, they stay within the limit. */
  ghost predicate Within(m: Manifest, key: string, loaded: set<string>, size: string -> nat, limit: nat) {
    forall got :: Fetches(m, key, loaded, got) ==> Bytes(got, size) <= limit
  }

  lemma {:induction false} BytesSnoc(files: seq<string>, file: string, size: string -> nat)
    ensures Bytes(files + [file], size) == Bytes(files, size) + size(file)
  {
    if files != [] {
      assert (files + [file])[1..] == files[1..] + [file];
      BytesSnoc(files[1..], file, size);
    } else {
      assert files + [file] == [file];
    }
  }

  lemma {:induction false} BytesAround(files: seq<string>, i: nat, size: string -> nat)
    requires i < |files|
    ensures Bytes(files, size) == size(files[i]) + Bytes(files[..i] + files[i + 1..], size)
  {
    if i > 0 {
      BytesAround(files[1..], i - 1, size);
      var rest := files[..i] + files[i + 1..];
      assert rest[1..] == files[1..][..i - 1] + files[1..][i..] && rest[0] == files[0];
    } else {
      assert files[..0] + files[1..] == files[1..];
    }
  }

  /** A list without repetition weighs no more than any list that holds all its files. */
  lemma {:induction false} FewerBytes(few: seq<string>, many: seq<string>, size: string -> nat)
    requires Distinct(few) && forall f :: f in few ==> f in many
    ensures Bytes(few, size) <= Bytes(many, size)
  {
    if few != [] {
      assert few[0] in many;
      var i :| 0 <= i < |many| && many[i] == few[0];
      BytesAround(many, i, size);
      var rest := many[..i] + many[i + 1..];
      forall f | f in few[1..] ensures f in rest {
        var j :| 0 <= j < |few[1..]| && few[1..][j] == f;
        assert few[j + 1] == f && f != few[0] && f in many;
        var n :| 0 <= n < |many| && many[n] == f;
        assert if n < i then rest[n] == f else rest[n - 1] == f;
      }
      FewerBytes(few[1..], rest, size);
    }
  }

  // ---------- the files and their compressed size ----------

  /** The chunk is among those whose file the check adds up. */
  ghost predicate Charged(m: Manifest, key: string, loaded: set<string>, k: string) {
    k in m && IsJs(m[k].file) && m[k].file !in loaded && Reachable(m, Static, {}, key, k)
  }

  /** The list names the JS chunks among a chunk and its static dependencies whose file is not loaded, each once. */
  ghost predicate Charges(m: Manifest, key: string, loaded: set<string>, keys: seq<string>) {
    Distinct(keys) && forall k :: k in keys <==> Charged(m, key, loaded, k)
  }

  /** No two chunks whose files are added up share a file. */
  ghost predicate CountedOnce(m: Manifest, key: string, loaded: set<string>) {
    forall j, k :: Charged(m, key, loaded, j) && Charged(m, key, loaded, k) && m[j].file == m[k].file ==> j == k
  }

  function FilesAt(m: Manifest, keys: seq<string>): seq<string>
    requires forall i :: 0 <= i < |keys| ==> keys[i] in m
  {
    seq(|keys|, i requires 0 <= i < |keys| => m[keys[i]].file)
  }

  /** The JS files of a chunk and of its static dependencies, one for each chunk. */
  method JsOf(m: Manifest, key: string) returns (files: seq<string>, ghost keys: seq<string>)
    ensures forall f :: f in files <==> Needs(m, key, f)
    ensures Charges(m, key, {}, keys) && (forall i :: 0 <= i < |keys| ==> keys[i] in m) && files == FilesAt(m, keys)
  {
    hide Reachable;
    var found := Collect(m, Static, {}, key);
    files, keys := [], [];
    for i := 0 to |found|
      invariant Distinct(keys) && forall k :: k in keys <==> k in found[..i] && IsJs(m[k].file)
      invariant (forall j :: 0 <= j < |keys| ==> keys[j] in m) && files == FilesAt(m, keys)
    {
      if IsJs(m[found[i]].file) {
        files, keys := files + [m[found[i]].file], keys + [found[i]];
      }
    }
    assert found[..|found|] == found;
    NeededFiles(m, key, keys);
  }

  lemma NeededFiles(m: Manifest, key: string, keys: seq<string>)
    requires Charges(m, key, {}, keys) && forall i :: 0 <= i < |keys| ==> keys[i] in m
    ensures forall f :: f in FilesAt(m, keys) <==> Needs(m, key, f)
  {
    hide Reachable;
    var files := FilesAt(m, keys);
    forall f ensures f in files <==> Needs(m, key, f) {
      if Needs(m, key, f) {
        var k :| k in m && m[k].file == f && Reachable(m, Static, {}, key, k);
        assert Charged(m, key, {}, k) && k in keys;
        var i :| 0 <= i < |keys| && keys[i] == k;
        assert files[i] == f;
      }
      if f in files {
        var i :| 0 <= i < |files| && files[i] == f;
        assert keys[i] in keys;
      }
    }
  }

  method Sum(files: seq<string>, size: string -> nat) returns (total: nat)
    ensures total == Bytes(files, size)
  {
    total := 0;
    for i := 0 to |files|
      invariant total == Bytes(files[..i], size)
    {
      assert files[..i + 1] == files[..i] + [files[i]];
      BytesSnoc(files[..i], files[i], size);
      total := total + size(files[i]);
    }
    assert files[..|files|] == files;
  }

  /** The chunks whose file is not among the given ones. */
  function Others(m: Manifest, keys: seq<string>, files: seq<string>): (r: seq<string>)
    requires forall i :: 0 <= i < |keys| ==> keys[i] in m
    ensures forall i :: 0 <= i < |r| ==> r[i] in m
    ensures forall k :: k in r <==> k in keys && m[k].file !in files
    ensures Distinct(keys) ==> Distinct(r)
  {
    if keys == [] then []
    else
      var before, last := Others(m, keys[..|keys| - 1], files), keys[|keys| - 1];
      if m[last].file in files then before else before + [last]
  }

  lemma OthersNext(m: Manifest, keys: seq<string>, i: nat, files: seq<string>)
    requires i < |keys| && forall j :: 0 <= j < |keys| ==> keys[j] in m
    ensures FilesAt(m, Others(m, keys[..i + 1], files)) ==
      FilesAt(m, Others(m, keys[..i], files)) + if m[keys[i]].file in files then [] else [m[keys[i]].file]
  {
    assert keys[..i + 1][..i] == keys[..i];
  }

  /** Takes the excluded files out of the files of some chunks. */
  method Without(m: Manifest, files: seq<string>, ghost keys: seq<string>,
                 excluded: seq<string>) returns (r: seq<string>)
    requires (forall i :: 0 <= i < |keys| ==> keys[i] in m) && files == FilesAt(m, keys)
    ensures r == FilesAt(m, Others(m, keys, excluded))
  {
    hide Others;
    r := [];
    NoOthers(m, excluded);
    assert keys[..0] == [];
    for i := 0 to |files|
      invariant r == FilesAt(m, Others(m, keys[..i], excluded))
    {
      OthersNext(m, keys, i, excluded);
      if files[i] !in excluded {
        r := r + [files[i]];
      }
    }
    assert keys[..|files|] == keys;
  }

  lemma NoOthers(m: Manifest, files: seq<string>)
    ensures FilesAt(m, Others(m, [], files)) == []
  {
  }

  /** The JS of the entry and of the overview page, every file once, against the first screen's budget. */
  method CheckFirstScreen(m: Manifest, entryJs: seq<string>, size: string -> nat) returns (total: nat, ok: bool)
    ensures ok <==> total <= FIRST_SCREEN_JS
    ensures forall got :: Distinct(got) && (forall f :: f in got <==> f in entryJs || Needs(m, OVERVIEW, f)) ==>
      Bytes(got, size) == total
  {
    hide OVERVIEW, Needs;
    var more, _ := JsOf(m, OVERVIEW);
    var first := new KeySet();
    var both := entryJs + more;
    for i := 0 to |both|
      invariant Distinct(first.keys)
      invariant forall f :: f in first.keys <==> f in both[..i]
    {
      first.Add(both[i]);
    }
    var files := first.keys;
    assert both[..|both|] == both;
    total := Sum(files, size);
    ok := total <= FIRST_SCREEN_JS;
    forall got | Distinct(got) && (forall f :: f in got <==> f in entryJs || Needs(m, OVERVIEW, f))
      ensures Bytes(got, size) == total
    {
      FewerBytes(got, files, size);
      FewerBytes(files, got, size);
    }
  }

  ghost predicate Lists(keys: seq<string>, m: Manifest) { Distinct(keys) && forall k :: k in keys <==> k in m }

  ghost predicate Route(m: Manifest, k: string) { k in m && m[k].isDynamicEntry && IsRoute(k) }

  /** The size of a chunk's file. */
  function BytesOf(m: Manifest, size: string -> nat, key: string): nat { if key in m then size(m[key].file) else 0 }

  function ChunkBytes(m: Manifest, size: string -> nat): string -> nat { (key: string) => BytesOf(m, size, key) }

  /** What the check adds up for a chunk beyond the loaded files, one file for each chunk, is within the limit. */
  ghost predicate ChargedWithin(m: Manifest, key: string, loaded: set<string>, size: string -> nat, limit: nat) {
    forall keys :: Charges(m, key, loaded, keys) ==> Bytes(keys, ChunkBytes(m, size)) <= limit
  }

  lemma {:induction false} BytesOfFiles(m: Manifest, keys: seq<string>, size: string -> nat)
    requires forall i :: 0 <= i < |keys| ==> keys[i] in m
    ensures Bytes(FilesAt(m, keys), size) == Bytes(keys, ChunkBytes(m, size))
  {
    if keys != [] {
      BytesOfFiles(m, keys[1..], size);
      assert FilesAt(m, keys)[1..] == FilesAt(m, keys[1..]);
    }
  }

  /** The sum does not depend on the order in which the chunks are listed. */
  lemma ChargedExactly(m: Manifest, key: string, loaded: set<string>, size: string -> nat, keys: seq<string>,
                       limit: nat)
    requires Charges(m, key, loaded, keys)
    ensures ChargedWithin(m, key, loaded, size, limit) <==> Bytes(keys, ChunkBytes(m, size)) <= limit
  {
    hide Reachable;
    forall other | Charges(m, key, loaded, other)
      ensures Bytes(other, ChunkBytes(m, size)) == Bytes(keys, ChunkBytes(m, size))
    {
      FewerBytes(other, keys, ChunkBytes(m, size));
      FewerBytes(keys, other, ChunkBytes(m, size));
    }
  }

  lemma ChargeExists(m: Manifest, key: string, loaded: set<string>) returns (keys: seq<string>)
    ensures Charges(m, key, loaded, keys) && forall i :: 0 <= i < |keys| ==> keys[i] in m
  {
    hide Reachable;
    keys := SetHasList(set k | k in m && IsJs(m[k].file) && m[k].file !in loaded && Reachable(m, Static, {}, key, k));
    assert forall i :: 0 <= i < |keys| ==> keys[i] in keys;
  }

  lemma FetchedFiles(m: Manifest, key: string, loaded: set<string>, keys: seq<string>, f: string)
    requires Charges(m, key, loaded, keys) && forall i :: 0 <= i < |keys| ==> keys[i] in m
    ensures f in FilesAt(m, keys) <==> Needs(m, key, f) && f !in loaded
  {
    hide Reachable;
    var files := FilesAt(m, keys);
    if Needs(m, key, f) && f !in loaded {
      var k :| k in m && m[k].file == f && Reachable(m, Static, {}, key, k);
      assert Charged(m, key, loaded, k) && k in keys;
      var i :| 0 <= i < |keys| && keys[i] == k;
      assert files[i] == f;
    }
    if f in files {
      var i :| 0 <= i < |files| && files[i] == f;
      assert keys[i] in keys;
    }
  }

  /** The check never adds up less than is fetched, and exactly that when no two of the chunks share a file. */
  lemma ChargedCovers(m: Manifest, key: string, loaded: set<string>, size: string -> nat, limit: nat)
    ensures ChargedWithin(m, key, loaded, size, limit) ==> Within(m, key, loaded, size, limit)
    ensures CountedOnce(m, key, loaded) && Within(m, key, loaded, size, limit) ==>
      ChargedWithin(m, key, loaded, size, limit)
  {
    hide Needs, Charges, CountedOnce;
    var keys := ChargeExists(m, key, loaded);
    var files := FilesAt(m, keys);
    ChargedExactly(m, key, loaded, size, keys, limit);
    BytesOfFiles(m, keys, size);
    forall f ensures f in files <==> Needs(m, key, f) && f !in loaded {
      FetchedFiles(m, key, loaded, keys, f);
    }
    forall got | Fetches(m, key, loaded, got) ensures Bytes(got, size) <= Bytes(files, size) {
      FewerBytes(got, files, size);
    }
    if CountedOnce(m, key, loaded) {
      FilesDiffer(m, key, loaded, keys);
      assert Fetches(m, key, loaded, files);
    }
  }

  lemma FilesDiffer(m: Manifest, key: string, loaded: set<string>, keys: seq<string>)
    requires CountedOnce(m, key, loaded) && Charges(m, key, loaded, keys)
    requires forall i :: 0 <= i < |keys| ==> keys[i] in m
    ensures Distinct(FilesAt(m, keys))
  {
    hide Reachable;
    forall i, j | 0 <= i < j < |keys| ensures FilesAt(m, keys)[i] != FilesAt(m, keys)[j] {
      assert keys[i] in keys && keys[j] in keys && keys[i] != keys[j];
    }
  }

  /** The routes over budget, in the manifest's order, with the dearest route. */
  method CheckRoutes(m: Manifest, keys: seq<string>, entryJs: seq<string>, size: string -> nat)
    returns (over: seq<string>, worst: string, worstBytes: nat)
    requires Lists(keys, m)
    ensures forall k :: k in over <==> Route(m, k) && !ChargedWithin(m, k, Elements(entryJs), size, NAV_JS)
    ensures forall k :: Route(m, k) ==> ChargedWithin(m, k, Elements(entryJs), size, worstBytes)
    ensures worstBytes > 0 ==> Route(m, worst) && !ChargedWithin(m, worst, Elements(entryJs), size, worstBytes - 1)
  {
    hide IsRoute, ChargedWithin;
    ghost var loaded := Elements(entryJs);
    over, worst, worstBytes := [], "", 0;
    for i := 0 to |keys|
      invariant forall k :: k in over <==> k in keys[..i] && Route(m, k) && !ChargedWithin(m, k, loaded, size, NAV_JS)
      invariant forall k :: k in keys[..i] && Route(m, k) ==> ChargedWithin(m, k, loaded, size, worstBytes)
      invariant worstBytes > 0 ==> Route(m, worst) && !ChargedWithin(m, worst, loaded, size, worstBytes - 1)
    {
      var key := keys[i];
      if m[key].isDynamicEntry && IsRoute(key) {
        var bytes := RouteBytes(m, key, entryJs, size);
        ghost var bound := if bytes > worstBytes then bytes else worstBytes;
        forall k | k in keys[..i + 1] && Route(m, k) ensures ChargedWithin(m, k, loaded, size, bound) {
          if k != key {
            RaisedLimit(m, k, loaded, size, worstBytes, bound);
          }
        }
        if bytes > NAV_JS {
          over := over + [key];
        }
        if bytes > worstBytes {
          worst, worstBytes := key, bytes;
        }
      }
    }
    assert keys[..|keys|] == keys;
  }

  lemma RaisedLimit(m: Manifest, key: string, loaded: set<string>, size: string -> nat, limit: nat, more: nat)
    requires ChargedWithin(m, key, loaded, size, limit) && limit <= more
    ensures ChargedWithin(m, key, loaded, size, more)
  {
  }

  /** The size of the JS a route adds to the entry's. */
  method RouteBytes(m: Manifest, key: string, entryJs: seq<string>, size: string -> nat) returns (bytes: nat)
    ensures forall limit: nat :: ChargedWithin(m, key, Elements(entryJs), size, limit) <==> bytes <= limit
  {
    hide Needs, ChargedWithin, Reachable;
    var files, keys := JsOf(m, key);
    var extra := Without(m, files, keys, entryJs);
    bytes := Sum(extra, size);
    ghost var left := Others(m, keys, entryJs);
    BytesOfFiles(m, left, size);
    assert Charges(m, key, Elements(entryJs), left);
    forall limit: nat ensures ChargedWithin(m, key, Elements(entryJs), size, limit) <==> bytes <= limit {
      ChargedExactly(m, key, Elements(entryJs), size, left, limit);
    }
  }

  // ---------- any history of navigation ----------

  /** What can happen in a tab: a page is opened, files are fetched ahead, files other than the entry's are dropped. */
  datatype Event = Visit(key: string) | Prefetch(files: set<string>) | Drop(files: set<string>)

  ghost function After(m: Manifest, entryJs: set<string>, loaded: set<string>, e: Event): set<string> {
    match e
    case Visit(key) => loaded + Needed(m, key)
    case Prefetch(files) => loaded + files
    case Drop(files) => loaded - (files - entryJs)
  }

  ghost function LoadedAfter(m: Manifest, entryJs: set<string>, start: set<string>, history: seq<Event>): set<string> {
    if history == [] then start
    else
      After(m, entryJs, LoadedAfter(m, entryJs, start, history[..|history| - 1]), history[|history| - 1])
  }

  /** Every page opened in the history fetches at most the limit. */
  ghost predicate Bounded(m: Manifest, entryJs: set<string>, start: set<string>, history: seq<Event>,
                          size: string -> nat, limit: nat) {
    forall i :: 0 <= i < |history| && history[i].Visit? ==>
      Within(m, history[i].key, LoadedAfter(m, entryJs, start, history[..i]), size, limit)
  }

  ghost predicate OpensRoutes(m: Manifest, history: seq<Event>) {
    forall i :: 0 <= i < |history| && history[i].Visit? ==> Route(m, history[i].key)
  }

  lemma {:induction false} EntryStaysLoaded(m: Manifest, entryJs: set<string>, start: set<string>, history: seq<Event>)
    requires entryJs <= start
    ensures entryJs <= LoadedAfter(m, entryJs, start, history)
  {
    if history != [] {
      EntryStaysLoaded(m, entryJs, start, history[..|history| - 1]);
    }
  }

  /** Having more files loaded never makes a page dearer. */
  lemma LoadedHelps(m: Manifest, key: string, entryJs: set<string>, loaded: set<string>, size: string -> nat,
                    limit: nat)
    requires entryJs <= loaded && Within(m, key, entryJs, size, limit)
    ensures Within(m, key, loaded, size, limit)
  {
    var all := SetHasList(Needed(m, key) - entryJs);
    assert Fetches(m, key, entryJs, all);
    forall got | Fetches(m, key, loaded, got) ensures Bytes(got, size) <= limit {
      FewerBytes(got, all, size);
    }
  }

  /** The routes fit the budget from the entry's files alone exactly when no history of any kind exceeds it. */
  lemma NavigationBudget(m: Manifest, entryJs: set<string>, size: string -> nat, limit: nat)
    ensures (forall k :: Route(m, k) ==> Within(m, k, entryJs, size, limit))
        <==> (forall start: set<string>, history: seq<Event> :: entryJs <= start && OpensRoutes(m, history) ==>
          Bounded(m, entryJs, start, history, size, limit))
  {
    hide IsRoute, Needs, Within;
    if forall k :: Route(m, k) ==> Within(m, k, entryJs, size, limit) {
      forall start: set<string>, history: seq<Event> | entryJs <= start && OpensRoutes(m, history)
        ensures Bounded(m, entryJs, start, history, size, limit)
      {
        forall i | 0 <= i < |history| && history[i].Visit?
          ensures Within(m, history[i].key, LoadedAfter(m, entryJs, start, history[..i]), size, limit)
        {
          EntryStaysLoaded(m, entryJs, start, history[..i]);
          LoadedHelps(m, history[i].key, entryJs, LoadedAfter(m, entryJs, start, history[..i]), size, limit);
        }
      }
    }
    if forall start: set<string>, history: seq<Event> :: entryJs <= start && OpensRoutes(m, history) ==>
      Bounded(m, entryJs, start, history, size, limit) {
      forall k | Route(m, k) ensures Within(m, k, entryJs, size, limit) {
        var once := [Visit(k)];
        assert OpensRoutes(m, once) && Bounded(m, entryJs, entryJs, once, size, limit);
        assert once[0].Visit? && once[..0] == [];
      }
    }
  }

  // ---------- the editor is downloaded through one page only ----------

  predicate IsCodemirror(id: string) { Text.IndexOf(id, "node_modules/@codemirror/", 0) >= 0 }

  predicate HoldsEditor(ids: seq<string>) { exists i :: 0 <= i < |ids| && IsCodemirror(ids[i]) }

  datatype Complaint =
    | EditorInEntry(file: string)
    | NoEditor
    | NoSopPage
    | ReachedWithoutSop(file: string)
    | NotReachedFromSop(file: string)

  ghost predicate SomeChunk(m: Manifest, skip: set<string>, from: string, file: string) {
    exists k :: k in m && m[k].file == file && Reachable(m, All, skip, from, k)
  }

  /** The files of the chunks reachable by any reference without entering the skipped chunk. */
  method FilesReached(m: Manifest, key: string, skip: string) returns (files: seq<string>)
    ensures forall f :: f in files <==> SomeChunk(m, {skip}, key, f)
  {
    hide Reachable;
    var keys := Collect(m, All, {skip}, key);
    files := [];
    for i := 0 to |keys|
      invariant forall f :: f in files <==> exists j :: 0 <= j < i && m[keys[j]].file == f
    {
      files := files + [m[keys[i]].file];
    }
    forall f ensures f in files <==> SomeChunk(m, {skip}, key, f) {
      if SomeChunk(m, {skip}, key, f) {
        var k :| k in m && m[k].file == f && Reachable(m, All, {skip}, key, k);
        assert k in keys;
      }
      if f in files {
        var j :| 0 <= j < |keys| && m[keys[j]].file == f;
        assert keys[j] in keys;
      }
    }
  }

  type Modules = map<string, seq<string>>

  ghost predicate EditorFile(modules: Modules, f: string) { f in modules && HoldsEditor(modules[f]) }

  /** The complaints about the editor's chunks; moduleFiles lists the keys of modules. */
  method CheckEditor(m: Manifest, entries: seq<string>, entryJs: seq<string>, modules: Modules,
                     moduleFiles: seq<string>)
    returns (bad: seq<Complaint>)
    requires forall f :: f in moduleFiles <==> f in modules
    ensures forall f :: EditorInEntry(f) in bad <==> f in entryJs && EditorFile(modules, f)
    ensures NoEditor in bad <==> forall f :: !EditorFile(modules, f)
    ensures NoSopPage in bad <==> SOP !in m
    ensures SOP in m && |entries| == 1 ==> forall f ::
      && (ReachedWithoutSop(f) in bad <==> EditorFile(modules, f) && SomeChunk(m, {SOP}, entries[0], f))
      && (NotReachedFromSop(f) in bad <==>
        EditorFile(modules, f) && !SomeChunk(m, {SOP}, entries[0], f) && !SomeChunk(m, {""}, SOP, f))
  {
    hide SOP, HoldsEditor, SomeChunk;
    bad := [];
    for i := 0 to |entryJs|
      invariant forall c :: c in bad ==> c.EditorInEntry?
      invariant forall f :: EditorInEntry(f) in bad <==> f in entryJs[..i] && EditorFile(modules, f)
    {
      if entryJs[i] in modules && HoldsEditor(modules[entryJs[i]]) {
        bad := bad + [EditorInEntry(entryJs[i])];
      }
    }
    var cmFiles := [];
    for i := 0 to |moduleFiles|
      invariant forall f :: f in cmFiles <==> f in moduleFiles[..i] && EditorFile(modules, f)
    {
      if HoldsEditor(modules[moduleFiles[i]]) {
        cmFiles := cmFiles + [moduleFiles[i]];
      }
    }
    assert moduleFiles[..|moduleFiles|] == moduleFiles;
    assert forall f :: f in cmFiles <==> EditorFile(modules, f);
    if cmFiles == [] {
      bad := bad + [NoEditor];
    } else {
      assert cmFiles[0] in cmFiles;
    }
    if SOP !in m {
      bad := bad + [NoSopPage];
    } else if |entries| == 1 {
      var more := CheckPaths(m, entries[0], cmFiles);
      bad := bad + more;
    }
  }

  method CheckPaths(m: Manifest, entry: string, cmFiles: seq<string>) returns (bad: seq<Complaint>)
    ensures forall c :: c in bad ==> c.ReachedWithoutSop? || c.NotReachedFromSop?
    ensures forall f :: ReachedWithoutSop(f) in bad <==> f in cmFiles && SomeChunk(m, {SOP}, entry, f)
    ensures forall f :: NotReachedFromSop(f) in bad <==>
      f in cmFiles && !SomeChunk(m, {SOP}, entry, f) && !SomeChunk(m, {""}, SOP, f)
  {
    hide SOP, SomeChunk;
    bad := [];
    var viaSop := FilesReached(m, SOP, "");
    var withoutSop := FilesReached(m, entry, SOP);
    for i := 0 to |cmFiles|
      invariant forall c :: c in bad ==> c.ReachedWithoutSop? || c.NotReachedFromSop?
      invariant forall f :: ReachedWithoutSop(f) in bad <==> f in cmFiles[..i] && f in withoutSop
      invariant forall f :: NotReachedFromSop(f) in bad <==> f in cmFiles[..i] && f !in withoutSop && f !in viaSop
    {
      var f := cmFiles[i];
      if f in withoutSop {
        bad := bad + [ReachedWithoutSop(f)];
      } else if f !in viaSop {
        bad := bad + [NotReachedFromSop(f)];
      }
    }
    assert cmFiles[..|cmFiles|] == cmFiles;
  }

  /** An order in which chunks can come to be loaded: the entry first, then chunks some loaded chunk refers to. */
  ghost predicate LoadOrder(m: Manifest, entry: string, order: seq<string>) {
    && (forall i :: 0 <= i < |order| ==> order[i] in m)
    && (order != [] ==> order[0] == entry)
    && (forall i :: 0 < i < |order| ==> exists j :: 0 <= j < i && RefersTo(m, order[j], order[i]))
  }

  /** The chunk imports the other statically or dynamically. */
  predicate RefersTo(m: Manifest, k: string, next: string) {
    k in m && (next in m[k].imports || next in m[k].dynamicImports)
  }

  lemma AddStep(m: Manifest, skip: set<string>, from: string, k: string, next: string)
    requires Reachable(m, All, skip, from, k) && Open(m, skip, k)
    requires next in Successors(m, All, k) && Open(m, skip, next)
    ensures Reachable(m, All, skip, from, next)
  {
    var p :| Connects(m, All, skip, p, from, k);
    var q := p + [next];
    forall i | 0 <= i < |q| - 1 ensures q[i + 1] in Successors(m, All, q[i]) {
      if i < |p| - 1 {
        assert p[i + 1] in Successors(m, All, p[i]);
      }
    }
    assert Connects(m, All, skip, q, from, next);
  }

  /** While the skipped chunk has not been loaded, everything loaded is reachable without it. */
  lemma {:induction false} LoadedIsReachable(m: Manifest, entry: string, order: seq<string>, skip: string, i: nat)
    requires LoadOrder(m, entry, order) && i < |order| && forall j :: 0 <= j <= i ==> order[j] != skip
    ensures Reachable(m, All, {skip}, entry, order[i])
  {
    hide Reachable;
    if i == 0 {
      ReachesItself(m, All, {skip}, entry);
    } else {
      var j :| 0 <= j < i && RefersTo(m, order[j], order[i]);
      LoadedIsReachable(m, entry, order, skip, j);
      AddStep(m, {skip}, entry, order[j], order[i]);
    }
  }

  lemma {:induction false} PathLoads(m: Manifest, entry: string, skip: set<string>, p: seq<string>)
    requires Path(m, All, skip, p) && p[0] == entry
    ensures LoadOrder(m, entry, p)
  {
    forall i | 0 < i < |p| ensures exists j :: 0 <= j < i && RefersTo(m, p[j], p[i]) {
      assert p[i - 1 + 1] in Successors(m, All, p[i - 1]) && RefersTo(m, p[i - 1], p[i]);
    }
  }

  /** The order of loading ends with a chunk that has the file. */
  ghost predicate BringsIn(m: Manifest, entry: string, order: seq<string>, file: string) {
    LoadOrder(m, entry, order) && order != [] && m[order[|order| - 1]].file == file
  }

  /** A file is reached without a chunk exactly when some order of loading brings it in with that chunk not loaded. */
  lemma LoadedWithout(m: Manifest, entry: string, skip: string, file: string)
    ensures SomeChunk(m, {skip}, entry, file)
        <==> exists order :: BringsIn(m, entry, order, file) && skip !in order
  {
    hide Successors;
    if SomeChunk(m, {skip}, entry, file) {
      var k :| k in m && m[k].file == file && Reachable(m, All, {skip}, entry, k);
      var p :| Connects(m, All, {skip}, p, entry, k);
      PathLoads(m, entry, {skip}, p);
      assert forall i :: 0 <= i < |p| ==> Open(m, {skip}, p[i]);
      assert BringsIn(m, entry, p, file) && skip !in p;
    }
    if order: seq<string> :| BringsIn(m, entry, order, file) && skip !in order {
      LoadedIsReachable(m, entry, order, skip, |order| - 1);
    }
  }

  /** The editor's file comes in only after the page, whatever is loaded and in whatever order. */
  ghost predicate OnlyAfter(m: Manifest, entry: string, page: string, file: string) {
    forall order :: BringsIn(m, entry, order, file) ==> page in order
  }

  lemma EditorOnlyThroughSop(m: Manifest, entry: string, file: string)
    ensures !SomeChunk(m, {SOP}, entry, file) <==> OnlyAfter(m, entry, SOP, file)
  {
    hide SOP, SomeChunk, LoadOrder;
    LoadedWithout(m, entry, SOP, file);
  }

  /** The empty key is skipped where the check asks what the page reaches; usually no chunk has it. */
  lemma SkipsNothing(m: Manifest, from: string, file: string)
    ensures SomeChunk(m, {""}, from, file) ==> SomeChunk(m, {}, from, file)
    ensures "" !in m && SomeChunk(m, {}, from, file) ==> SomeChunk(m, {""}, from, file)
  {
    if k :| k in m && m[k].file == file && Reachable(m, All, {""}, from, k) {
      var p :| Connects(m, All, {""}, p, from, k);
      assert Connects(m, All, {}, p, from, k);
    }
    if k :| "" !in m && k in m && m[k].file == file && Reachable(m, All, {}, from, k) {
      var p :| Connects(m, All, {}, p, from, k);
      assert Connects(m, All, {""}, p, from, k);
    }
  }

  // ---------- the whole check ----------

  const PAGES := "src/pages/"
  const LOGIN_PAGE := "src/pages/LoginPage.tsx"

  predicate IsLazyPage(id: string) { PAGES <= id && id != LOGIN_PAGE }

  // ---------- what the check means ----------

  /** Chunks of the manifest, each one importing the next statically. */
  ghost predicate ImportChain(m: Manifest, p: seq<string>) {
    p != [] && (forall i :: 0 <= i < |p| ==> p[i] in m)
    && forall i :: 0 <= i < |p| - 1 ==> p[i + 1] in m[p[i]].imports
  }

  /** A chain of imports from the chunk to one that has the file. */
  ghost predicate LeadsTo(m: Manifest, p: seq<string>, key: string, file: string) {
    ImportChain(m, p) && p[0] == key && m[p[|p| - 1]].file == file
  }

  /** A chunk needs the JS files that a chain of static imports leads to; dynamic imports do not count. */
  lemma NeedsExactly(m: Manifest, key: string, file: string)
    ensures Needs(m, key, file) <==> (exists base :: file == base + ".js") && exists p :: LeadsTo(m, p, key, file)
  {
    JsExactly(file);
    if Needs(m, key, file) {
      var k :| k in m && m[k].file == file && Reachable(m, Static, {}, key, k);
      var p :| Connects(m, Static, {}, p, key, k);
      assert forall i :: 0 <= i < |p| ==> Open(m, {}, p[i]);
      assert LeadsTo(m, p, key, file);
    }
    if IsJs(file) && exists p :: LeadsTo(m, p, key, file) {
      var p :| LeadsTo(m, p, key, file);
      assert Connects(m, Static, {}, p, key, p[|p| - 1]);
    }
  }

  /** JS files are those whose name ends so. */
  lemma JsExactly(file: string)
    ensures IsJs(file) <==> exists base :: file == base + ".js"
  {
    if IsJs(file) {
      assert file == file[..|file| - 3] + ".js";
    }
    forall base | file == base + ".js" ensures IsJs(file) {
      assert file[|base|..] == ".js";
    }
  }

  /** A key in one of the two page directories: a name without a slash in front of the ending. */
  predicate RouteNamed(key: string, name: string) {
    && name != "" && '/' !in name
    && (key == "src/pages/" + name + ".lazy.tsx" || key == "src/_specimen/" + name + ".lazy.tsx")
  }

  lemma RouteExactly(m: Manifest, key: string)
    ensures IsRoute(key) <==> exists name :: RouteNamed(key, name)
    ensures Route(m, key) <==> key in m && m[key].isDynamicEntry && exists name :: RouteNamed(key, name)
  {
    InDirectoryExactly(key, "src/pages/");
    InDirectoryExactly(key, "src/_specimen/");
    forall name
      ensures RouteNamed(key, name) <==> Inside(key, "src/pages/", name) || Inside(key, "src/_specimen/", name)
    {
    }
  }

  predicate Inside(key: string, dir: string, name: string) {
    name != "" && '/' !in name && key == dir + name + ".lazy.tsx"
  }

  lemma InDirectoryExactly(key: string, dir: string)
    ensures InDirectory(key, dir) <==> exists name :: Inside(key, dir, name)
  {
    var tail := ".lazy.tsx";
    if InDirectory(key, dir) {
      var name := key[|dir|..|key| - |tail|];
      assert key == dir + name + tail;
      assert key[|dir|..] == name + tail;
      assert Inside(key, dir, name);
    }
    forall name | Inside(key, dir, name) ensures InDirectory(key, dir) {
      assert key[|dir|..] == name + tail && key[|key| - |tail|..] == tail;
    }
  }

  /** The entry may hold one module of the page directory, the login page. */
  lemma LazyPageExactly(id: string)
    ensures IsLazyPage(id) <==> exists rest :: id == "src/pages/" + rest && rest != "LoginPage.tsx"
  {
    if IsLazyPage(id) {
      var rest := id[|PAGES|..];
      assert id == "src/pages/" + rest;
      assert rest == "LoginPage.tsx" ==> id == LOGIN_PAGE;
    }
    forall rest | id == "src/pages/" + rest && rest != "LoginPage.tsx" ensures IsLazyPage(id) {
      assert id[|PAGES|..] == rest && LOGIN_PAGE[|PAGES|..] == "LoginPage.tsx";
    }
  }

  /** A module of the editor has its directory somewhere in its path. */
  lemma CodemirrorExactly(id: string)
    ensures IsCodemirror(id) <==> exists before, behind :: id == before + "node_modules/@codemirror/" + behind
  {
    var needle := "node_modules/@codemirror/";
    var k := Text.IndexOf(id, needle, 0);
    if k >= 0 {
      assert id == id[..k] + needle + id[k + |needle|..];
    }
    forall before, behind | id == before + needle + behind ensures IsCodemirror(id) {
      assert Text.MatchesAt(id, needle, |before|);
    }
  }

  predicate HoldsPage(ids: seq<string>) { exists i :: 0 <= i < |ids| && IsLazyPage(ids[i]) }

  ghost predicate OnlyEntry(m: Manifest, entry: string) {
    entry in m && forall k :: k in m && m[k].isEntry <==> k == entry
  }

  ghost predicate FirstScreenFits(m: Manifest, entry: string, size: string -> nat) {
    forall got :: Distinct(got) && (forall f :: f in got <==> Needs(m, entry, f) || Needs(m, OVERVIEW, f)) ==>
      Bytes(got, size) <= FIRST_SCREEN_JS
  }

  ghost predicate NavigationFits(m: Manifest, entry: string, size: string -> nat) {
    forall start: set<string>, history: seq<Event> :: Needed(m, entry) <= start && OpensRoutes(m, history) ==>
      Bounded(m, Needed(m, entry), start, history, size, NAV_JS)
  }

  /** No editor file is part of the entry, each one needs the page to be loaded first, and the page refers to it. */
  ghost predicate EditorIsConfined(m: Manifest, entry: string, modules: Modules) {
    EditorBehindPage(m, entry, modules, {})
  }

  ghost predicate EditorBehindPage(m: Manifest, entry: string, modules: Modules, skip: set<string>) {
    && SOP in m
    && (exists f :: EditorFile(modules, f))
    && forall f :: EditorFile(modules, f) ==>
         !Needs(m, entry, f) && OnlyAfter(m, entry, SOP, f) && SomeChunk(m, skip, SOP, f)
  }

  ghost predicate ModulesKnown(m: Manifest, modules: Modules) {
    forall k :: k in m && IsJs(m[k].file) ==> m[k].file in modules
  }

  ghost predicate EntryIsClean(m: Manifest, entry: string, modules: Modules, html: seq<string>) {
    && (forall f :: f in html ==> Needs(m, entry, f))
    && (forall f :: Needs(m, entry, f) && f in modules ==> !HoldsPage(modules[f]))
  }

  /** What the checks before the ones on routes and editor ask for. */
  ghost predicate Fits(m: Manifest, entry: string, modules: Modules, html: seq<string>, size: string -> nat) {
    && OnlyEntry(m, entry)
    && ModulesKnown(m, modules)
    && EntryIsClean(m, entry, modules, html)
    && OVERVIEW in m && FirstScreenFits(m, entry, size)
    && exists k :: Route(m, k)
  }

  /** What the split of the build promises its users. */
  ghost predicate Safe(m: Manifest, entry: string, modules: Modules, html: seq<string>, size: string -> nat) {
    Fits(m, entry, modules, html, size) && NavigationFits(m, entry, size) && EditorIsConfined(m, entry, modules)
  }

  /** No route is charged more than the budget. */
  ghost predicate RoutesFit(m: Manifest, entry: string, size: string -> nat) {
    forall k :: Route(m, k) ==> ChargedWithin(m, k, Needed(m, entry), size, NAV_JS)
  }

  /** No route adds up two chunks with the same file. */
  ghost predicate CountsOnce(m: Manifest, entry: string) {
    forall k :: Route(m, k) ==> CountedOnce(m, k, Needed(m, entry))
  }

  /** The page refers to every editor file without going through a chunk with the empty key. */
  ghost predicate PageRefers(m: Manifest, modules: Modules) {
    forall f :: EditorFile(modules, f) ==> SomeChunk(m, {""}, SOP, f)
  }

  /** Everything the split promises that has nothing to do with sizes. */
  ghost predicate WellSplit(m: Manifest, entry: string, modules: Modules, html: seq<string>) {
    && OnlyEntry(m, entry)
    && ModulesKnown(m, modules)
    && EntryIsClean(m, entry, modules, html)
    && OVERVIEW in m
    && (exists k :: Route(m, k))
    && EditorIsConfined(m, entry, modules)
  }

  /** Exactly what the checks accept. */
  ghost predicate Passes(m: Manifest, entry: string, modules: Modules, html: seq<string>, size: string -> nat) {
    Fits(m, entry, modules, html, size) && RoutesFit(m, entry, size) && EditorBehindPage(m, entry, modules, {""})
  }

  method Entries(m: Manifest, keys: seq<string>) returns (entries: seq<string>)
    requires Lists(keys, m)
    ensures Distinct(entries) && forall k :: k in entries <==> k in m && m[k].isEntry
  {
    entries := [];
    for i := 0 to |keys|
      invariant Distinct(entries)
      invariant forall k :: k in entries <==> k in keys[..i] && m[k].isEntry
    {
      if m[keys[i]].isEntry {
        entries := entries + [keys[i]];
      }
    }
    assert keys[..|keys|] == keys;
  }

  lemma OneEntry(m: Manifest, entries: seq<string>)
    requires Distinct(entries) && forall k :: k in entries <==> k in m && m[k].isEntry
    ensures |entries| == 1 <==> exists k :: OnlyEntry(m, k)
    ensures |entries| == 1 ==> OnlyEntry(m, entries[0])
  {
    if |entries| == 1 {
      assert forall k :: k in entries <==> k == entries[0];
      assert OnlyEntry(m, entries[0]);
    }
    assert |entries| > 1 ==> entries[0] in entries && entries[1] in entries && entries[0] != entries[1];
    if k :| OnlyEntry(m, k) {
      assert k in entries && forall i :: 0 <= i < |entries| ==> entries[i] in entries;
      assert forall i :: 0 <= i < |entries| ==> entries[i] == k;
    }
  }

  method CheckEntry(m: Manifest, entry: string, entryJs: seq<string>, modules: Modules,
                    html: seq<string>) returns (ok: bool)
    requires forall f :: f in entryJs <==> Needs(m, entry, f)
    ensures ok <==> EntryIsClean(m, entry, modules, html)
  {
    hide HoldsPage, Needs;
    ok := (forall i :: 0 <= i < |html| ==> html[i] in entryJs)
      && forall i :: 0 <= i < |entryJs| && entryJs[i] in modules ==> !HoldsPage(modules[entryJs[i]]);
    assert forall f :: f in entryJs ==> exists i :: 0 <= i < |entryJs| && entryJs[i] == f;
    assert forall i :: 0 <= i < |entryJs| ==> entryJs[i] in entryJs;
    assert forall f :: f in html ==> exists i :: 0 <= i < |html| && html[i] == f;
    assert forall i :: 0 <= i < |html| ==> html[i] in html;
  }

  method HasModules(m: Manifest, keys: seq<string>, modules: Modules) returns (ok: bool)
    requires Lists(keys, m)
    ensures ok <==> ModulesKnown(m, modules)
  {
    ok := forall i :: 0 <= i < |keys| && IsJs(m[keys[i]].file) ==> m[keys[i]].file in modules;
    assert forall k :: k in m ==> exists i :: 0 <= i < |keys| && keys[i] == k;
  }

  method HasRoute(m: Manifest, keys: seq<string>) returns (ok: bool)
    requires Lists(keys, m)
    ensures ok <==> exists k :: Route(m, k)
  {
    hide IsRoute;
    ok := exists i :: 0 <= i < |keys| && m[keys[i]].isDynamicEntry && IsRoute(keys[i]);
    if k :| Route(m, k) {
      assert k in keys;
    }
    if ok {
      var i :| 0 <= i < |keys| && m[keys[i]].isDynamicEntry && IsRoute(keys[i]);
      assert keys[i] in keys && Route(m, keys[i]);
    }
  }

  lemma FirstScreenMeans(m: Manifest, entry: string, entryJs: seq<string>, size: string -> nat, total: nat)
    requires forall f :: f in entryJs <==> Needs(m, entry, f)
    requires forall got :: Distinct(got) && (forall f :: f in got <==> f in entryJs || Needs(m, OVERVIEW, f)) ==>
      Bytes(got, size) == total
    ensures total <= FIRST_SCREEN_JS <==> FirstScreenFits(m, entry, size)
  {
    hide Needs;
    var all := SetHasList(Needed(m, entry) + Needed(m, OVERVIEW));
    assert forall f :: f in all <==> Needs(m, entry, f) || Needs(m, OVERVIEW, f);
    forall got | Distinct(got) && (forall f :: f in got <==> Needs(m, entry, f) || Needs(m, OVERVIEW, f))
      ensures Bytes(got, size) == total
    {
      assert forall f :: f in got <==> f in entryJs || Needs(m, OVERVIEW, f);
    }
  }

  lemma RoutesMean(m: Manifest, entry: string, size: string -> nat)
    ensures RoutesFit(m, entry, size) ==> NavigationFits(m, entry, size)
    ensures CountsOnce(m, entry) && NavigationFits(m, entry, size) ==> RoutesFit(m, entry, size)
  {
    hide IsRoute, Needs, Within, ChargedWithin, CountedOnce;
    NavigationBudget(m, Needed(m, entry), size, NAV_JS);
    forall k | Route(m, k)
      ensures ChargedWithin(m, k, Needed(m, entry), size, NAV_JS) ==> Within(m, k, Needed(m, entry), size, NAV_JS)
      ensures CountedOnce(m, k, Needed(m, entry)) && Within(m, k, Needed(m, entry), size, NAV_JS) ==>
        ChargedWithin(m, k, Needed(m, entry), size, NAV_JS)
    {
      ChargedCovers(m, k, Needed(m, entry), size, NAV_JS);
    }
  }

  lemma EditorMeans(m: Manifest, entry: string, entryJs: seq<string>, modules: Modules, bad: seq<Complaint>)
    requires forall f :: f in entryJs <==> Needs(m, entry, f)
    requires forall f :: EditorInEntry(f) in bad <==> f in entryJs && EditorFile(modules, f)
    requires NoEditor in bad <==> forall f :: !EditorFile(modules, f)
    requires NoSopPage in bad <==> SOP !in m
    requires SOP in m ==> forall f ::
      && (ReachedWithoutSop(f) in bad <==> EditorFile(modules, f) && SomeChunk(m, {SOP}, entry, f))
      && (NotReachedFromSop(f) in bad <==>
        EditorFile(modules, f) && !SomeChunk(m, {SOP}, entry, f) && !SomeChunk(m, {""}, SOP, f))
    ensures bad == [] <==> EditorBehindPage(m, entry, modules, {""})
  {
    hide SOP, SomeChunk, Needs, EditorFile, OnlyAfter;
    forall f ensures !SomeChunk(m, {SOP}, entry, f) <==> OnlyAfter(m, entry, SOP, f) {
      EditorOnlyThroughSop(m, entry, f);
    }
    if bad != [] {
      var c := bad[0];
      assert c in bad && (c.EditorInEntry? ==> c == EditorInEntry(c.file));
      assert c.ReachedWithoutSop? ==> c == ReachedWithoutSop(c.file);
      assert c.NotReachedFromSop? ==> c == NotReachedFromSop(c.file);
    }
  }

  /** All checks of the split together. */
  method CheckSplit(m: Manifest, keys: seq<string>, modules: Modules, moduleFiles: seq<string>, html: seq<string>,
                    size: string -> nat)
    returns (ok: bool)
    requires Lists(keys, m)
    requires forall f :: f in moduleFiles <==> f in modules
    ensures ok <==> exists entry :: Passes(m, entry, modules, html, size)
  {
    hide *;
    var entries := Entries(m, keys);
    OneEntry(m, entries);
    if |entries| != 1 {
      PassingNeedsEntry(m, modules, html, size);
      return false;
    }
    var entry := entries[0];
    var entryJs, _ := JsOf(m, entry);
    var known := HasModules(m, keys, modules);
    var clean := CheckEntry(m, entry, entryJs, modules, html);
    var total, fits := CheckFirstScreen(m, entryJs, size);
    FirstScreenMeans(m, entry, entryJs, size, total);
    var some := HasRoute(m, keys);
    var over, _, _ := CheckRoutes(m, keys, entryJs, size);
    NoneOver(m, entry, entryJs, size, over);
    var bad := CheckEditor(m, entries, entryJs, modules, moduleFiles);
    EditorMeans(m, entry, entryJs, modules, bad);
    ok := known && clean && OVERVIEW in m && fits && some && over == [] && bad == [];
    PassingMeans(m, entry, modules, html, size);
  }

  lemma PassingNeedsEntry(m: Manifest, modules: Modules, html: seq<string>, size: string -> nat)
    ensures (exists entry :: Passes(m, entry, modules, html, size)) ==> exists entry :: OnlyEntry(m, entry)
  {
  }

  lemma PassingMeans(m: Manifest, entry: string, modules: Modules, html: seq<string>, size: string -> nat)
    requires OnlyEntry(m, entry)
    ensures (exists e :: Passes(m, e, modules, html, size)) <==>
      && ModulesKnown(m, modules) && EntryIsClean(m, entry, modules, html)
      && OVERVIEW in m && FirstScreenFits(m, entry, size)
      && (exists k :: Route(m, k)) && RoutesFit(m, entry, size) && EditorBehindPage(m, entry, modules, {""})
  {
    hide ModulesKnown, EntryIsClean, OVERVIEW, FirstScreenFits, Route, RoutesFit, EditorBehindPage;
    forall e | Passes(m, e, modules, html, size) ensures e == entry {
      assert OnlyEntry(m, e) && m[e].isEntry;
    }
    assert (exists e :: Passes(m, e, modules, html, size)) <==> Passes(m, entry, modules, html, size);
  }

  lemma NoneOver(m: Manifest, entry: string, entryJs: seq<string>, size: string -> nat, over: seq<string>)
    requires forall f :: f in entryJs <==> Needs(m, entry, f)
    requires forall k :: k in over <==> Route(m, k) && !ChargedWithin(m, k, Elements(entryJs), size, NAV_JS)
    ensures over == [] <==> RoutesFit(m, entry, size)
  {
    hide Route, Needs, ChargedWithin;
    assert Elements(entryJs) == Needed(m, entry);
    if over != [] {
      assert over[0] in over;
    }
  }

  /** What the checks accept keeps every promise of the split. */
  lemma PassesIsSafe(m: Manifest, entry: string, modules: Modules, html: seq<string>, size: string -> nat)
    ensures Passes(m, entry, modules, html, size) ==> Safe(m, entry, modules, html, size)
    ensures CountsOnce(m, entry) && PageRefers(m, modules) && Safe(m, entry, modules, html, size) ==>
      Passes(m, entry, modules, html, size)
  {
    hide Fits, NavigationFits, RoutesFit, CountsOnce, SOP, EditorFile, Needs, OnlyAfter, SomeChunk;
    RoutesMean(m, entry, size);
    forall f ensures SomeChunk(m, {""}, SOP, f) ==> SomeChunk(m, {}, SOP, f) {
      SkipsNothing(m, SOP, f);
    }
  }

  // ---------- good builds that are refused ----------

  /** One file of 200000 bytes and no others. */
  function OneFile(file: string): string -> nat { (f: string) => if f == file then 200_000 else 0 }

  lemma {:induction false} OneFileBytes(files: seq<string>, file: string)
    requires Distinct(files)
    ensures Bytes(files, OneFile(file)) <= if file in files then 200_000 else 0
  {
    if files != [] {
      assert forall i, j ::
        0 <= i < j < |files[1..]| ==> files[1..][i] == files[i + 1] && files[1..][j] == files[j + 1];
      OneFileBytes(files[1..], file);
      assert files == [files[0]] + files[1..];
    }
  }

  /** With only one file of any size a build that is otherwise well split keeps its promises. */
  lemma OneFileIsSafe(m: Manifest, entry: string, modules: Modules, html: seq<string>, file: string)
    requires WellSplit(m, entry, modules, html)
    ensures Safe(m, entry, modules, html, OneFile(file))
  {
    hide Needs, EntryIsClean, ModulesKnown, EditorIsConfined, Route, OneFile;
    var size := OneFile(file);
    forall got | Distinct(got) ensures Bytes(got, size) <= 200_000 {
      OneFileBytes(got, file);
    }
    assert FirstScreenFits(m, entry, size);
    forall k | Route(m, k) ensures Within(m, k, Needed(m, entry), size, NAV_JS) {
    }
    NavigationBudget(m, Needed(m, entry), size, NAV_JS);
  }

  /** Two chunks with that file are charged for twice. */
  lemma SharedIsCharged(m: Manifest, key: string, loaded: set<string>, j: string, k: string)
    requires Charged(m, key, loaded, j) && Charged(m, key, loaded, k) && m[j].file == m[k].file && j != k
    ensures !ChargedWithin(m, key, loaded, OneFile(m[j].file), NAV_JS)
  {
    hide Reachable;
    var size := OneFile(m[j].file);
    var keys := ChargeExists(m, key, loaded);
    FewerBytes([j, k], keys, ChunkBytes(m, size));
    assert [j, k][1..] == [k] && [k][1..] == [];
    assert Bytes([k], ChunkBytes(m, size)) == 200_000;
    assert Bytes([j, k], ChunkBytes(m, size)) == 400_000;
  }

  /**
   * A split that keeps its promises is accepted whatever the sizes of its files if and only if no route adds up two
   * chunks with the same file and the page refers to the editor without a chunk that has the empty key.
   */
  lemma RefusalExact(m: Manifest, entry: string, modules: Modules, html: seq<string>)
    requires WellSplit(m, entry, modules, html)
    ensures (forall size :: Safe(m, entry, modules, html, size) ==> Passes(m, entry, modules, html, size))
        <==> CountsOnce(m, entry) && PageRefers(m, modules)
  {
    hide Safe, WellSplit, Fits, EditorFile, SomeChunk, Needs, ChargedWithin, Reachable;
    if CountsOnce(m, entry) && PageRefers(m, modules) {
      forall size | Safe(m, entry, modules, html, size) ensures Passes(m, entry, modules, html, size) {
        PassesIsSafe(m, entry, modules, html, size);
      }
    } else if !CountsOnce(m, entry) {
      var r :| Route(m, r) && !CountedOnce(m, r, Needed(m, entry));
      var j, k :| Charged(m, r, Needed(m, entry), j) && Charged(m, r, Needed(m, entry), k)
        && m[j].file == m[k].file && j != k;
      OneFileIsSafe(m, entry, modules, html, m[j].file);
      SharedIsCharged(m, r, Needed(m, entry), j, k);
      assert !Passes(m, entry, modules, html, OneFile(m[j].file));
    } else {
      OneFileIsSafe(m, entry, modules, html, "");
      assert !Passes(m, entry, modules, html, OneFile(""));
    }
  }

  // ---------- one of them ----------

  const TAIL := ".lazy.tsx"
  const ROUTE := "src/pages/" + "a" + TAIL

  /** A route's chunk and the one it imports have the same file; the editor is part of its page. */
  const BUILD: Manifest := map[
    "index.html" := Chunk("e.js", true, false, [], [OVERVIEW, ROUTE, SOP]),
    OVERVIEW := Chunk("o.js", false, true, [], []),
    ROUTE := Chunk("a.js", false, true, ["shared"], []),
    "shared" := Chunk("a.js", false, false, [], []),
    SOP := Chunk("s.js", false, true, [], [])]

  const MODULES: Modules := map["e.js" := [], "o.js" := [], "a.js" := [], "s.js" := ["node_modules/@codemirror/"]]

  lemma NothingFollows(m: Manifest, edges: Edges, key: string, k: string)
    requires key in m && Successors(m, edges, key) == [] && Reachable(m, edges, {}, key, k)
    ensures k == key
  {
    var p :| Connects(m, edges, {}, p, key, k);
    if |p| > 1 {
      SecondStep(m, edges, {}, p);
    }
  }

  lemma SecondStep(m: Manifest, edges: Edges, skip: set<string>, p: seq<string>)
    requires Path(m, edges, skip, p) && |p| > 1
    ensures p[1] in Successors(m, edges, p[0])
  {
    assert p[0 + 1] in Successors(m, edges, p[0]);
  }

  lemma NamedIsRoute(name: string, tail: string)
    requires name != "" && '/' !in name && '/' !in tail && tail == ".lazy.tsx"
    ensures IsRoute("src/pages/" + name + tail)
  {
    var key, dir := "src/pages/" + name + tail, "src/pages/";
    assert key[|dir|..] == name + tail && key[|key| - |tail|..] == tail;
    assert InDirectory(key, dir);
  }

  lemma NeedleIsFound(id: string)
    requires id == "node_modules/@codemirror/"
    ensures IsCodemirror(id)
  {
    assert Text.MatchesAt(id, "node_modules/@codemirror/", 0);
  }

  lemma BuildNames()
    ensures IsRoute(ROUTE) && IsCodemirror(MODULES["s.js"][0]) && IsJs("a.js")
    ensures OVERVIEW !in {SOP, ROUTE, "index.html", "shared"} && SOP !in {ROUTE, "index.html", "shared"}
    ensures ROUTE !in {"index.html", "shared"}
  {
    hide IsRoute, IsCodemirror;
    NamedIsRoute("a", TAIL);
    NeedleIsFound(MODULES["s.js"][0]);
    assert |OVERVIEW| == 27 && |SOP| == 22 && |ROUTE| == 20 && |"index.html"| == 10 && |"shared"| == 6;
    assert "a.js"[1..] == ".js";
  }

  lemma BuildEditor(f: string)
    ensures EditorFile(MODULES, f) <==> f == "s.js"
  {
    hide IsRoute, IsCodemirror, ROUTE, OVERVIEW, SOP, IsJs;
    BuildNames();
    assert HoldsEditor(MODULES["s.js"]);
  }

  lemma BuildIsConfined()
    ensures EditorIsConfined(BUILD, "index.html", MODULES)
  {
    hide IsRoute, ROUTE, OVERVIEW, SOP, Reachable, IsJs, EditorFile, MODULES;
    BuildNames();
    BuildEditor("s.js");
    forall f | EditorFile(MODULES, f) ensures f == "s.js" {
      BuildEditor(f);
    }
    if Needs(BUILD, "index.html", "s.js") {
      NothingFollows(BUILD, Static, "index.html", SOP);
    }
    forall order | BringsIn(BUILD, "index.html", order, "s.js") ensures SOP in order {
      assert order[|order| - 1] in order;
    }
    ReachesItself(BUILD, All, {}, SOP);
    assert SomeChunk(BUILD, {}, SOP, "s.js");
  }

  lemma BuildIsWellSplit()
    ensures WellSplit(BUILD, "index.html", MODULES, [])
  {
    hide IsRoute, IsCodemirror, ROUTE, OVERVIEW, SOP, Reachable, EditorIsConfined;
    BuildNames();
    BuildIsConfined();
    forall k | Reachable(BUILD, Static, {}, "index.html", k) ensures k == "index.html" {
      NothingFollows(BUILD, Static, "index.html", k);
    }
    assert Route(BUILD, ROUTE);
  }

  /** For some sizes of its files this build keeps every promise and is refused. */
  lemma GoodBuildIsRefused()
    ensures exists size ::
      Safe(BUILD, "index.html", MODULES, [], size) && !Passes(BUILD, "index.html", MODULES, [], size)
  {
    hide IsRoute, IsCodemirror, Reachable, WellSplit, Safe, Passes;
    BuildNames();
    BuildIsWellSplit();
    var loaded := Needed(BUILD, "index.html");
    ReachesItself(BUILD, Static, {}, ROUTE);
    ReachesItself(BUILD, Static, {}, "shared");
    OneStepBefore(BUILD, Static, {}, ROUTE, "shared", "shared");
    forall k | Reachable(BUILD, Static, {}, "index.html", k) ensures k == "index.html" {
      NothingFollows(BUILD, Static, "index.html", k);
    }
    assert Charged(BUILD, ROUTE, loaded, ROUTE) && Charged(BUILD, ROUTE, loaded, "shared");
    assert Route(BUILD, ROUTE) && !CountedOnce(BUILD, ROUTE, loaded);
    RefusalExact(BUILD, "index.html", MODULES, []);
  }
}
