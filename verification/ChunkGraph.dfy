/** The chunks of a build and what loading one of them can download. */
module ChunkGraph {
  import opened Sequences

  datatype Chunk = Chunk(file: string, isEntry: bool, isDynamicEntry: bool, imports: seq<string>,
    dynamicImports: seq<string>)

  type Manifest = map<string, Chunk>

  /** Which references are followed: static imports only, or dynamic ones as well. */
  datatype Edges = Static | All

  function Successors(m: Manifest, edges: Edges, key: string): seq<string>
    requires key in m
  {
    m[key].imports + if edges == All then m[key].dynamicImports else []
  }

  // ---------- paths ----------

  predicate Open(m: Manifest, skip: set<string>, key: string) { key in m && key !in skip }

  /** A path of references through chunks of the manifest that avoids the skipped ones. */
  ghost predicate Path(m: Manifest, edges: Edges, skip: set<string>, p: seq<string>) {
    && p != []
    && (forall i :: 0 <= i < |p| ==> Open(m, skip, p[i]))
    && (forall i :: 0 <= i < |p| - 1 ==> p[i + 1] in Successors(m, edges, p[i]))
  }

  ghost predicate Connects(m: Manifest, edges: Edges, skip: set<string>, p: seq<string>, from: string, k: string) {
    Path(m, edges, skip, p) && p[0] == from && p[|p| - 1] == k
  }

  ghost predicate Reachable(m: Manifest, edges: Edges, skip: set<string>, from: string, k: string) {
    exists p :: Connects(m, edges, skip, p, from, k)
  }

  lemma ReachesItself(m: Manifest, edges: Edges, skip: set<string>, key: string)
    requires Open(m, skip, key)
    ensures Reachable(m, edges, skip, key, key)
  {
    assert Connects(m, edges, skip, [key], key, key);
  }

  lemma OneStepBefore(m: Manifest, edges: Edges, skip: set<string>, key: string, next: string, k: string)
    requires Open(m, skip, key) && next in Successors(m, edges, key) && Reachable(m, edges, skip, next, k)
    ensures Reachable(m, edges, skip, key, k)
  {
    var p :| Connects(m, edges, skip, p, next, k);
    var q := [key] + p;
    forall i | 0 <= i < |q| - 1 ensures q[i + 1] in Successors(m, edges, q[i]) {
      if i > 0 {
        assert p[i - 1 + 1] in Successors(m, edges, p[i - 1]);
      }
    }
    assert Connects(m, edges, skip, q, key, k);
  }

  // ---------- the walk with a shared set ----------

  function Elements(keys: seq<string>): set<string> { set k | k in keys }

  /** The host language's set: it remembers the order of insertion. */
  class KeySet {
    var keys: seq<string>

    constructor ()
      ensures keys == []
    {
      keys := [];
    }

    method Add(key: string)
      modifies this
      ensures keys == if key in old(keys) then old(keys) else old(keys) + [key]
    {
      if key !in keys {
        keys := keys + [key];
      }
    }
  }

  /** List seen extends list before by chunks reachable from key, and every reference of a new chunk leads into seen. */
  ghost predicate Grown(m: Manifest, edges: Edges, skip: set<string>, key: string, before: seq<string>,
                        seen: seq<string>) {
    && before <= seen
    && Distinct(seen)
    && (forall k :: k in seen && k !in before ==> Open(m, skip, k) && Reachable(m, edges, skip, key, k))
    && (forall k :: k in seen && k !in before ==> LeadsInto(m, edges, skip, k, seen))
  }

  ghost predicate LeadsInto(m: Manifest, edges: Edges, skip: set<string>, k: string, seen: seq<string>) {
    k in m ==> forall j :: j in Successors(m, edges, k) && Open(m, skip, j) ==> j in seen
  }

  /** As Grown, with only the first i references of key followed so far. */
  ghost predicate Growing(m: Manifest, edges: Edges, skip: set<string>, key: string, before: seq<string>,
                          seen: seq<string>, i: nat)
    requires key in m && i <= |Successors(m, edges, key)|
  {
    && before <= seen
    && Distinct(seen)
    && key in seen
    && (forall k :: k in seen && k !in before ==> Open(m, skip, k) && Reachable(m, edges, skip, key, k))
    && (forall k :: k in seen && k !in before && k != key ==> LeadsInto(m, edges, skip, k, seen))
    && (forall j :: 0 <= j < i && Open(m, skip, Successors(m, edges, key)[j]) ==> Successors(m, edges, key)[j] in seen)
  }

  lemma GrowthStarts(m: Manifest, edges: Edges, skip: set<string>, key: string, before: seq<string>)
    requires Open(m, skip, key) && key !in before && Distinct(before)
    ensures Growing(m, edges, skip, key, before, before + [key], 0)
  {
    ReachesItself(m, edges, skip, key);
  }

  lemma GrowthGoesOn(m: Manifest, edges: Edges, skip: set<string>, key: string, before: seq<string>, mid: seq<string>,
                     seen: seq<string>, i: nat)
    requires Open(m, skip, key) && i < |Successors(m, edges, key)|
    requires Growing(m, edges, skip, key, before, mid, i)
    requires Grown(m, edges, skip, Successors(m, edges, key)[i], mid, seen)
    requires Open(m, skip, Successors(m, edges, key)[i]) ==> Successors(m, edges, key)[i] in seen
    ensures Growing(m, edges, skip, key, before, seen, i + 1)
  {
    hide Reachable, Successors;
    var next := Successors(m, edges, key)[i];
    forall k | k in seen && k !in before ensures Open(m, skip, k) && Reachable(m, edges, skip, key, k) {
      if k !in mid {
        OneStepBefore(m, edges, skip, key, next, k);
      }
    }
    forall k | k in seen && k !in before && k != key ensures LeadsInto(m, edges, skip, k, seen) {
      if k in mid {
        assert LeadsInto(m, edges, skip, k, mid);
      }
    }
  }

  lemma GrowthKeeps(m: Manifest, edges: Edges, skip: set<string>, key: string, before: seq<string>, seen: seq<string>,
                    i: nat)
    requires key in m && i <= |Successors(m, edges, key)| && Growing(m, edges, skip, key, before, seen, i)
    ensures before <= seen && Distinct(seen) && key in seen
  {
  }

  lemma GrowthEnds(m: Manifest, edges: Edges, skip: set<string>, key: string, before: seq<string>, seen: seq<string>)
    requires key in m && Growing(m, edges, skip, key, before, seen, |Successors(m, edges, key)|)
    ensures Grown(m, edges, skip, key, before, seen) && key in seen
  {
    hide Reachable, Successors;
  }

  lemma FewerLeft(m: Manifest, before: seq<string>, seen: seq<string>, key: string)
    requires before <= seen && key in m && key !in before && key in seen
    ensures m.Keys - Elements(seen) < m.Keys - Elements(before)
  {
    assert key in m.Keys - Elements(before) && key !in m.Keys - Elements(seen);
  }

  /** Adds to the set what is reachable from key without passing through what the set already held. */
  method Walk(m: Manifest, edges: Edges, skip: set<string>, key: string, seen: KeySet)
    requires Distinct(seen.keys)
    modifies seen
    ensures Grown(m, edges, skip, key, old(seen.keys), seen.keys)
    ensures Open(m, skip, key) ==> key in seen.keys
    decreases m.Keys - Elements(seen.keys)
  {
    hide Reachable, Successors, Elements, LeadsInto, Growing;
    if key in seen.keys || key in skip || key !in m {
      return;
    }
    ghost var before := seen.keys;
    seen.Add(key);
    GrowthStarts(m, edges, skip, key, before);
    var next := Successors(m, edges, key);
    for i := 0 to |next|
      invariant Growing(m, edges, skip, key, before, seen.keys, i)
    {
      ghost var mid := seen.keys;
      GrowthKeeps(m, edges, skip, key, before, mid, i);
      FewerLeft(m, before, mid, key);
      Walk(m, edges, skip, next[i], seen);
      GrowthGoesOn(m, edges, skip, key, before, mid, seen.keys, i);
    }
    GrowthEnds(m, edges, skip, key, before, seen.keys);
  }

  lemma {:induction false} ClosedHoldsPath(m: Manifest, edges: Edges, skip: set<string>, seen: seq<string>,
                                           p: seq<string>, i: nat)
    requires Path(m, edges, skip, p) && p[0] in seen && i < |p|
    requires forall k :: k in seen ==> LeadsInto(m, edges, skip, k, seen)
    ensures p[i] in seen
  {
    if i > 0 {
      ClosedHoldsPath(m, edges, skip, seen, p, i - 1);
      assert LeadsInto(m, edges, skip, p[i - 1], seen) && p[i - 1 + 1] in Successors(m, edges, p[i - 1]);
    }
  }

  /** From an empty set, the walk collects exactly the chunks reachable without entering a skipped one. */
  method Collect(m: Manifest, edges: Edges, skip: set<string>, key: string) returns (keys: seq<string>)
    ensures Distinct(keys) && forall k :: k in keys <==> Reachable(m, edges, skip, key, k)
    ensures forall i :: 0 <= i < |keys| ==> keys[i] in m && keys[i] !in skip
  {
    var seen := new KeySet();
    Walk(m, edges, skip, key, seen);
    keys := seen.keys;
    assert forall i :: 0 <= i < |keys| ==> keys[i] in keys && Open(m, skip, keys[i]);
    forall k | Reachable(m, edges, skip, key, k) ensures k in keys {
      var p :| Connects(m, edges, skip, p, key, k);
      ClosedHoldsPath(m, edges, skip, keys, p, |p| - 1);
    }
  }
}
