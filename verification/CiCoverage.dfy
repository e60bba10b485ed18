/** The coverage checker accepts exactly the partitions of the canonical units. */
module CiCoverage {
  import opened Sequences
  import opened Sorting
  import opened CiUnits
  import opened CiAllocate

  datatype Verdict =
    | Accepted | WrongCount | BadScripts(reason: Reason) | WrongCommands | WrongUnits | WrongStrictSuites

  /** A unit without its estimate, which coverage does not look at. */
  function Skeleton(u: Unit): Unit { u.(seconds := 0.0) }

  function Skeletons(units: seq<Unit>): seq<Unit> {
    seq(|units|, i requires 0 <= i < |units| => Skeleton(units[i]))
  }

  function FlatMap<A, B>(xs: seq<A>, f: A -> seq<B>): seq<B> {
    if xs == [] then [] else FlatMap(xs[..|xs| - 1], f) + f(xs[|xs| - 1])
  }

  function CommandsOf(u: Unit): seq<string> { u.commands }

  /** The suite a unit reruns; an empty name counts as none. */
  function SuiteOf(u: Unit): seq<string> {
    if u.strictSuite.Suite? && u.strictSuite.name != "" then [u.strictSuite.name] else []
  }

  /** What acceptance means: estimates aside, the shards together are the canonical units, each once. */
  ghost predicate Covers(scripts: Scripts, suites: seq<string>, shards: seq<seq<Unit>>, count: int) {
    var canonical := UnitsOf(scripts, suites, map[]);
    && |shards| == count
    && canonical.Units?
    && "" !in suites
    && multiset(Skeletons(Flatten(shards))) == multiset(Skeletons(canonical.units))
  }

  // ---------- sequences as bags ----------

  lemma {:induction false} FlatMapConcat<A, B>(xs: seq<A>, ys: seq<A>, f: A -> seq<B>)
    ensures FlatMap(xs + ys, f) == FlatMap(xs, f) + FlatMap(ys, f)
  {
    if ys == [] {
      assert xs + ys == xs;
    } else {
      var front := ys[..|ys| - 1];
      FlatMapConcat(xs, front, f);
      assert (xs + ys)[..|xs + ys| - 1] == xs + front;
      Concat(FlatMap(xs, f), FlatMap(front, f), f(ys[|ys| - 1]));
    }
  }

  lemma FlatMapOne<A, B>(x: A, f: A -> seq<B>)
    ensures FlatMap([x], f) == f(x)
  {
    assert [x][..0] == [];
  }

  lemma FlatMapWithout<A, B>(xs: seq<A>, k: nat, f: A -> seq<B>)
    requires k < |xs|
    ensures multiset(FlatMap(xs, f)) == multiset(FlatMap(Without(xs, k), f)) + multiset(f(xs[k]))
  {
    hide *;
    Around(xs, k);
    FlatMapConcat(xs[..k], [xs[k]] + xs[k + 1..], f);
    FlatMapConcat([xs[k]], xs[k + 1..], f);
    FlatMapOne(xs[k], f);
    FlatMapConcat(xs[..k], xs[k + 1..], f);
  }

  lemma {:induction false} FlatMapPermutes<A, B>(xs: seq<A>, ys: seq<A>, f: A -> seq<B>)
    requires multiset(xs) == multiset(ys)
    ensures multiset(FlatMap(xs, f)) == multiset(FlatMap(ys, f))
    decreases |xs|
  {
    if xs == [] {
      assert |multiset(ys)| == 0;
    } else {
      assert |Without(xs, 0)| < |xs|;
      hide *;
      WithoutOne(xs, 0);
      var k := Occurs(xs[0], ys);
      FlatMapWithout(xs, 0, f);
      FlatMapWithout(ys, k, f);
      FlatMapPermutes(Without(xs, 0), Without(ys, k), f);
    }
  }

  lemma {:induction false} FlatMapSkeletons<B>(units: seq<Unit>, f: Unit -> seq<B>)
    requires forall u :: f(Skeleton(u)) == f(u)
    ensures FlatMap(Skeletons(units), f) == FlatMap(units, f)
  {
    if units != [] {
      FlatMapSkeletons(units[..|units| - 1], f);
      assert Skeletons(units)[..|units| - 1] == Skeletons(units[..|units| - 1]);
    }
  }

  /** Units with distinct ids taken from a list of as many such units are that list, rearranged. */
  lemma DistinctSubset(xs: seq<Unit>, ys: seq<Unit>)
    requires Distinct(xs) && |xs| == |ys|
    requires forall x :: x in xs ==> x in ys
    ensures multiset(xs) == multiset(ys)
  {
    forall x ensures multiset(xs)[x] <= multiset(ys)[x] {
      DistinctOnce(xs, x);
      if x in multiset(xs) {
        assert x in ys;
      }
    }
    assert multiset(xs) <= multiset(ys);
    assert |multiset(ys) - multiset(xs)| == 0;
    assert multiset(ys) == (multiset(ys) - multiset(xs)) + multiset(xs);
  }

  // ---------- units and commands ----------

  /** Every build from index on is followed by the check of its output. */
  ghost predicate Paired(commands: seq<string>, index: nat) {
    forall i :: index <= i < |commands| && commands[i] == BUILD ==> i + 1 < |commands| && commands[i + 1] == CHECK_DIST
  }

  lemma {:induction false} StrictCommands(suites: seq<string>, weights: Weights)
    ensures FlatMap(StrictUnits(suites, weights), CommandsOf)
         == seq(|suites|, i requires 0 <= i < |suites| => StrictCommand(suites[i]))
  {
    if suites != [] {
      var n := |suites| - 1;
      StrictCommands(suites[..n], weights);
      assert StrictUnits(suites, weights)[..n] == StrictUnits(suites[..n], weights);
    }
  }

  /** The commands of a group are the ones it stands for in the chain. */
  lemma GroupRuns(commands: seq<string>, index: nat, suites: seq<string>, weights: Weights)
    requires index < |commands| && Paired(commands, index)
    ensures FlatMap(Group(commands[index], suites, weights), CommandsOf)
         + Expand(commands[Next(commands, index)..], suites)
         == Expand(commands[index..], suites)
  {
    hide STRICT, BUILD, CHECK_DIST;
    NamesDiffer();
    assert commands[index..][1..] == commands[index + 1..];
    if commands[index] == STRICT {
      StrictCommands(suites, weights);
    } else if commands[index] == BUILD {
      assert commands[index + 1..][1..] == commands[index + 2..];
      FlatMapOne(DependencyUnit(weights), CommandsOf);
    } else {
      FlatMapOne(PlainUnit(commands[index], weights), CommandsOf);
    }
  }

  /** Grouping loses no command and adds none. */
  lemma {:induction false} UnitsRunEverything(commands: seq<string>, index: nat, suites: seq<string>, weights: Weights)
    requires index <= |commands| && Paired(commands, index)
    ensures FlatMap(UnitsFrom(commands, index, suites, weights), CommandsOf) == Expand(commands[index..], suites)
    decreases |commands| - index
  {
    hide STRICT, BUILD, CHECK_DIST;
    NamesDiffer();
    if index < |commands| {
      var next := Next(commands, index);
      UnitsRunEverything(commands, next, suites, weights);
      GroupRuns(commands, index, suites, weights);
      FlatMapConcat(Group(commands[index], suites, weights), UnitsFrom(commands, next, suites, weights), CommandsOf);
    }
  }

  lemma DependencyPairs(commands: seq<string>)
    requires DependencyInPlace(commands) && multiset(commands)[BUILD] == 1
    ensures Paired(commands, 0)
  {
    hide STRICT, BUILD, CHECK_DIST;
    NamesDiffer();
    var start := FirstIndex(commands, BUILD);
    forall i | 0 <= i < |commands| && commands[i] == BUILD ensures i == start {
      if start < i {
        TwiceIn(commands, start, i);
      }
    }
  }

  // ---------- strict suites ----------

  function NonEmpty(suites: seq<string>): seq<string> {
    if suites == [] then []
    else NonEmpty(suites[..|suites| - 1]) + if suites[|suites| - 1] != "" then [suites[|suites| - 1]] else []
  }

  lemma {:induction false} NonEmptySuites(suites: seq<string>)
    ensures |NonEmpty(suites)| <= |suites|
    ensures |NonEmpty(suites)| == |suites| <==> "" !in suites
    ensures "" !in suites ==> NonEmpty(suites) == suites
  {
    if suites != [] {
      var n := |suites| - 1;
      NonEmptySuites(suites[..n]);
      assert suites == suites[..n] + [suites[n]];
    }
  }

  lemma {:induction false} StrictUnitSuites(suites: seq<string>, weights: Weights)
    ensures FlatMap(StrictUnits(suites, weights), SuiteOf) == NonEmpty(suites)
  {
    if suites != [] {
      var n := |suites| - 1;
      StrictUnitSuites(suites[..n], weights);
      assert StrictUnits(suites, weights)[..n] == StrictUnits(suites[..n], weights);
    }
  }

  lemma GroupSuites(command: string, suites: seq<string>, weights: Weights)
    ensures FlatMap(Group(command, suites, weights), SuiteOf) == if command == STRICT then NonEmpty(suites) else []
  {
    hide STRICT, BUILD, CHECK_DIST;
    NamesDiffer();
    if command == STRICT {
      StrictUnitSuites(suites, weights);
    } else if command == BUILD {
      FlatMapOne(DependencyUnit(weights), SuiteOf);
    } else {
      FlatMapOne(PlainUnit(command, weights), SuiteOf);
    }
  }

  /** at is where the strict entry point stands in the chain. */
  ghost predicate OnlyStrict(commands: seq<string>, at: nat) {
    at < |commands| && forall i :: 0 <= i < |commands| ==> (commands[i] == STRICT <==> i == at)
  }

  lemma OnlyOne(commands: seq<string>) returns (at: nat)
    requires multiset(commands)[STRICT] == 1
    ensures OnlyStrict(commands, at)
  {
    hide STRICT, BUILD, CHECK_DIST;
    NamesDiffer();
    at := Occurs(STRICT, commands);
    forall i | 0 <= i < |commands| && commands[i] == STRICT ensures i == at {
      if i < at {
        TwiceIn(commands, i, at);
      } else if at < i {
        TwiceIn(commands, at, i);
      }
    }
  }

  lemma NextKeeps(commands: seq<string>, index: nat, at: nat)
    requires index < |commands| && Paired(commands, index) && OnlyStrict(commands, at)
    ensures index < at ==> Next(commands, index) <= at
  {
    hide STRICT, BUILD, CHECK_DIST;
    NamesDiffer();
    if commands[index] == BUILD {
      assert commands[index + 1] != STRICT;
    }
  }

  lemma UnitsStep(commands: seq<string>, index: nat, suites: seq<string>, weights: Weights)
    requires index < |commands|
    ensures UnitsFrom(commands, index, suites, weights)
         == Group(commands[index], suites, weights) + UnitsFrom(commands, Next(commands, index), suites, weights)
  {
  }

  lemma PairedNext(commands: seq<string>, index: nat)
    requires index < |commands| && Paired(commands, index)
    ensures Paired(commands, Next(commands, index))
  {
  }

  /** The strict units appear where the strict entry point stands in the chain, and nowhere else. */
  lemma {:induction false} ChainSuites(commands: seq<string>, index: nat, at: nat, suites: seq<string>,
                                       weights: Weights)
    requires index <= |commands| && Paired(commands, index) && OnlyStrict(commands, at)
    ensures FlatMap(UnitsFrom(commands, index, suites, weights), SuiteOf)
         == if index <= at then NonEmpty(suites) else []
    decreases |commands| - index
  {
    hide STRICT, BUILD, CHECK_DIST;
    NamesDiffer();
    if index < |commands| {
      var next := Next(commands, index);
      UnitsStep(commands, index, suites, weights);
      PairedNext(commands, index);
      NextKeeps(commands, index, at);
      assert commands[index] == STRICT <==> index == at;
      hide *;
      ChainSuites(commands, next, at, suites, weights);
      GroupSuites(commands[index], suites, weights);
      FlatMapConcat(Group(commands[index], suites, weights), UnitsFrom(commands, next, suites, weights), SuiteOf);
    }
  }

  /** The strict units occur as one run. */
  lemma {:induction false} StrictRun(commands: seq<string>, index: nat, at: nat, suites: seq<string>, weights: Weights)
    returns (before: seq<Unit>, after: seq<Unit>)
    requires index <= at && Paired(commands, index) && OnlyStrict(commands, at)
    ensures UnitsFrom(commands, index, suites, weights) == before + StrictUnits(suites, weights) + after
    decreases |commands| - index
  {
    hide STRICT, BUILD, CHECK_DIST;
    NamesDiffer();
    var next := Next(commands, index);
    if index == at {
      before, after := [], UnitsFrom(commands, next, suites, weights);
    } else {
      NextKeeps(commands, index, at);
      before, after := StrictRun(commands, next, at, suites, weights);
      Concat(Group(commands[index], suites, weights), before, StrictUnits(suites, weights));
      Concat(Group(commands[index], suites, weights), before + StrictUnits(suites, weights), after);
      before := Group(commands[index], suites, weights) + before;
    }
  }

  lemma RunDistinct(units: seq<Unit>, before: seq<Unit>, suites: seq<string>, after: seq<Unit>, weights: Weights)
    requires units == before + StrictUnits(suites, weights) + after
    requires Distinct(Ids(units))
    ensures Distinct(suites)
  {
    forall i, j | 0 <= i < j < |suites| ensures suites[i] != suites[j] {
      assert units[|before| + i] == StrictUnits(suites, weights)[i];
      assert units[|before| + j] == StrictUnits(suites, weights)[j];
      assert Ids(units)[|before| + i] != Ids(units)[|before| + j];
    }
  }

  lemma SuitesDistinct(commands: seq<string>, at: nat, suites: seq<string>, weights: Weights)
    requires Paired(commands, 0) && OnlyStrict(commands, at)
    requires Distinct(Ids(UnitsFrom(commands, 0, suites, weights)))
    ensures Distinct(suites)
  {
    var before, after := StrictRun(commands, 0, at, suites, weights);
    RunDistinct(UnitsFrom(commands, 0, suites, weights), before, suites, after, weights);
  }

  // ---------- the three checks ----------

  method CountUp(expected: seq<string>) returns (remaining: map<string, nat>)
    ensures forall c :: Left(remaining, c) == multiset(expected)[c]
  {
    remaining := map[];
    for i := 0 to |expected|
      invariant forall c :: Left(remaining, c) == multiset(expected[..i])[c]
    {
      assert expected[..i + 1] == expected[..i] + [expected[i]];
      remaining := remaining[expected[i] := Left(remaining, expected[i]) + 1];
    }
    assert expected[..|expected|] == expected;
  }

  /** Counts the commands down; true when both lists are the same bag. */
  method SameCommands(expected: seq<string>, actual: seq<string>) returns (ok: bool)
    ensures ok <==> multiset(expected) == multiset(actual)
  {
    var remaining := CountUp(expected);
    for i := 0 to |actual|
      invariant forall c :: Left(remaining, c) + multiset(actual[..i])[c] == multiset(expected)[c]
    {
      assert actual[..i + 1] == actual[..i] + [actual[i]];
      var left := Left(remaining, actual[i]);
      if left == 0 {
        OneTooMany(expected, actual, i);
        return false;
      }
      remaining := remaining[actual[i] := left - 1];
    }
    assert actual[..|actual|] == actual;
    ok := forall c :: c in remaining ==> remaining[c] == 0;
    NothingLeft(expected, actual, remaining);
  }

  lemma OneTooMany(expected: seq<string>, actual: seq<string>, i: nat)
    requires i < |actual| && multiset(actual[..i])[actual[i]] == multiset(expected)[actual[i]]
    ensures multiset(expected) != multiset(actual)
  {
    assert actual == actual[..i] + [actual[i]] + actual[i + 1..];
    assert multiset(actual)[actual[i]] > multiset(expected)[actual[i]];
  }

  lemma NothingLeft(expected: seq<string>, actual: seq<string>, remaining: map<string, nat>)
    requires forall c :: Left(remaining, c) + multiset(actual)[c] == multiset(expected)[c]
    ensures (forall c :: c in remaining ==> remaining[c] == 0) <==> multiset(expected) == multiset(actual)
  {
    if forall c :: c in remaining ==> remaining[c] == 0 {
      assert forall c :: multiset(actual)[c] == multiset(expected)[c];
    } else {
      var c :| c in remaining && remaining[c] != 0;
      assert Left(remaining, c) > 0;
    }
  }

  function Left(remaining: map<string, nat>, command: string): nat {
    if command in remaining then remaining[command] else 0
  }

  function ById(units: seq<Unit>): map<string, Unit> {
    if units == [] then map[] else ById(units[..|units| - 1])[units[|units| - 1].id := units[|units| - 1]]
  }

  lemma {:induction false} ByIdFinds(units: seq<Unit>, id: string)
    ensures id in ById(units) ==> ById(units)[id] in units && ById(units)[id].id == id
    ensures id !in ById(units) ==> forall k :: 0 <= k < |units| ==> units[k].id != id
  {
    if units != [] {
      var n := |units| - 1;
      ByIdFinds(units[..n], id);
      assert units == units[..n] + [units[n]];
    }
  }

  lemma SameId(units: seq<Unit>, u: Unit, v: Unit)
    requires Distinct(Ids(units)) && u in units && v in units && u.id == v.id
    ensures u == v
  {
    var i :| 0 <= i < |units| && units[i] == u;
    var j :| 0 <= j < |units| && units[j] == v;
    assert Ids(units)[i] == Ids(units)[j];
  }

  lemma SkeletonsDistinct(units: seq<Unit>)
    requires Distinct(Ids(units))
    ensures Distinct(Skeletons(units))
  {
    forall i, j | 0 <= i < j < |units| ensures Skeletons(units)[i] != Skeletons(units)[j] {
      assert Ids(units)[i] != Ids(units)[j];
    }
  }

  /** A unit of a covering is the canonical unit with its id. */
  lemma CoveredUnit(flat: seq<Unit>, canonical: seq<Unit>, u: Unit)
    requires Distinct(Ids(canonical)) && u in flat
    requires multiset(Skeletons(flat)) == multiset(Skeletons(canonical))
    ensures u.id in ById(canonical) && Skeleton(u) == Skeleton(ById(canonical)[u.id])
  {
    var i :| 0 <= i < |flat| && flat[i] == u;
    assert Skeletons(flat)[i] in multiset(Skeletons(flat));
    var k := Occurs(Skeleton(u), Skeletons(canonical));
    ByIdFinds(canonical, u.id);
    assert canonical[k].id == u.id;
    SameId(canonical, canonical[k], ById(canonical)[u.id]);
  }

  predicate IsCanonical(u: Unit, byId: map<string, Unit>) {
    u.id in byId && u.commands == byId[u.id].commands && u.strictSuite == byId[u.id].strictSuite
  }

  /** Two canonical units of the list share an id, so it is no covering. */
  lemma RepeatedId(flat: seq<Unit>, canonical: seq<Unit>, i: nat, j: nat)
    requires Distinct(Ids(canonical)) && i < j < |flat| && flat[i].id == flat[j].id
    requires IsCanonical(flat[i], ById(canonical)) && IsCanonical(flat[j], ById(canonical))
    ensures multiset(Skeletons(flat)) != multiset(Skeletons(canonical))
  {
    SkeletonsDistinct(canonical);
    assert Skeletons(flat)[i] == Skeletons(flat)[j];
    if multiset(Skeletons(flat)) == multiset(Skeletons(canonical)) {
      DistinctPermutes(Skeletons(flat), Skeletons(canonical));
      assert false;
    }
  }

  lemma AllCanonical(flat: seq<Unit>, canonical: seq<Unit>)
    requires Distinct(Ids(canonical)) && Distinct(Ids(flat)) && |flat| == |canonical|
    requires forall k :: 0 <= k < |flat| ==> IsCanonical(flat[k], ById(canonical))
    ensures multiset(Skeletons(flat)) == multiset(Skeletons(canonical))
  {
    SkeletonsDistinct(flat);
    forall x | x in Skeletons(flat) ensures x in Skeletons(canonical) {
      var k :| 0 <= k < |flat| && Skeletons(flat)[k] == x;
      ByIdFinds(canonical, flat[k].id);
      var c := ById(canonical)[flat[k].id];
      var l :| 0 <= l < |canonical| && canonical[l] == c;
      assert Skeletons(canonical)[l] == x;
    }
    DistinctSubset(Skeletons(flat), Skeletons(canonical));
  }

  lemma Rejected(flat: seq<Unit>, canonical: seq<Unit>, u: Unit)
    requires Distinct(Ids(canonical)) && u in flat && !IsCanonical(u, ById(canonical))
    ensures multiset(Skeletons(flat)) != multiset(Skeletons(canonical))
  {
    if multiset(Skeletons(flat)) == multiset(Skeletons(canonical)) {
      CoveredUnit(flat, canonical, u);
      assert false;
    }
  }

  lemma OtherLength(xs: seq<Unit>, ys: seq<Unit>)
    requires |xs| != |ys|
    ensures multiset(Skeletons(xs)) != multiset(Skeletons(ys))
  {
    assert |multiset(Skeletons(xs))| != |multiset(Skeletons(ys))|;
  }

  lemma IdsDistinct(units: seq<Unit>)
    requires forall k, l :: 0 <= k < l < |units| ==> units[k].id != units[l].id
    ensures Distinct(Ids(units))
  {
  }

  ghost predicate IdBefore(flat: seq<Unit>, i: nat, id: string)
    requires i <= |flat|
  {
    exists k :: 0 <= k < i && flat[k].id == id
  }

  /** The first i units are canonical, their ids differ, and seen holds exactly these ids. */
  ghost predicate Taken(flat: seq<Unit>, byId: map<string, Unit>, i: nat, seen: set<string>)
    requires i <= |flat|
  {
    && |seen| == i
    && (forall id :: id in seen <==> IdBefore(flat, i, id))
    && (forall k, l :: 0 <= k < l < i ==> flat[k].id != flat[l].id)
    && forall k :: 0 <= k < i ==> IsCanonical(flat[k], byId)
  }

  lemma TakenFirst(flat: seq<Unit>, byId: map<string, Unit>)
    ensures Taken(flat, byId, 0, {})
  {
  }

  lemma TakenNext(flat: seq<Unit>, byId: map<string, Unit>, i: nat, seen: set<string>)
    requires i < |flat| && Taken(flat, byId, i, seen) && IsCanonical(flat[i], byId) && flat[i].id !in seen
    ensures Taken(flat, byId, i + 1, seen + {flat[i].id})
  {
    hide IsCanonical, IdBefore;
    var next, more := i + 1, seen + {flat[i].id};
    forall id ensures id in more <==> IdBefore(flat, next, id) {
      IdBeforeNext(flat, i, id);
    }
    forall k | 0 <= k < i ensures flat[k].id != flat[i].id {
      IdBeforeHolds(flat, i, k);
    }
  }

  lemma IdBeforeNext(flat: seq<Unit>, i: nat, id: string)
    requires i < |flat|
    ensures IdBefore(flat, i + 1, id) <==> IdBefore(flat, i, id) || flat[i].id == id
  {
  }

  lemma IdBeforeHolds(flat: seq<Unit>, i: nat, k: nat)
    requires k < i <= |flat|
    ensures IdBefore(flat, i, flat[k].id)
  {
  }

  lemma TakenTwice(flat: seq<Unit>, canonical: seq<Unit>, i: nat, seen: set<string>)
    requires Distinct(Ids(canonical)) && i < |flat| && Taken(flat, ById(canonical), i, seen)
    requires IsCanonical(flat[i], ById(canonical)) && flat[i].id in seen
    ensures multiset(Skeletons(flat)) != multiset(Skeletons(canonical))
  {
    hide Ids, Distinct, ById, Skeletons, IsCanonical;
    assert IdBefore(flat, i, flat[i].id);
    var k :| 0 <= k < i && flat[k].id == flat[i].id;
    RepeatedId(flat, canonical, k, i);
  }

  lemma TakenAll(flat: seq<Unit>, canonical: seq<Unit>, seen: set<string>)
    requires Distinct(Ids(canonical)) && Taken(flat, ById(canonical), |flat|, seen)
    ensures |seen| == |canonical| <==> multiset(Skeletons(flat)) == multiset(Skeletons(canonical))
  {
    hide Ids, Distinct, ById, Skeletons, IsCanonical;
    IdsDistinct(flat);
    if |flat| == |canonical| {
      AllCanonical(flat, canonical);
    } else {
      OtherLength(flat, canonical);
    }
  }

  method SameUnits(flat: seq<Unit>, canonical: seq<Unit>) returns (ok: bool)
    requires Distinct(Ids(canonical))
    ensures ok <==> multiset(Skeletons(flat)) == multiset(Skeletons(canonical))
  {
    hide ById, Skeletons, Ids, Distinct, Taken;
    var byId := ById(canonical);
    var seen: set<string> := {};
    TakenFirst(flat, byId);
    for i := 0 to |flat|
      invariant Taken(flat, byId, i, seen)
    {
      var unit := flat[i];
      if !IsCanonical(unit, byId) {
        Rejected(flat, canonical, unit);
        return false;
      }
      if unit.id in seen {
        TakenTwice(flat, canonical, i, seen);
        return false;
      }
      TakenNext(flat, byId, i, seen);
      seen := seen + {unit.id};
    }
    TakenAll(flat, canonical, seen);
    ok := |seen| == |canonical|;
  }

  // ---------- the whole check ----------

  lemma PermutedRuns(xs: seq<Unit>, ys: seq<Unit>)
    requires multiset(Skeletons(xs)) == multiset(Skeletons(ys))
    ensures multiset(FlatMap(xs, CommandsOf)) == multiset(FlatMap(ys, CommandsOf))
    ensures multiset(FlatMap(xs, SuiteOf)) == multiset(FlatMap(ys, SuiteOf))
  {
    FlatMapPermutes(Skeletons(xs), Skeletons(ys), CommandsOf);
    FlatMapSkeletons(xs, CommandsOf);
    FlatMapSkeletons(ys, CommandsOf);
    FlatMapPermutes(Skeletons(xs), Skeletons(ys), SuiteOf);
    FlatMapSkeletons(xs, SuiteOf);
    FlatMapSkeletons(ys, SuiteOf);
  }

  lemma ChainRuns(commands: seq<string>, suites: seq<string>, weights: Weights)
    requires ChainUnits(commands, suites, weights).Units?
    ensures
      var units := ChainUnits(commands, suites, weights).units;
      && FlatMap(units, CommandsOf) == Expand(commands, suites)
      && FlatMap(units, SuiteOf) == NonEmpty(suites)
    ensures Distinct(suites)
  {
    DependencyPairs(commands);
    var at := OnlyOne(commands);
    assert commands[0..] == commands;
    UnitsRunEverything(commands, 0, suites, weights);
    ChainSuites(commands, 0, at, suites, weights);
    SuitesDistinct(commands, at, suites, weights);
  }

  /** What a covering implies for the commands and the strict suites. */
  lemma CoveringRuns(scripts: Scripts, suites: seq<string>, weights: Weights, flat: seq<Unit>)
    requires UnitsOf(scripts, suites, weights).Units?
    requires multiset(Skeletons(flat)) == multiset(Skeletons(UnitsOf(scripts, suites, weights).units))
    ensures multiset(FlatMap(flat, CommandsOf)) == multiset(Expand(ExpandLocked(scripts).commands, suites))
    ensures multiset(FlatMap(flat, SuiteOf)) == multiset(NonEmpty(suites))
    ensures Distinct(suites)
  {
    var commands := ExpandLocked(scripts).commands;
    assert UnitsOf(scripts, suites, weights) == ChainUnits(commands, suites, weights);
    hide *;
    ChainRuns(commands, suites, weights);
    PermutedRuns(flat, ChainUnits(commands, suites, weights).units);
  }

  /** The strict-suite test of the checker says whether a suite has an empty name. */
  lemma StrictSuitesTest(suites: seq<string>, strict: seq<string>)
    requires Distinct(suites) && multiset(strict) == multiset(NonEmpty(suites))
    ensures |strict| == |suites| && |set s | s in strict| == |suites| <==> "" !in suites
  {
    NonEmptySuites(suites);
    assert |multiset(strict)| == |multiset(NonEmpty(suites))|;
    if "" !in suites {
      DistinctPermutes(strict, suites);
      DistinctCount(strict);
    }
  }

  method CheckCoverage(scripts: Scripts, suites: seq<string>, shards: seq<seq<Unit>>, count: int) returns (v: Verdict)
    ensures v.Accepted? <==> Covers(scripts, suites, shards, count)
  {
    if |shards| != count {
      return WrongCount;
    }
    var chain := ExpandLocked(scripts);
    if chain.BadChain? {
      return BadScripts(chain.reason);
    }
    var flat := Flatten(shards);
    var same := SameCommands(Expand(chain.commands, suites), FlatMap(flat, CommandsOf));
    if !same {
      if Covers(scripts, suites, shards, count) {
        CoveringRuns(scripts, suites, map[], flat);
      }
      return WrongCommands;
    }
    var built := BuildUnits(scripts, suites, map[]);
    if built.Invalid? {
      return BadScripts(built.reason);
    }
    same := SameUnits(flat, built.units);
    if !same {
      return WrongUnits;
    }
    CoveringRuns(scripts, suites, map[], flat);
    var strict := FlatMap(flat, SuiteOf);
    StrictSuitesTest(suites, strict);
    if |strict| != |suites| || |set s | s in strict| != |suites| {
      return WrongStrictSuites;
    }
    return Accepted;
  }

  // ---------- what coverage is worth ----------

  lemma SameParts(g: seq<Unit>, r: seq<Unit>, h: seq<Unit>, q: seq<Unit>)
    requires Skeletons(g) == Skeletons(h) && Skeletons(r) == Skeletons(q)
    ensures Skeletons(g + r) == Skeletons(h + q)
  {
    assert Skeletons(g + r) == Skeletons(g) + Skeletons(r);
    assert Skeletons(h + q) == Skeletons(h) + Skeletons(q);
  }

  lemma GroupEstimate(command: string, suites: seq<string>, a: Weights, b: Weights)
    ensures Skeletons(Group(command, suites, a)) == Skeletons(Group(command, suites, b))
  {
  }

  /** Weights change estimates only. */
  lemma {:induction false} WeightsOnlyEstimate(commands: seq<string>, index: nat, suites: seq<string>, a: Weights,
                                               b: Weights)
    requires index <= |commands|
    ensures Skeletons(UnitsFrom(commands, index, suites, a)) == Skeletons(UnitsFrom(commands, index, suites, b))
    decreases |commands| - index
  {
    if index < |commands| {
      var next := Next(commands, index);
      WeightsOnlyEstimate(commands, next, suites, a, b);
      GroupEstimate(commands[index], suites, a, b);
      SameParts(Group(commands[index], suites, a), UnitsFrom(commands, next, suites, a),
                Group(commands[index], suites, b), UnitsFrom(commands, next, suites, b));
    }
  }

  lemma SameIds(xs: seq<Unit>, ys: seq<Unit>)
    requires Skeletons(xs) == Skeletons(ys)
    ensures Ids(xs) == Ids(ys)
  {
    assert |Skeletons(xs)| == |Skeletons(ys)|;
    forall i | 0 <= i < |xs| ensures xs[i].id == ys[i].id {
      assert Skeletons(xs)[i].id == xs[i].id && Skeletons(ys)[i].id == ys[i].id;
    }
  }

  lemma SkeletonsPermute(xs: seq<Unit>, ys: seq<Unit>)
    requires multiset(xs) == multiset(ys)
    ensures multiset(Skeletons(xs)) == multiset(Skeletons(ys))
  {
    var one := (u: Unit) => [Skeleton(u)];
    FlatMapPermutes(xs, ys, one);
    SkeletonsMap(xs, one);
    SkeletonsMap(ys, one);
  }

  lemma {:induction false} SkeletonsMap(xs: seq<Unit>, one: Unit -> seq<Unit>)
    requires forall u :: one(u) == [Skeleton(u)]
    ensures FlatMap(xs, one) == Skeletons(xs)
  {
    if xs != [] {
      SkeletonsMap(xs[..|xs| - 1], one);
    }
  }

  lemma SameChainUnits(commands: seq<string>, suites: seq<string>, a: Weights, b: Weights)
    requires ChainUnits(commands, suites, a).Units?
    ensures ChainUnits(commands, suites, b).Units?
    ensures Skeletons(ChainUnits(commands, suites, b).units) == Skeletons(ChainUnits(commands, suites, a).units)
  {
    hide STRICT, BUILD, CHECK_DIST;
    WeightsOnlyEstimate(commands, 0, suites, a, b);
    SameIds(UnitsFrom(commands, 0, suites, a), UnitsFrom(commands, 0, suites, b));
  }

  /** The chain has units under one weighting exactly when it has the same ones under another. */
  lemma SameUnitsUnderWeights(scripts: Scripts, suites: seq<string>, weights: Weights)
    requires UnitsOf(scripts, suites, weights).Units?
    ensures UnitsOf(scripts, suites, map[]).Units?
    ensures Skeletons(UnitsOf(scripts, suites, map[]).units) == Skeletons(UnitsOf(scripts, suites, weights).units)
  {
    SameChainUnits(ExpandLocked(scripts).commands, suites, weights, map[]);
  }

  /**
   * The checker accepts what the allocator makes of any valid chain, for every weighting and shard count,
   * exactly when no strict suite has an empty name.
   */
  lemma AllocationCovers(scripts: Scripts, suites: seq<string>, weights: Weights, count: nat)
    requires count > 0
    requires UnitsOf(scripts, suites, weights).Units?
    ensures Covers(scripts, suites, Allocation(UnitsOf(scripts, suites, weights).units, count), count) <==>
      "" !in suites
  {
    var units := UnitsOf(scripts, suites, weights).units;
    SameUnitsUnderWeights(scripts, suites, weights);
    AllocationPermutes(units, count);
    SkeletonsPermute(Flatten(Allocation(units, count)), units);
  }

  /** With the named suites of the repository the checker accepts every allocation. */
  lemma AllocationAccepted(scripts: Scripts, suites: seq<string>, weights: Weights, count: nat)
    requires count > 0 && forall i :: 0 <= i < |suites| ==> suites[i] != ""
    requires UnitsOf(scripts, suites, weights).Units?
    ensures Covers(scripts, suites, Allocation(UnitsOf(scripts, suites, weights).units, count), count)
  {
    hide Covers, UnitsOf, Allocation;
    AllocationCovers(scripts, suites, weights, count);
  }

  lemma CanonicalOnce(flat: seq<Unit>, canonical: seq<Unit>, u: Unit)
    requires Distinct(Ids(canonical)) && multiset(Skeletons(flat)) == multiset(Skeletons(canonical))
    requires u in canonical
    ensures multiset(Skeletons(flat))[Skeleton(u)] == 1
  {
    SkeletonsDistinct(canonical);
    var i :| 0 <= i < |canonical| && canonical[i] == u;
    assert Skeletons(canonical)[i] in multiset(Skeletons(canonical));
    DistinctOnce(Skeletons(canonical), Skeleton(u));
  }

  /** Accepted shards run every command of the full chain exactly as often as the chain does. */
  lemma CoveringIsComplete(scripts: Scripts, suites: seq<string>, shards: seq<seq<Unit>>, count: int)
    requires Covers(scripts, suites, shards, count)
    ensures multiset(FlatMap(Flatten(shards), CommandsOf)) == multiset(Expand(ExpandLocked(scripts).commands, suites))
  {
    CoveringRuns(scripts, suites, map[], Flatten(shards));
  }

  /** Accepted shards hold each canonical unit exactly once. */
  lemma EachUnitOnce(scripts: Scripts, suites: seq<string>, shards: seq<seq<Unit>>, count: int, u: Unit)
    requires Covers(scripts, suites, shards, count)
    requires u in UnitsOf(scripts, suites, map[]).units
    ensures multiset(Skeletons(Flatten(shards)))[Skeleton(u)] == 1
  {
    CanonicalOnce(Flatten(shards), UnitsOf(scripts, suites, map[]).units, u);
  }

  lemma InEither<T>(x: T, xs: seq<T>, ys: seq<T>)
    requires x in xs || x in ys
    ensures x in xs + ys
  {
  }

  lemma {:induction false} HasDependency(commands: seq<string>, index: nat, start: nat, suites: seq<string>,
                                         weights: Weights)
    requires index <= start < |commands|
    requires commands[start] == BUILD && BUILD !in commands[..start]
    ensures DependencyUnit(weights) in UnitsFrom(commands, index, suites, weights)
    decreases |commands| - index
  {
    hide STRICT, BUILD, CHECK_DIST;
    NamesDiffer();
    if index < start {
      assert commands[..start][index] != BUILD;
      HasDependency(commands, index + 1, start, suites, weights);
      assert Next(commands, index) == index + 1;
    } else {
      assert Group(commands[index], suites, weights) == [DependencyUnit(weights)];
    }
    hide *;
    UnitsStep(commands, index, suites, weights);
    InEither(DependencyUnit(weights), Group(commands[index], suites, weights),
             UnitsFrom(commands, Next(commands, index), suites, weights));
  }

  /** In accepted shards the build and the check of its output run in one unit, in this order. */
  lemma DependencyTogether(scripts: Scripts, suites: seq<string>, shards: seq<seq<Unit>>, count: int) returns (k: nat)
    requires Covers(scripts, suites, shards, count)
    ensures k < |Flatten(shards)| && Flatten(shards)[k].commands == [BUILD, CHECK_DIST]
  {
    var commands := ExpandLocked(scripts).commands;
    HasDependency(commands, 0, FirstIndex(commands, BUILD), suites, map[]);
    CanonicalOnce(Flatten(shards), UnitsOf(scripts, suites, map[]).units, DependencyUnit(map[]));
    k := Occurs(Skeleton(DependencyUnit(map[])), Skeletons(Flatten(shards)));
    assert Skeletons(Flatten(shards))[k].commands == Flatten(shards)[k].commands;
  }
}
