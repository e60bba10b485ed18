/** Exactly which chains can be cut into units. */
module CiAccept {
  import opened Sequences
  import opened Text
  import opened Sorting
  import opened CiUnits
  import opened CiAllocate
  import opened CiCoverage

  /** The command stands at this place and nowhere else. */
  predicate OnlyAt(commands: seq<string>, command: string, at: nat) {
    at < |commands| && commands[at] == command && forall j :: 0 <= j < |commands| && commands[j] == command ==> j == at
  }

  ghost predicate BuildThenCheck(commands: seq<string>) {
    exists at :: 0 <= at < |commands| - 1 && commands[at] == BUILD && commands[at + 1] == CHECK_DIST
  }

  /** A chain without repetition that has the strict entry point and the build directly in front of its check. */
  ghost predicate Cuttable(commands: seq<string>, suites: seq<string>) {
    && Distinct(commands) && STRICT in commands && BuildThenCheck(commands)
    && Distinct(suites) && forall suite :: suite in suites ==> "strict:" + suite !in commands
  }

  predicate SomethingIn(command: string) {
    exists k :: 0 <= k < |command| && !IsSpace(command[k])
  }

  /** The locked commands take the place of their entry, and what comes out can be cut. */
  ghost predicate LockedInPlace(test: seq<string>, locked: seq<string>, suites: seq<string>) {
    exists at: nat :: OnlyAt(test, LOCKED, at) && Cuttable(test[..at] + locked + test[at + 1..], suites)
  }

  /** What a chain has to be like. */
  ghost predicate Acceptable(scripts: Scripts, suites: seq<string>, weights: Weights) {
    var test, locked := Split(scripts.test, AND), Split(scripts.locked, AND);
    && (forall name :: name in weights ==> weights[name] > 0.0)
    && (forall command :: command in test + locked ==> SomethingIn(command))
    && LockedInPlace(test, locked, suites)
  }

  // ---------- places and numbers ----------

  lemma OnePlaceOnly(commands: seq<string>, i: nat, j: nat)
    requires i < |commands| && j < |commands| && commands[i] == commands[j]
    ensures multiset(commands)[commands[i]] == 1 ==> i == j
  {
    if i < j {
      TwiceIn(commands, i, j);
    } else if j < i {
      TwiceIn(commands, j, i);
    }
  }

  lemma OnceAt(commands: seq<string>, command: string)
    ensures multiset(commands)[command] == 1 <==> exists at: nat :: OnlyAt(commands, command, at)
  {
    if multiset(commands)[command] == 1 {
      var at := Occurs(command, commands);
      forall j: nat | j < |commands| && commands[j] == command ensures j == at {
        OnePlaceOnly(commands, at, j);
      }
      assert OnlyAt(commands, command, at);
    }
    forall at: nat | OnlyAt(commands, command, at) ensures multiset(commands)[command] == 1 {
      assert commands == commands[..at] + [command] + commands[at + 1..];
      assert command !in multiset(commands[..at]) && command !in multiset(commands[at + 1..]);
    }
  }

  lemma {:induction false} SpliceAway(commands: seq<string>, locked: seq<string>)
    requires LOCKED !in commands
    ensures Splice(commands, locked) == commands
  {
    if commands != [] {
      SpliceAway(commands[1..], locked);
      assert commands == [commands[0]] + commands[1..];
    }
  }

  lemma {:induction false} SpliceAt(commands: seq<string>, locked: seq<string>, at: nat)
    requires OnlyAt(commands, LOCKED, at)
    ensures Splice(commands, locked) == commands[..at] + locked + commands[at + 1..]
  {
    hide LOCKED;
    var rest := commands[1..];
    if at == 0 {
      forall j | 0 <= j < |rest| ensures rest[j] != LOCKED {
        assert rest[j] == commands[j + 1];
      }
      SpliceAway(rest, locked);
    } else {
      forall j | 0 <= j < |rest| && rest[j] == LOCKED ensures j == at - 1 {
        assert rest[j] == commands[j + 1];
      }
      assert rest[at - 1] == LOCKED;
      SpliceAt(rest, locked, at - 1);
      assert commands[..at] == [commands[0]] + rest[..at - 1];
    }
  }

  lemma Blanks(commands: seq<string>)
    ensures HasEmpty(commands) <==> exists command :: command in commands && !SomethingIn(command)
  {
    forall i | 0 <= i < |commands| ensures IsBlank(commands[i]) == !SomethingIn(commands[i]) {
    }
  }

  // ---------- the ids of the units ----------

  const DEPENDENCY := BUILD + AND + CHECK_DIST

  function SuiteIds(suites: seq<string>): seq<string> {
    seq(|suites|, i requires 0 <= i < |suites| => "strict:" + suites[i])
  }

  /** The ids that come from a command, where a check belongs to its build. */
  function IdsFor(command: string, suites: seq<string>): seq<string> {
    if command == STRICT then SuiteIds(suites)
    else if command == BUILD then [DEPENDENCY]
    else if command == CHECK_DIST then []
    else [command]
  }

  ghost function Namer(suites: seq<string>): string -> seq<string> {
    command => IdsFor(command, suites)
  }

  /** The only check stands behind the only build. */
  predicate PairAt(commands: seq<string>, at: nat) {
    OnlyAt(commands, BUILD, at) && OnlyAt(commands, CHECK_DIST, at + 1)
  }

  lemma FlatMapStep(xs: seq<string>, index: nat, f: string -> seq<string>)
    requires index < |xs|
    ensures FlatMap(xs[index..], f) == f(xs[index]) + FlatMap(xs[index + 1..], f)
  {
    assert xs[index..] == [xs[index]] + xs[index + 1..];
    FlatMapConcat([xs[index]], xs[index + 1..], f);
    FlatMapOne(xs[index], f);
  }

  lemma IdsOfGroup(command: string, suites: seq<string>, weights: Weights)
    requires command != CHECK_DIST
    ensures Ids(Group(command, suites, weights)) == IdsFor(command, suites)
  {
    hide STRICT, BUILD, CHECK_DIST, AND;
    JoinTwo(BUILD, CHECK_DIST, AND);
  }

  lemma {:induction false} IdsFrom(commands: seq<string>, index: nat, at: nat, suites: seq<string>, weights: Weights)
    requires index <= |commands| && PairAt(commands, at) && index != at + 1
    ensures Ids(UnitsFrom(commands, index, suites, weights)) == FlatMap(commands[index..], Namer(suites))
    decreases |commands| - index
  {
    hide STRICT, BUILD, CHECK_DIST, AND, Group, FlatMap;
    NamesDiffer();
    if index == |commands| {
      NoNames(commands[index..], Namer(suites));
    } else {
      var next := Next(commands, index);
      IdsFrom(commands, next, at, suites, weights);
      FlatMapStep(commands, index, Namer(suites));
      IdsOfGroup(commands[index], suites, weights);
      if index == at {
        FlatMapStep(commands, at + 1, Namer(suites));
      }
      IdsConcat(Group(commands[index], suites, weights), UnitsFrom(commands, next, suites, weights));
    }
  }

  lemma NoNames(xs: seq<string>, f: string -> seq<string>)
    requires xs == []
    ensures FlatMap(xs, f) == []
  {
  }

  lemma IdsConcat(xs: seq<Unit>, ys: seq<Unit>)
    ensures Ids(xs + ys) == Ids(xs) + Ids(ys)
  {
  }

  // ---------- when they are distinct ----------

  /** Neither of the commands with a meaning of their own. */
  predicate Plain(command: string) {
    command != STRICT && command != BUILD && command != CHECK_DIST
  }

  lemma {:induction false} PlainIds(rest: seq<string>, suites: seq<string>)
    requires forall command :: command in rest ==> Plain(command)
    ensures FlatMap(rest, Namer(suites)) == rest
  {
    hide STRICT, BUILD, CHECK_DIST;
    if rest != [] {
      var last := rest[|rest| - 1];
      PlainIds(rest[..|rest| - 1], suites);
      assert last in rest && Namer(suites)(last) == [last];
      assert rest == rest[..|rest| - 1] + [last];
    }
  }

  /** What is left of a chain when its only command of a kind is taken out. */
  lemma TakeOut(commands: seq<string>, command: string) returns (rest: seq<string>)
    requires multiset(commands)[command] == 1
    ensures multiset(commands) == multiset([command] + rest) && command !in rest
    ensures forall x :: x != command ==> multiset(rest)[x] == multiset(commands)[x]
  {
    var k := Occurs(command, commands);
    rest := Without(commands, k);
  }

  lemma SameBehind(command: string, xs: seq<string>, ys: seq<string>)
    requires multiset(xs) == multiset(ys)
    ensures multiset([command] + xs) == multiset([command] + ys)
  {
  }

  /** The three special commands and the rest of a chain that has each of them once. */
  lemma ThreeAndRest(commands: seq<string>) returns (rest: seq<string>)
    requires multiset(commands)[STRICT] == 1 && multiset(commands)[BUILD] == 1 && multiset(commands)[CHECK_DIST] == 1
    ensures multiset(commands) == multiset([STRICT, BUILD, CHECK_DIST] + rest)
    ensures forall command :: command in rest ==> Plain(command)
  {
    hide STRICT, BUILD, CHECK_DIST;
    NamesDiffer();
    var one := TakeOut(commands, STRICT);
    var two := TakeOut(one, BUILD);
    rest := TakeOut(two, CHECK_DIST);
    var last := [CHECK_DIST] + rest;
    SameBehind(BUILD, two, last);
    SameBehind(STRICT, one, [BUILD] + last);
    assert [STRICT, BUILD, CHECK_DIST] + rest == [STRICT] + ([BUILD] + last);
    forall command | command in rest ensures Plain(command) {
      assert command in multiset(rest);
    }
  }

  lemma SameMembers(xs: seq<string>, ys: seq<string>)
    requires multiset(xs) == multiset(ys)
    ensures forall x :: x in xs <==> x in ys
  {
    forall x ensures x in xs <==> x in ys {
      assert x in multiset(xs) <==> x in multiset(ys);
    }
  }

  lemma SpecialIds(suites: seq<string>, rest: seq<string>)
    requires forall command :: command in rest ==> Plain(command)
    ensures FlatMap([STRICT, BUILD, CHECK_DIST] + rest, Namer(suites)) == SuiteIds(suites) + [DEPENDENCY] + rest
  {
    hide STRICT, BUILD, CHECK_DIST, DEPENDENCY, FlatMap;
    NamesDiffer();
    var all := [STRICT, BUILD, CHECK_DIST] + rest;
    assert all[0..] == all;
    FlatMapStep(all, 0, Namer(suites));
    FlatMapStep(all, 1, Namer(suites));
    FlatMapStep(all, 2, Namer(suites));
    assert all[3..] == rest;
    PlainIds(rest, suites);
  }

  lemma Prefixed(a: string, b: string)
    requires "strict:" + a == "strict:" + b
    ensures a == b
  {
    assert ("strict:" + a)[7..] == a && ("strict:" + b)[7..] == b;
  }

  lemma FirstLetters(suite: string)
    ensures "strict:" + suite != STRICT && "strict:" + suite != BUILD && "strict:" + suite != CHECK_DIST
    ensures "strict:" + suite != DEPENDENCY
  {
    assert ("strict:" + suite)[0] == 's';
    assert STRICT[0] == 'T';
    assert BUILD[0] == 'p' && DEPENDENCY[0] == BUILD[0];
    assert CHECK_DIST[0] == 't';
  }

  lemma DistinctIds(suites: seq<string>, rest: seq<string>)
    requires DEPENDENCY !in rest
    ensures Distinct(SuiteIds(suites) + [DEPENDENCY] + rest) <==>
      Distinct(suites) && Distinct(rest) && forall suite :: suite in suites ==> "strict:" + suite !in rest
  {
    hide DEPENDENCY;
    var n, ids, all := |suites|, SuiteIds(suites), SuiteIds(suites) + [DEPENDENCY] + rest;
    if Distinct(all) {
      forall i, j | 0 <= i < j < n ensures suites[i] != suites[j] {
        assert all[i] == "strict:" + suites[i] && all[j] == "strict:" + suites[j];
      }
      forall i, j | 0 <= i < j < |rest| ensures rest[i] != rest[j] {
        assert all[n + 1 + i] == rest[i] && all[n + 1 + j] == rest[j];
      }
      forall suite | suite in suites ensures "strict:" + suite !in rest {
        var i :| 0 <= i < n && suites[i] == suite;
        forall j | 0 <= j < |rest| ensures rest[j] != "strict:" + suite {
          assert all[i] == "strict:" + suite && all[n + 1 + j] == rest[j];
        }
      }
    }
    if Distinct(suites) && Distinct(rest) && forall suite :: suite in suites ==> "strict:" + suite !in rest {
      forall i, j | 0 <= i < j < |all| ensures all[i] != all[j] {
        DistinctPair(suites, rest, i, j);
      }
    }
  }

  lemma DistinctPair(suites: seq<string>, rest: seq<string>, i: nat, j: nat)
    requires DEPENDENCY !in rest && Distinct(suites) && Distinct(rest)
    requires forall suite :: suite in suites ==> "strict:" + suite !in rest
    requires i < j < |suites| + 1 + |rest|
    ensures (SuiteIds(suites) + [DEPENDENCY] + rest)[i] != (SuiteIds(suites) + [DEPENDENCY] + rest)[j]
  {
    hide DEPENDENCY;
    var n := |suites|;
    if j < n {
      if "strict:" + suites[i] == "strict:" + suites[j] {
        Prefixed(suites[i], suites[j]);
      }
    } else if i < n {
      FirstLetters(suites[i]);
    }
  }

  lemma DistinctThree(rest: seq<string>)
    requires forall command :: command in rest ==> Plain(command)
    ensures Distinct([STRICT, BUILD, CHECK_DIST] + rest) <==> Distinct(rest)
  {
    hide STRICT, BUILD, CHECK_DIST;
    NamesDiffer();
    var all := [STRICT, BUILD, CHECK_DIST] + rest;
    if Distinct(all) {
      forall i, j | 0 <= i < j < |rest| ensures rest[i] != rest[j] {
        assert all[3 + i] == rest[i] && all[3 + j] == rest[j];
      }
    }
    if Distinct(rest) {
      forall i, j | 0 <= i < j < |all| ensures all[i] != all[j] {
        if i < 3 <= j {
          assert rest[j - 3] in rest;
        }
      }
    }
  }

  lemma DistinctEither(xs: seq<string>, ys: seq<string>)
    requires multiset(xs) == multiset(ys)
    ensures Distinct(xs) <==> Distinct(ys)
  {
    if Distinct(xs) {
      DistinctPermutes(ys, xs);
    }
    if Distinct(ys) {
      DistinctPermutes(xs, ys);
    }
  }

  lemma IdsDistinctExactly(commands: seq<string>, at: nat, suites: seq<string>, weights: Weights)
    requires multiset(commands)[STRICT] == 1 && PairAt(commands, at) && DEPENDENCY !in commands
    ensures Distinct(Ids(UnitsFrom(commands, 0, suites, weights))) <==>
      Distinct(suites) && Distinct(commands) && forall suite :: suite in suites ==> "strict:" + suite !in commands
  {
    OnceAt(commands, BUILD);
    OnceAt(commands, CHECK_DIST);
    hide STRICT, BUILD, CHECK_DIST, DEPENDENCY, UnitsFrom, OnlyAt;
    var rest := ThreeAndRest(commands);
    var three := [STRICT, BUILD, CHECK_DIST] + rest;
    IdsFrom(commands, 0, at, suites, weights);
    assert commands[0..] == commands;
    SameMembers(commands, three);
    FlatMapPermutes(commands, three, Namer(suites));
    SpecialIds(suites, rest);
    DistinctEither(Ids(UnitsFrom(commands, 0, suites, weights)), SuiteIds(suites) + [DEPENDENCY] + rest);
    DistinctIds(suites, rest);
    DistinctEither(commands, three);
    DistinctThree(rest);
    forall suite | suite in suites ensures "strict:" + suite in commands <==> "strict:" + suite in rest {
      FirstLetters(suite);
    }
  }

  // ---------- the chain as a whole ----------

  /** No piece contains the separator. */
  lemma {:induction false} PiecesWithout(s: string, sep: string)
    requires sep != ""
    ensures forall piece, j: nat :: piece in Split(s, sep) ==> !MatchesAt(piece, sep, j)
  {
    var k := IndexOf(s, sep, 0);
    if k < 0 {
      assert forall j: nat :: !MatchesAt(s, sep, j);
    } else {
      PiecesWithout(s[k + |sep|..], sep);
      forall j: nat ensures !MatchesAt(s[..k], sep, j) {
        if MatchesAt(s[..k], sep, j) {
          assert s[j..j + |sep|] == s[..k][j..j + |sep|];
          assert MatchesAt(s, sep, j);
        }
      }
    }
  }

  lemma DependencyNoPiece(s: string)
    ensures DEPENDENCY !in Split(s, AND)
  {
    PiecesWithout(s, AND);
    HasAnd();
  }

  lemma HasAnd()
    ensures MatchesAt(DEPENDENCY, AND, |BUILD|)
  {
    hide BUILD, CHECK_DIST, AND;
    assert DEPENDENCY[|BUILD|..|BUILD| + |AND|] == AND;
  }

  lemma ChainExactly(commands: seq<string>, suites: seq<string>, weights: Weights)
    requires DEPENDENCY !in commands
    ensures ChainUnits(commands, suites, weights).Units? <==> Cuttable(commands, suites)
  {
    hide STRICT, BUILD, CHECK_DIST, DEPENDENCY, UnitsFrom, FirstIndex;
    OnceAt(commands, BUILD);
    OnceAt(commands, CHECK_DIST);
    if Cuttable(commands, suites) {
      DistinctOnly(commands, STRICT);
      OnceAt(commands, STRICT);
      var at: nat :| at < |commands| - 1 && commands[at] == BUILD && commands[at + 1] == CHECK_DIST;
      DistinctOnly(commands, BUILD);
      DistinctOnly(commands, CHECK_DIST);
      assert FirstIndex(commands, BUILD) == at by { FirstIsOnly(commands, BUILD, at); }
      IdsDistinctExactly(commands, at, suites, weights);
    }
    if ChainUnits(commands, suites, weights).Units? {
      var at := FirstIndex(commands, BUILD);
      var b: nat :| OnlyAt(commands, BUILD, b);
      var c: nat :| OnlyAt(commands, CHECK_DIST, c);
      assert b == at && c == at + 1;
      IdsDistinctExactly(commands, at, suites, weights);
      assert STRICT in multiset(commands);
    }
  }

  lemma FirstIsOnly(commands: seq<string>, command: string, at: nat)
    requires Distinct(commands) && at < |commands| && commands[at] == command
    ensures FirstIndex(commands, command) == at
  {
    var first := FirstIndex(commands, command);
    assert forall q :: at < q <= |commands| ==> commands[..q][at] == command;
  }

  lemma DistinctOnly(commands: seq<string>, command: string)
    requires Distinct(commands) && command in commands
    ensures exists at: nat :: OnlyAt(commands, command, at)
    ensures forall at: nat :: at < |commands| && commands[at] == command ==> OnlyAt(commands, command, at)
  {
    var at: nat :| at < |commands| && commands[at] == command;
    assert OnlyAt(commands, command, at);
  }

  /** A chain is cut into units exactly if it is acceptable. */
  lemma AcceptedExactly(scripts: Scripts, suites: seq<string>, weights: Weights)
    ensures UnitsOf(scripts, suites, weights).Units? <==> Acceptable(scripts, suites, weights)
  {
    hide LOCKED, ChainUnits, Cuttable, Splice, HasEmpty, Split;
    var test, locked := Split(scripts.test, AND), Split(scripts.locked, AND);
    Blanks(test);
    Blanks(locked);
    OnceAt(test, LOCKED);
    forall at: nat | OnlyAt(test, LOCKED, at)
      ensures Splice(test, locked) == test[..at] + locked + test[at + 1..]
      ensures ChainUnits(Splice(test, locked), suites, weights).Units? <==> Cuttable(Splice(test, locked), suites)
    {
      SpliceAt(test, locked, at);
      DependencyNoPiece(scripts.test);
      DependencyNoPiece(scripts.locked);
      ChainExactly(Splice(test, locked), suites, weights);
    }
  }

  // ---------- which fault is named ----------

  ghost predicate AllPositive(weights: Weights) { forall name :: name in weights ==> weights[name] > 0.0 }

  ghost predicate NoneBlank(commands: seq<string>) { forall command :: command in commands ==> SomethingIn(command) }

  ghost predicate Once(commands: seq<string>, command: string) { exists at: nat :: OnlyAt(commands, command, at) }

  /** The first build is directly followed by its check. */
  ghost predicate FirstBuildChecked(commands: seq<string>) {
    exists at: nat :: at + 1 < |commands| && BuildAt(commands, at)
  }

  predicate BuildAt(commands: seq<string>, at: nat)
    requires at + 1 < |commands|
  {
    commands[at] == BUILD && commands[at + 1] == CHECK_DIST && BUILD !in commands[..at]
  }

  /** The chain with its locked commands fails at this point and not before. */
  ghost predicate ChainFault(commands: seq<string>, reason: Reason) {
    match reason
    case StrictCount => !Once(commands, STRICT)
    case DependencyMissing => Once(commands, STRICT) && !FirstBuildChecked(commands)
    case DependencyRepeated =>
      && Once(commands, STRICT) && FirstBuildChecked(commands)
      && !(Once(commands, BUILD) && Once(commands, CHECK_DIST))
    case DuplicateUnit =>
      && Once(commands, STRICT) && FirstBuildChecked(commands)
      && Once(commands, BUILD) && Once(commands, CHECK_DIST)
    case _ => false
  }

  /** What is wrong first, in the order of the source. */
  ghost predicate FirstFault(scripts: Scripts, weights: Weights, reason: Reason) {
    var test, locked := Split(scripts.test, AND), Split(scripts.locked, AND);
    match reason
    case BadWeight => !AllPositive(weights)
    case EmptyCommand =>
      AllPositive(weights) && (!NoneBlank(test) || (Once(test, LOCKED) && !NoneBlank(locked)))
    case LockedCount => AllPositive(weights) && NoneBlank(test) && !Once(test, LOCKED)
    case _ =>
      && AllPositive(weights) && NoneBlank(test) && NoneBlank(locked)
      && exists at: nat :: OnlyAt(test, LOCKED, at) && ChainFault(test[..at] + locked + test[at + 1..], reason)
  }

  lemma BuildInPlace(commands: seq<string>)
    ensures DependencyInPlace(commands) <==> FirstBuildChecked(commands)
  {
    hide BUILD, CHECK_DIST;
    var first := FirstIndex(commands, BUILD);
    if DependencyInPlace(commands) {
      assert BuildAt(commands, first);
    }
    forall at: nat | at + 1 < |commands| && BuildAt(commands, at) ensures first == at {
      assert forall q :: at < q <= |commands| ==> commands[..q][at] == BUILD;
      if first < |commands| {
        assert forall q :: first < q <= |commands| ==> commands[..q][first] == BUILD;
      }
    }
  }

  lemma ChainFaultIsNamed(commands: seq<string>, suites: seq<string>, weights: Weights, reason: Reason)
    ensures
      (ChainUnits(commands, suites, weights) == Invalid(reason) && reason != DuplicateUnit) <==>
      (ChainFault(commands, reason) && reason != DuplicateUnit)
    ensures ChainUnits(commands, suites, weights) == Invalid(DuplicateUnit) <==>
      ChainFault(commands, DuplicateUnit) && !ChainUnits(commands, suites, weights).Units?
    ensures ChainFault(commands, reason) ==> reason !in {BadWeight, EmptyCommand, LockedCount}
  {
    hide STRICT, BUILD, CHECK_DIST, DependencyInPlace, FirstBuildChecked, OnlyAt, UnitsFrom;
    BuildInPlace(commands);
    OnceAt(commands, STRICT);
    OnceAt(commands, BUILD);
    OnceAt(commands, CHECK_DIST);
  }

  /** What is named is what is wrong first; a repeated unit is named if nothing else is wrong. */
  lemma FaultExactly(scripts: Scripts, suites: seq<string>, weights: Weights, reason: Reason)
    ensures UnitsOf(scripts, suites, weights) == Invalid(reason) <==>
      FirstFault(scripts, weights, reason) && (reason == DuplicateUnit ==> !Acceptable(scripts, suites, weights))
  {
    hide LOCKED, ChainUnits, ChainFault, Splice, HasEmpty, Split, Acceptable, OnlyAt, Once, NoneBlank, SomethingIn;
    var test, locked := Split(scripts.test, AND), Split(scripts.locked, AND);
    NoBlanks(test);
    NoBlanks(locked);
    LockedOnce(test);
    AcceptedExactly(scripts, suites, weights);
    SplicedFault(test, locked, reason);
    ChainFaultIsNamed(Splice(test, locked), suites, weights, reason);
  }

  lemma NoBlanks(commands: seq<string>)
    ensures HasEmpty(commands) <==> !NoneBlank(commands)
  {
    hide HasEmpty, SomethingIn;
    Blanks(commands);
  }

  lemma LockedOnce(commands: seq<string>)
    ensures multiset(commands)[LOCKED] == 1 <==> Once(commands, LOCKED)
  {
    hide LOCKED, OnlyAt;
    OnceAt(commands, LOCKED);
  }

  lemma SplicedFault(test: seq<string>, locked: seq<string>, reason: Reason)
    ensures Once(test, LOCKED) && ChainFault(Splice(test, locked), reason) <==>
      exists at: nat :: OnlyAt(test, LOCKED, at) && ChainFault(test[..at] + locked + test[at + 1..], reason)
  {
    hide LOCKED, ChainFault, Splice, OnlyAt;
    forall at: nat | OnlyAt(test, LOCKED, at)
      ensures at < |test| && test[..at] + locked + test[at + 1..] == Splice(test, locked)
    {
      OneLocked(test, at);
      SpliceAt(test, locked, at);
    }
  }

  lemma OneLocked(commands: seq<string>, at: nat)
    requires OnlyAt(commands, LOCKED, at)
    ensures at < |commands|
    ensures forall other: nat :: OnlyAt(commands, LOCKED, other) ==> other == at
  {
    hide LOCKED;
  }
}
