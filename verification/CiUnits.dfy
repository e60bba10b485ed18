/** The complete test chain cut into schedulable units. */
module CiUnits {
  import opened Sequences
  import opened Text

  const LOCKED := "pnpm -s test:locked"
  const STRICT := "TENANCY_STRICT=1 " + "tsx scripts/test-tenancy-strict.ts"
  /** The only pair of commands that must stay together: the second reads what the first builds. */
  const BUILD := "pnpm --filter console build"
  const CHECK_DIST := "tsx scripts/check-console-dist.ts"
  const AND := " && "

  lemma NamesDiffer()
    ensures STRICT != BUILD && STRICT != CHECK_DIST && BUILD != CHECK_DIST
  {
    assert |STRICT| == 51 && |BUILD| == 27 && |CHECK_DIST| == 33;
  }

  datatype Scripts = Scripts(test: string, locked: string)
  datatype StrictSuite = Ordinary | Suite(name: string)
  datatype Unit = Unit(id: string, commands: seq<string>, seconds: real, strictSuite: StrictSuite)
  type Weights = map<string, real>

  datatype Reason =
    | BadWeight | EmptyCommand | LockedCount | StrictCount | DependencyMissing | DependencyRepeated | DuplicateUnit
  datatype Built = Units(units: seq<Unit>) | Invalid(reason: Reason)

  // ---------- the chain ----------

  predicate HasEmpty(commands: seq<string>) {
    exists i :: 0 <= i < |commands| && IsBlank(commands[i])
  }

  /** The chain with the test:locked entry replaced by that script's own commands. */
  function Splice(commands: seq<string>, locked: seq<string>): seq<string> {
    if commands == [] then []
    else (if commands[0] == LOCKED then locked else [commands[0]]) + Splice(commands[1..], locked)
  }

  datatype Chain = Chain(commands: seq<string>) | BadChain(reason: Reason)

  function ExpandLocked(scripts: Scripts): Chain {
    var commands := Split(scripts.test, AND);
    var locked := Split(scripts.locked, AND);
    if HasEmpty(commands) then BadChain(EmptyCommand)
    else if multiset(commands)[LOCKED] != 1 then BadChain(LockedCount)
    else if HasEmpty(locked) then BadChain(EmptyCommand)
    else Chain(Splice(commands, locked))
  }

  function StrictCommand(suite: string): string {
    STRICT + " --suite " + suite
  }

  /** Every command a full run executes: the strict entry point stands for one command per suite. */
  function Expand(commands: seq<string>, suites: seq<string>): seq<string> {
    if commands == [] then []
    else (if commands[0] == STRICT then seq(|suites|, i requires 0 <= i < |suites| => StrictCommand(suites[i]))
          else [commands[0]]) + Expand(commands[1..], suites)
  }

  // ---------- units ----------

  function Lookup(weights: Weights, first: string, second: string): real {
    if first in weights then weights[first] else if second in weights then weights[second] else 10.0
  }

  function Weight(command: string, weights: Weights): real {
    var words := Split(command, " ");
    Lookup(weights, words[|words| - 1], command)
  }

  function StrictUnit(suite: string, weights: Weights): Unit {
    var id := "strict:" + suite;
    Unit(id, [StrictCommand(suite)], Lookup(weights, id, suite), Suite(suite))
  }

  function StrictUnits(suites: seq<string>, weights: Weights): seq<Unit> {
    seq(|suites|, i requires 0 <= i < |suites| => StrictUnit(suites[i], weights))
  }

  function PlainUnit(command: string, weights: Weights): Unit {
    Unit(command, [command], Weight(command, weights), Ordinary)
  }

  function DependencyUnit(weights: Weights): Unit {
    Unit(Join([BUILD, CHECK_DIST], AND), [BUILD, CHECK_DIST],
         Weight(BUILD, weights) + Weight(CHECK_DIST, weights), Ordinary)
  }

  /** The units that start at a command: the strict suites, a dependency group or the command alone. */
  function Group(command: string, suites: seq<string>, weights: Weights): seq<Unit> {
    if command == STRICT then StrictUnits(suites, weights)
    else if command == BUILD then [DependencyUnit(weights)]
    else [PlainUnit(command, weights)]
  }

  /** The index behind the group that starts at index. */
  function Next(commands: seq<string>, index: nat): (r: nat)
    requires index < |commands|
    ensures index < r <= |commands|
  {
    if commands[index] == BUILD && index + 2 <= |commands| then index + 2 else index + 1
  }

  /** The units of the commands from index on. */
  function UnitsFrom(commands: seq<string>, index: nat, suites: seq<string>, weights: Weights): seq<Unit>
    requires index <= |commands|
    decreases |commands| - index
  {
    if index == |commands| then []
    else Group(commands[index], suites, weights) + UnitsFrom(commands, Next(commands, index), suites, weights)
  }

  predicate Positive(weights: Weights) {
    forall name :: name in weights ==> weights[name] > 0.0
  }

  function FirstIndex(commands: seq<string>, command: string): (r: nat)
    ensures r <= |commands|
    ensures command !in commands[..r]
    ensures r < |commands| ==> commands[r] == command
  {
    if commands == [] || commands[0] == command then 0 else FirstIndex(commands[1..], command) + 1
  }

  /** The first build is directly followed by the check that reads its output. */
  predicate DependencyInPlace(commands: seq<string>) {
    var start := FirstIndex(commands, BUILD);
    start + 1 < |commands| && commands[start + 1] == CHECK_DIST
  }

  function Ids(units: seq<Unit>): seq<string> {
    seq(|units|, i requires 0 <= i < |units| => units[i].id)
  }

  /** The units of an expanded chain, or the first check it fails. */
  ghost function ChainUnits(commands: seq<string>, suites: seq<string>, weights: Weights): Built {
    if multiset(commands)[STRICT] != 1 then Invalid(StrictCount)
    else if !DependencyInPlace(commands) then Invalid(DependencyMissing)
    else if multiset(commands)[BUILD] != 1 || multiset(commands)[CHECK_DIST] != 1 then Invalid(DependencyRepeated)
    else if !Distinct(Ids(UnitsFrom(commands, 0, suites, weights))) then Invalid(DuplicateUnit)
    else Units(UnitsFrom(commands, 0, suites, weights))
  }

  /** What buildUnits returns or throws. */
  ghost function UnitsOf(scripts: Scripts, suites: seq<string>, weights: Weights): Built {
    if !Positive(weights) then Invalid(BadWeight)
    else match ExpandLocked(scripts)
      case BadChain(reason) => Invalid(reason)
      case Chain(commands) => ChainUnits(commands, suites, weights)
  }

  // ---------- the estimates ----------

  /** The text behind the last space of a command, the whole command if it has none. */
  predicate LastWord(command: string, word: string) {
    && ' ' !in word && |word| <= |command| && command[|command| - |word|..] == word
    && (|word| < |command| ==> command[|command| - |word| - 1] == ' ')
  }

  /** The table gives these seconds under the first name, else under the second, else it is ten. */
  predicate Takes(weights: Weights, first: string, second: string, seconds: real) {
    && (first in weights ==> seconds == weights[first])
    && (first !in weights && second in weights ==> seconds == weights[second])
    && (first !in weights && second !in weights ==> seconds == 10.0)
  }

  ghost predicate CommandTakes(weights: Weights, command: string, seconds: real) {
    exists word :: LastWord(command, word) && Takes(weights, word, command, seconds)
  }

  function Added(each: seq<real>): real {
    if each == [] then 0.0 else Added(each[..|each| - 1]) + each[|each| - 1]
  }

  ghost predicate Each(weights: Weights, commands: seq<string>, each: seq<real>) {
    |each| == |commands| && forall k :: 0 <= k < |commands| ==> CommandTakes(weights, commands[k], each[k])
  }

  /** The seconds are the sum over the commands. */
  ghost predicate AllTake(weights: Weights, commands: seq<string>, seconds: real) {
    exists each :: Each(weights, commands, each) && seconds == Added(each)
  }

  /** What the table says about a unit. */
  ghost predicate Recorded(u: Unit, weights: Weights, seconds: real) {
    match u.strictSuite
    case Ordinary => AllTake(weights, u.commands, seconds)
    case Suite(name) => Takes(weights, "strict:" + name, name, seconds)
  }

  /** What a unit of the chain consists of: one suite, the build with its check, or one other command. */
  predicate Shaped(u: Unit) {
    match u.strictSuite
    case Suite(name) => u.id == "strict:" + name && u.commands == [STRICT + " --suite " + name]
    case Ordinary =>
      || (u.id == BUILD + AND + CHECK_DIST && u.commands == [BUILD, CHECK_DIST])
      || (u.id != STRICT && u.id != BUILD && u.commands == [u.id])
  }

  lemma {:induction false} LastPiece(s: string)
    ensures LastWord(s, Split(s, " ")[|Split(s, " ")| - 1])
  {
    hide LastWord;
    var k := IndexOf(s, " ", 0);
    if k < 0 {
      OnlyWord(s);
    } else {
      var words := Split(s[k + 1..], " ");
      LastPiece(s[k + 1..]);
      assert Split(s, " ") == [s[..k]] + words;
      LastBehind(s, k, words[|words| - 1]);
    }
  }

  lemma OnlyWord(s: string)
    requires IndexOf(s, " ", 0) < 0
    ensures LastWord(s, s)
  {
    forall j | 0 <= j < |s| ensures s[j] != ' ' {
      assert !MatchesAt(s, " ", j);
    }
    assert s[0..] == s;
  }

  lemma EndsIn(s: string, front: string, word: string)
    requires s == front + word
    ensures |word| <= |s| && s[|s| - |word|..] == word
    ensures front != "" ==> |word| < |s| && s[|s| - |word| - 1] == front[|front| - 1]
  {
  }

  lemma LastBehind(s: string, k: nat, word: string)
    requires k < |s| && s[k] == ' ' && LastWord(s[k + 1..], word)
    ensures LastWord(s, word)
  {
    var rest := s[k + 1..];
    var front := rest[..|rest| - |word|];
    assert rest == front + word;
    assert s == s[..k] + " " + front + word;
    EndsIn(rest, front, word);
    EndsIn(s, s[..k] + " " + front, word);
  }

  lemma SuffixHas(s: string, t: string)
    requires |t| <= |s| && s[|s| - |t|..] == t
    ensures forall p :: |s| - |t| <= p < |s| ==> s[p] in t
  {
    forall p | |s| - |t| <= p < |s| ensures s[p] in t {
      assert s[p] == t[p - (|s| - |t|)];
    }
  }

  lemma LastWordIsOne(command: string, a: string, b: string)
    requires LastWord(command, a) && LastWord(command, b)
    ensures a == b
  {
    SuffixHas(command, a);
    SuffixHas(command, b);
  }

  lemma OneCommandRecord(command: string, weights: Weights, x: real, y: real)
    requires CommandTakes(weights, command, x) && CommandTakes(weights, command, y)
    ensures x == y
  {
    var a :| LastWord(command, a) && Takes(weights, a, command, x);
    var b :| LastWord(command, b) && Takes(weights, b, command, y);
    LastWordIsOne(command, a, b);
  }

  lemma OneSum(commands: seq<string>, weights: Weights, x: real, y: real)
    requires AllTake(weights, commands, x) && AllTake(weights, commands, y)
    ensures x == y
  {
    var a :| Each(weights, commands, a) && x == Added(a);
    var b :| Each(weights, commands, b) && y == Added(b);
    forall k | 0 <= k < |commands| ensures a[k] == b[k] {
      OneCommandRecord(commands[k], weights, a[k], b[k]);
    }
    assert a == b;
  }

  /** The table says one thing about a unit. */
  lemma OneRecord(u: Unit, weights: Weights, x: real, y: real)
    requires Recorded(u, weights, x) && Recorded(u, weights, y)
    ensures x == y
  {
    if u.strictSuite.Ordinary? {
      OneSum(u.commands, weights, x, y);
    }
  }

  lemma WeightTaken(command: string, weights: Weights)
    ensures CommandTakes(weights, command, Weight(command, weights))
  {
    LastPiece(command);
    var words := Split(command, " ");
    assert Takes(weights, words[|words| - 1], command, Weight(command, weights));
  }

  lemma OneTakes(command: string, weights: Weights, x: real)
    requires CommandTakes(weights, command, x)
    ensures AllTake(weights, [command], x)
  {
    assert Each(weights, [command], [x]) && Added([x]) == x;
  }

  lemma TwoTake(a: string, b: string, weights: Weights, x: real, y: real)
    requires CommandTakes(weights, a, x) && CommandTakes(weights, b, y)
    ensures AllTake(weights, [a, b], x + y)
  {
    assert [x, y][..1] == [x] && Added([x]) == x;
    assert Each(weights, [a, b], [x, y]) && Added([x, y]) == x + y;
  }

  lemma JoinTwo(a: string, b: string, sep: string)
    ensures Join([a, b], sep) == a + sep + b
  {
    assert [a, b][1..] == [b];
  }

  lemma GroupRecorded(command: string, suites: seq<string>, weights: Weights)
    ensures forall u :: u in Group(command, suites, weights) ==> Recorded(u, weights, u.seconds) && Shaped(u)
  {
    hide STRICT, BUILD, CHECK_DIST, AND;
    if command == BUILD {
      WeightTaken(BUILD, weights);
      WeightTaken(CHECK_DIST, weights);
      TwoTake(BUILD, CHECK_DIST, weights, Weight(BUILD, weights), Weight(CHECK_DIST, weights));
      JoinTwo(BUILD, CHECK_DIST, AND);
    } else if command != STRICT {
      WeightTaken(command, weights);
      OneTakes(command, weights, Weight(command, weights));
    }
  }

  lemma {:induction false} RecordedFrom(commands: seq<string>, index: nat, suites: seq<string>, weights: Weights)
    requires index <= |commands|
    ensures forall u :: u in UnitsFrom(commands, index, suites, weights) ==>
      Recorded(u, weights, u.seconds) && Shaped(u)
    decreases |commands| - index
  {
    hide Group, Recorded, Shaped, Next;
    if index < |commands| {
      GroupRecorded(commands[index], suites, weights);
      RecordedFrom(commands, Next(commands, index), suites, weights);
    }
  }

  lemma UnitsRecorded(scripts: Scripts, suites: seq<string>, weights: Weights)
    requires UnitsOf(scripts, suites, weights).Units?
    ensures forall u :: u in UnitsOf(scripts, suites, weights).units ==> Recorded(u, weights, u.seconds) && Shaped(u)
  {
    hide Recorded, Shaped, UnitsFrom, DependencyInPlace, Distinct;
    RecordedFrom(ExpandLocked(scripts).commands, 0, suites, weights);
  }

  lemma UnitsDistinct(scripts: Scripts, suites: seq<string>, weights: Weights, i: nat, j: nat)
    requires UnitsOf(scripts, suites, weights).Units?
    requires i < |UnitsOf(scripts, suites, weights).units| && j < |UnitsOf(scripts, suites, weights).units| && i != j
    ensures UnitsOf(scripts, suites, weights).units[i] != UnitsOf(scripts, suites, weights).units[j]
  {
    hide UnitsFrom, DependencyInPlace, Positive;
    var units := UnitsOf(scripts, suites, weights).units;
    assert Distinct(Ids(units));
    assert Ids(units)[i] != Ids(units)[j];
  }

  lemma {:induction false} DistinctCount<T>(xs: seq<T>)
    ensures |set x | x in xs| <= |xs|
    ensures |set x | x in xs| == |xs| <==> Distinct(xs)
  {
    if xs != [] {
      var front, last := xs[..|xs| - 1], xs[|xs| - 1];
      DistinctCount(front);
      var s, t := set x | x in xs, set x | x in front;
      assert xs == front + [last];
      assert s == t + {last};
      if last in t {
        assert s == t;
        var i :| 0 <= i < |front| && front[i] == last;
        assert xs[i] == xs[|xs| - 1];
      } else {
        assert |s| == |t| + 1;
        assert Distinct(xs) <==> Distinct(front) by {
          if Distinct(front) {
            forall i, j | 0 <= i < j < |xs| ensures xs[i] != xs[j] {
              if j == |front| {
                assert front[i] in t;
              } else {
                assert front[i] != front[j];
              }
            }
          } else {
            var i, j :| 0 <= i < j < |front| && front[i] == front[j];
            assert xs[i] == xs[j];
          }
        }
      }
    }
  }

  lemma IdCount(units: seq<Unit>)
    ensures |set unit | unit in units :: unit.id| == |units| <==> Distinct(Ids(units))
  {
    DistinctCount(Ids(units));
    forall unit | unit in units ensures unit.id in Ids(units) {
      var i :| 0 <= i < |units| && units[i] == unit;
      assert Ids(units)[i] == unit.id;
    }
    assert (set id | id in Ids(units)) == set unit | unit in units :: unit.id;
  }

  method GroupCommands(commands: seq<string>, suites: seq<string>, weights: Weights) returns (units: seq<Unit>)
    ensures units == UnitsFrom(commands, 0, suites, weights)
  {
    hide STRICT, BUILD, CHECK_DIST;
    NamesDiffer();
    units := [];
    var index := 0;
    while index < |commands|
      invariant index <= |commands|
      invariant units + UnitsFrom(commands, index, suites, weights) == UnitsFrom(commands, 0, suites, weights)
    {
      var command := commands[index];
      var group: seq<Unit>;
      var length := 1;
      if command == STRICT {
        group := StrictUnits(suites, weights);
      } else if command == BUILD {
        group := [DependencyUnit(weights)];
        length := 2;
      } else {
        group := [PlainUnit(command, weights)];
      }
      var next := if index + length <= |commands| then index + length else |commands|;
      assert group == Group(command, suites, weights) && next == Next(commands, index);
      Concat(units, group, UnitsFrom(commands, next, suites, weights));
      units := units + group;
      index := next;
    }
  }

  method BuildUnits(scripts: Scripts, suites: seq<string>, weights: Weights) returns (r: Built)
    ensures r == UnitsOf(scripts, suites, weights)
    ensures r.Units? ==> forall u :: u in r.units ==> Recorded(u, weights, u.seconds) && Shaped(u)
  {
    if !Positive(weights) {
      return Invalid(BadWeight);
    }
    var chain := ExpandLocked(scripts);
    if chain.BadChain? {
      return Invalid(chain.reason);
    }
    var commands := chain.commands;
    if multiset(commands)[STRICT] != 1 {
      return Invalid(StrictCount);
    }
    if !DependencyInPlace(commands) {
      return Invalid(DependencyMissing);
    }
    if multiset(commands)[BUILD] != 1 || multiset(commands)[CHECK_DIST] != 1 {
      return Invalid(DependencyRepeated);
    }
    var units := GroupCommands(commands, suites, weights);
    IdCount(units);
    if |set unit | unit in units :: unit.id| != |units| {
      return Invalid(DuplicateUnit);
    }
    UnitsRecorded(scripts, suites, weights);
    return Units(units);
  }
}
