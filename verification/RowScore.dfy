/** Recognised rows aligned with true rows at the least number of differences, and scored along that alignment. */
module RowScore {
  import opened Naturals

  datatype Quantity = Unknown | Count(n: nat)
  datatype Line = Line(partNo: string, qty: Quantity)

  datatype Score = Score(rows: nat, partRight: nat, partWrong: nat, missed: nat, extra: nat, qtyRight: nat,
    rowRight: nat)

  /** One step of an alignment: the next rows belong together, a true row has no counterpart, or a read row has none. */
  datatype Step = Pair | Miss | Extra

  // ---------- alignments ----------

  function TruthRows(steps: seq<Step>): nat {
    if steps == [] then 0 else TruthRows(steps[..|steps| - 1]) + if steps[|steps| - 1] == Extra then 0 else 1
  }

  function ReadRows(steps: seq<Step>): nat {
    if steps == [] then 0 else ReadRows(steps[..|steps| - 1]) + if steps[|steps| - 1] == Miss then 0 else 1
  }

  /** The steps align the first i true rows with the first j read rows. */
  predicate Aligns(steps: seq<Step>, i: nat, j: nat) {
    TruthRows(steps) == i && ReadRows(steps) == j
  }

  predicate Same(truth: seq<Line>, read: seq<Line>, i: nat, j: nat)
    requires 0 < i <= |truth| && 0 < j <= |read|
  {
    truth[i - 1].partNo == read[j - 1].partNo
  }

  function PairCost(truth: seq<Line>, read: seq<Line>, i: nat, j: nat): nat
    requires 0 < i <= |truth| && 0 < j <= |read|
  {
    if Same(truth, read, i, j) then 0 else 1
  }

  /** The number of differences along an alignment: pairs with other part numbers, missed rows and extra rows. */
  function Cost(truth: seq<Line>, read: seq<Line>, steps: seq<Step>): nat
    requires TruthRows(steps) <= |truth| && ReadRows(steps) <= |read|
  {
    if steps == [] then 0
    else
      Cost(truth, read, steps[..|steps| - 1]) +
      if steps[|steps| - 1] == Pair then PairCost(truth, read, TruthRows(steps), ReadRows(steps)) else 1
  }

  function Add(a: Score, b: Score): Score {
    Score(a.rows + b.rows, a.partRight + b.partRight, a.partWrong + b.partWrong, a.missed + b.missed,
          a.extra + b.extra, a.qtyRight + b.qtyRight, a.rowRight + b.rowRight)
  }

  const NOTHING := Score(0, 0, 0, 0, 0, 0, 0)

  function Bit(b: bool): nat { if b then 1 else 0 }

  /** What one step that ends at rows i and j adds to the score. */
  function StepScore(truth: seq<Line>, read: seq<Line>, step: Step, i: nat, j: nat): Score
    requires i <= |truth| && j <= |read| && (step == Pair ==> 0 < i && 0 < j)
  {
    match step
    case Pair =>
      var same, qty := Same(truth, read, i, j), truth[i - 1].qty == read[j - 1].qty;
      Score(1, Bit(same), Bit(!same), 0, 0, Bit(qty), Bit(qty && same))
    case Miss => Score(1, 0, 0, 1, 0, 0, 0)
    case Extra => Score(0, 0, 0, 0, 1, 0, 0)
  }

  /** The score along an alignment. */
  function ScoreOf(truth: seq<Line>, read: seq<Line>, steps: seq<Step>): Score
    requires TruthRows(steps) <= |truth| && ReadRows(steps) <= |read|
  {
    if steps == [] then NOTHING
    else
      Add(ScoreOf(truth, read, steps[..|steps| - 1]),
          StepScore(truth, read, steps[|steps| - 1], TruthRows(steps), ReadRows(steps)))
  }

  // ---------- the table and the way back through it ----------

  /** The entry of the table for the first i and j rows. */
  function Dist(truth: seq<Line>, read: seq<Line>, i: nat, j: nat): nat
    requires i <= |truth| && j <= |read|
  {
    if i == 0 then j
    else if j == 0 then i
    else Min(Min(Dist(truth, read, i - 1, j - 1) + PairCost(truth, read, i, j), Dist(truth, read, i - 1, j) + 1),
             Dist(truth, read, i, j - 1) + 1)
  }

  /** The last step the backtrace takes for the first i and j rows; among equals a pair first, then a missed row. */
  function LastStep(truth: seq<Line>, read: seq<Line>, i: nat, j: nat): Step
    requires i <= |truth| && j <= |read|
  {
    if i > 0 && j > 0 && Dist(truth, read, i, j) == Dist(truth, read, i - 1, j - 1) + PairCost(truth, read, i, j)
    then Pair
    else if i > 0 && Dist(truth, read, i, j) == Dist(truth, read, i - 1, j) + 1 then Miss
    else Extra
  }

  /** Where the backtrace falls through both tests there is a read row left. */
  lemma ExtraHasRow(truth: seq<Line>, read: seq<Line>, i: nat, j: nat)
    requires i <= |truth| && j <= |read| && (i > 0 || j > 0) && LastStep(truth, read, i, j) == Extra
    ensures j > 0 && Dist(truth, read, i, j) == Dist(truth, read, i, j - 1) + 1
  {
  }

  function Backtrace(truth: seq<Line>, read: seq<Line>, i: nat, j: nat): seq<Step>
    requires i <= |truth| && j <= |read|
    decreases i + j
  {
    if i == 0 && j == 0 then []
    else
      match LastStep(truth, read, i, j)
      case Pair => Backtrace(truth, read, i - 1, j - 1) + [Pair]
      case Miss => Backtrace(truth, read, i - 1, j) + [Miss]
      case Extra => ExtraHasRow(truth, read, i, j); Backtrace(truth, read, i, j - 1) + [Extra]
  }

  lemma RowsOfSteps(steps: seq<Step>, step: Step)
    ensures TruthRows(steps + [step]) == TruthRows(steps) + if step == Extra then 0 else 1
    ensures ReadRows(steps + [step]) == ReadRows(steps) + if step == Miss then 0 else 1
  {
    assert (steps + [step])[..|steps|] == steps;
  }

  lemma CostOfSteps(truth: seq<Line>, read: seq<Line>, steps: seq<Step>, step: Step)
    requires TruthRows(steps + [step]) <= |truth| && ReadRows(steps + [step]) <= |read|
    ensures TruthRows(steps) <= |truth| && ReadRows(steps) <= |read|
    ensures step == Pair ==> TruthRows(steps + [step]) > 0 && ReadRows(steps + [step]) > 0
    ensures Cost(truth, read, steps + [step]) == Cost(truth, read, steps) +
      if step == Pair then PairCost(truth, read, TruthRows(steps + [step]), ReadRows(steps + [step])) else 1
    ensures ScoreOf(truth, read, steps + [step]) == Add(ScoreOf(truth, read, steps),
      StepScore(truth, read, step, TruthRows(steps + [step]), ReadRows(steps + [step])))
  {
    assert (steps + [step])[..|steps|] == steps;
  }

  /** The rows left before the last step. */
  function Less(step: Step, i: nat, j: nat): (nat, nat)
    requires (step == Extra ==> j > 0) && (step == Miss ==> i > 0) && (step == Pair ==> i > 0 && j > 0)
  {
    (if step == Extra then i else i - 1, if step == Miss then j else j - 1)
  }

  lemma BacktraceStep(truth: seq<Line>, read: seq<Line>, i: nat, j: nat)
    requires i <= |truth| && j <= |read| && (i > 0 || j > 0)
    ensures
      var step := LastStep(truth, read, i, j);
      && (step == Extra ==> j > 0) && (step == Miss ==> i > 0) && (step == Pair ==> i > 0 && j > 0)
      && var (i', j') := Less(step, i, j);
      && i' + j' < i + j
      && Backtrace(truth, read, i, j) == Backtrace(truth, read, i', j') + [step]
      && Dist(truth, read, i, j) == Dist(truth, read, i', j') + if step == Pair then PairCost(truth, read, i, j) else 1
  {
    if LastStep(truth, read, i, j) == Extra {
      ExtraHasRow(truth, read, i, j);
    }
  }

  lemma {:induction false} BacktraceAligns(truth: seq<Line>, read: seq<Line>, i: nat, j: nat)
    requires i <= |truth| && j <= |read|
    ensures Aligns(Backtrace(truth, read, i, j), i, j)
    ensures Cost(truth, read, Backtrace(truth, read, i, j)) == Dist(truth, read, i, j)
    decreases i + j
  {
    if i > 0 || j > 0 {
      hide LastStep, Dist, Backtrace, TruthRows, ReadRows, Cost;
      BacktraceStep(truth, read, i, j);
      var step := LastStep(truth, read, i, j);
      var (i', j') := Less(step, i, j);
      BacktraceAligns(truth, read, i', j');
      RowsOfSteps(Backtrace(truth, read, i', j'), step);
      CostOfSteps(truth, read, Backtrace(truth, read, i', j'), step);
    }
  }

  /** No alignment has fewer differences than the table says. */
  lemma {:induction false} DistIsLeast(truth: seq<Line>, read: seq<Line>, steps: seq<Step>)
    requires TruthRows(steps) <= |truth| && ReadRows(steps) <= |read|
    ensures Dist(truth, read, TruthRows(steps), ReadRows(steps)) <= Cost(truth, read, steps)
  {
    if steps != [] {
      var front := steps[..|steps| - 1];
      DistIsLeast(truth, read, front);
      var i, j := TruthRows(steps), ReadRows(steps);
      if steps[|steps| - 1] != Pair {
        DistGrowsByOne(truth, read, TruthRows(front), ReadRows(front), i, j);
      }
    }
  }

  lemma DistGrowsByOne(truth: seq<Line>, read: seq<Line>, i: nat, j: nat, i': nat, j': nat)
    requires i <= i' <= |truth| && j <= j' <= |read| && i' + j' == i + j + 1
    ensures Dist(truth, read, i', j') <= Dist(truth, read, i, j) + 1
  {
  }

  // ---------- which of the best alignments it is ----------

  /** A pair before a missed row before an extra one. */
  function Place(step: Step): nat {
    match step
    case Pair => 0
    case Miss => 1
    case Extra => 2
  }

  /** Read from the end, the first alignment has the earlier step where the two differ first. */
  ghost predicate ComesFirst(first: seq<Step>, other: seq<Step>) {
    first == other ||
    exists n :: 0 < n <= |first| && n <= |other| && DifferAt(first, other, n)
  }

  ghost predicate DifferAt(first: seq<Step>, other: seq<Step>, n: nat)
    requires 0 < n <= |first| && n <= |other|
  {
    && first[|first| - n + 1..] == other[|other| - n + 1..]
    && Place(first[|first| - n]) < Place(other[|other| - n])
  }

  lemma BackStep(steps: seq<Step>, step: Step, n: nat)
    requires 0 < n <= |steps|
    ensures (steps + [step])[|steps| + 1 - n..] == steps[|steps| - n + 1..] + [step]
    ensures (steps + [step])[|steps| - n] == steps[|steps| - n]
  {
  }

  lemma ComesFirstStep(first: seq<Step>, other: seq<Step>, step: Step)
    requires ComesFirst(first, other)
    ensures ComesFirst(first + [step], other + [step])
  {
    if first != other {
      var n :| 0 < n <= |first| && n <= |other| && DifferAt(first, other, n);
      BackStep(first, step, n);
      BackStep(other, step, n);
      assert DifferAt(first + [step], other + [step], n + 1);
    }
  }

  lemma ComesFirstHere(first: seq<Step>, other: seq<Step>, a: Step, b: Step)
    requires Place(a) < Place(b)
    ensures ComesFirst(first + [a], other + [b])
  {
    var first', other' := first + [a], other + [b];
    assert first'[|first'|..] == other'[|other'|..] == [];
    assert DifferAt(first', other', 1);
  }

  /** Among all alignments with the fewest differences the backtrace is the one that comes first. */
  lemma {:induction false} BacktraceIsFirst(truth: seq<Line>, read: seq<Line>, steps: seq<Step>)
    requires TruthRows(steps) <= |truth| && ReadRows(steps) <= |read|
    requires Cost(truth, read, steps) == Dist(truth, read, TruthRows(steps), ReadRows(steps))
    ensures ComesFirst(Backtrace(truth, read, TruthRows(steps), ReadRows(steps)), steps)
  {
    if steps != [] {
      var front, step := steps[..|steps| - 1], steps[|steps| - 1];
      assert steps == front + [step];
      var i, j := TruthRows(steps), ReadRows(steps);
      var last := LastStep(truth, read, i, j);
      RowsOfSteps(front, step);
      CostOfSteps(truth, read, front, step);
      DistIsLeast(truth, read, front);
      hide ComesFirst, Cost, TruthRows, ReadRows;
      OptimalFront(truth, read, i, j, TruthRows(front), ReadRows(front), step, Cost(truth, read, front));
      BacktraceStep(truth, read, i, j);
      if last == step {
        BacktraceIsFirst(truth, read, front);
        ComesFirstStep(Backtrace(truth, read, TruthRows(front), ReadRows(front)), front, step);
      } else {
        var (i', j') := Less(last, i, j);
        ComesFirstHere(Backtrace(truth, read, i', j'), front, last, step);
      }
    }
  }

  /** The front of an alignment with the fewest differences has the fewest too, and its step passes its own test. */
  lemma OptimalFront(truth: seq<Line>, read: seq<Line>, i: nat, j: nat, i': nat, j': nat, step: Step, cost: nat)
    requires i <= |truth| && j <= |read| && i == i' + (if step == Extra then 0 else 1)
    requires j == j' + (if step == Miss then 0 else 1) && Dist(truth, read, i', j') <= cost
    requires Dist(truth, read, i, j) == cost + if step == Pair then PairCost(truth, read, i, j) else 1
    ensures cost == Dist(truth, read, i', j') && Place(LastStep(truth, read, i, j)) <= Place(step)
  {
    hide Dist, LastStep, PairCost;
    StepTests(truth, read, i, j);
    if step == Pair {
      DistStep(truth, read, i, j);
    } else {
      DistGrowsByOne(truth, read, i', j', i, j);
    }
  }

  // ---------- what the score adds up to ----------

  /**
   * Every true row is right, wrong or missed, every read row is right, wrong or extra, and the differences are
   * the cost of the alignment.
   */
  lemma {:induction false} ScoreAddsUp(truth: seq<Line>, read: seq<Line>, steps: seq<Step>)
    requires TruthRows(steps) <= |truth| && ReadRows(steps) <= |read|
    ensures
      var s := ScoreOf(truth, read, steps);
      && s.rows == TruthRows(steps)
      && s.partRight + s.partWrong + s.missed == TruthRows(steps)
      && s.partRight + s.partWrong + s.extra == ReadRows(steps)
      && s.partWrong + s.missed + s.extra == Cost(truth, read, steps)
      && 2 * s.partRight + s.partWrong + Cost(truth, read, steps) == TruthRows(steps) + ReadRows(steps)
      && s.rowRight <= s.qtyRight <= s.partRight + s.partWrong && s.rowRight <= s.partRight
      && s.qtyRight - s.rowRight <= s.partWrong
  {
    if steps != [] {
      ScoreAddsUp(truth, read, steps[..|steps| - 1]);
    }
  }

  // ---------- what each count of the score counts ----------

  /** Step k puts these two rows side by side. */
  predicate Beside(truth: seq<Line>, read: seq<Line>, steps: seq<Step>, k: int, t: Line, r: Line) {
    && 0 <= k < |steps| && steps[k] == Pair
    && 0 < TruthRows(steps[..k + 1]) <= |truth| && t == truth[TruthRows(steps[..k + 1]) - 1]
    && 0 < ReadRows(steps[..k + 1]) <= |read| && r == read[ReadRows(steps[..k + 1]) - 1]
  }

  /** Step k puts rows with equal part numbers side by side. */
  ghost predicate PartsAgree(truth: seq<Line>, read: seq<Line>, steps: seq<Step>, k: int) {
    exists t, r :: Beside(truth, read, steps, k, t, r) && t.partNo == r.partNo
  }

  /** Step k puts rows with equal quantities side by side. */
  ghost predicate QuantitiesAgree(truth: seq<Line>, read: seq<Line>, steps: seq<Step>, k: int) {
    exists t, r :: Beside(truth, read, steps, k, t, r) && t.qty == r.qty
  }

  /** What is counted in a score. */
  datatype Tally = TrueRows | RightParts | WrongParts | Missed | Extras | RightQuantities | RightRows

  function Tallied(s: Score, tally: Tally): nat {
    match tally
    case TrueRows => s.rows
    case RightParts => s.partRight
    case WrongParts => s.partWrong
    case Missed => s.missed
    case Extras => s.extra
    case RightQuantities => s.qtyRight
    case RightRows => s.rowRight
  }

  /** Step k belongs to a tally. */
  ghost predicate Belongs(truth: seq<Line>, read: seq<Line>, steps: seq<Step>, k: int, tally: Tally)
    requires 0 <= k < |steps|
  {
    match tally
    case TrueRows => steps[k] != Extra
    case RightParts => PartsAgree(truth, read, steps, k)
    case WrongParts => steps[k] == Pair && !PartsAgree(truth, read, steps, k)
    case Missed => steps[k] == Miss
    case Extras => steps[k] == Extra
    case RightQuantities => QuantitiesAgree(truth, read, steps, k)
    case RightRows => PartsAgree(truth, read, steps, k) && QuantitiesAgree(truth, read, steps, k)
  }

  ghost function Where(truth: seq<Line>, read: seq<Line>, steps: seq<Step>, tally: Tally): set<int> {
    set k | 0 <= k < |steps| && Belongs(truth, read, steps, k, tally)
  }

  /** Every count of the score is the number of steps that belong to it. */
  ghost predicate Counts(truth: seq<Line>, read: seq<Line>, steps: seq<Step>, s: Score) {
    forall tally :: Tallied(s, tally) == |Where(truth, read, steps, tally)|
  }

  lemma BesideOfFront(truth: seq<Line>, read: seq<Line>, steps: seq<Step>, k: int, t: Line, r: Line)
    requires 0 <= k < |steps| - 1
    ensures Beside(truth, read, steps[..|steps| - 1], k, t, r) == Beside(truth, read, steps, k, t, r)
  {
    assert steps[..|steps| - 1][..k + 1] == steps[..k + 1];
  }

  lemma AgreeOfFront(truth: seq<Line>, read: seq<Line>, steps: seq<Step>, k: int)
    requires 0 <= k < |steps| - 1
    ensures PartsAgree(truth, read, steps[..|steps| - 1], k) == PartsAgree(truth, read, steps, k)
    ensures QuantitiesAgree(truth, read, steps[..|steps| - 1], k) == QuantitiesAgree(truth, read, steps, k)
  {
    hide Beside;
    forall t, r ensures Beside(truth, read, steps[..|steps| - 1], k, t, r) == Beside(truth, read, steps, k, t, r) {
      BesideOfFront(truth, read, steps, k, t, r);
    }
  }

  /** What the last step adds to a tally. */
  lemma BelongsLast(truth: seq<Line>, read: seq<Line>, steps: seq<Step>, tally: Tally)
    requires steps != [] && TruthRows(steps) <= |truth| && ReadRows(steps) <= |read|
    ensures
      var k := |steps| - 1;
      Tallied(StepScore(truth, read, steps[k], TruthRows(steps), ReadRows(steps)), tally)
      == Bit(Belongs(truth, read, steps, k, tally))
  {
    var k := |steps| - 1;
    assert steps[..k + 1] == steps;
    if steps[k] == Pair {
      assert Beside(truth, read, steps, k, truth[TruthRows(steps) - 1], read[ReadRows(steps) - 1]);
    }
  }

  lemma BelongsFront(truth: seq<Line>, read: seq<Line>, steps: seq<Step>, k: int, tally: Tally)
    requires 0 <= k < |steps| - 1
    ensures Belongs(truth, read, steps[..|steps| - 1], k, tally) == Belongs(truth, read, steps, k, tally)
  {
    hide PartsAgree, QuantitiesAgree;
    AgreeOfFront(truth, read, steps, k);
  }

  lemma WhereGrows(truth: seq<Line>, read: seq<Line>, steps: seq<Step>, tally: Tally)
    requires steps != []
    ensures
      |Where(truth, read, steps, tally)|
      == |Where(truth, read, steps[..|steps| - 1], tally)| + Bit(Belongs(truth, read, steps, |steps| - 1, tally))
  {
    hide Belongs;
    var n := |steps| - 1;
    var was, now := Where(truth, read, steps[..n], tally), Where(truth, read, steps, tally);
    forall k | 0 <= k < n
      ensures Belongs(truth, read, steps[..n], k, tally) == Belongs(truth, read, steps, k, tally)
    {
      BelongsFront(truth, read, steps, k, tally);
    }
    assert now == if Belongs(truth, read, steps, n, tally) then was + {n} else was;
  }

  lemma AddTallied(a: Score, b: Score, tally: Tally)
    ensures Tallied(Add(a, b), tally) == Tallied(a, tally) + Tallied(b, tally)
  {
  }

  lemma {:induction false} ScoreCounts(truth: seq<Line>, read: seq<Line>, steps: seq<Step>)
    requires TruthRows(steps) <= |truth| && ReadRows(steps) <= |read|
    ensures Counts(truth, read, steps, ScoreOf(truth, read, steps))
  {
    hide Belongs, StepScore, Add, Tallied, Where;
    if steps == [] {
      NothingCounts(truth, read);
    } else {
      var front := steps[..|steps| - 1];
      ScoreCounts(truth, read, front);
      var last := StepScore(truth, read, steps[|steps| - 1], TruthRows(steps), ReadRows(steps));
      forall tally ensures Tallied(ScoreOf(truth, read, steps), tally) == |Where(truth, read, steps, tally)| {
        AddTallied(ScoreOf(truth, read, front), last, tally);
        BelongsLast(truth, read, steps, tally);
        WhereGrows(truth, read, steps, tally);
      }
    }
  }

  lemma NothingCounts(truth: seq<Line>, read: seq<Line>)
    ensures Counts(truth, read, [], NOTHING)
  {
    forall tally ensures Where(truth, read, [], tally) == {} && Tallied(NOTHING, tally) == 0 {
    }
  }

  // ---------- a perfect reading ----------

  /** Each row beside itself. */
  function Straight(n: nat): seq<Step> { if n == 0 then [] else Straight(n - 1) + [Pair] }

  lemma {:induction false} StraightIsFree(truth: seq<Line>, n: nat)
    requires n <= |truth|
    ensures Aligns(Straight(n), n, n) && Cost(truth, truth, Straight(n)) == 0
  {
    if n > 0 {
      hide TruthRows, ReadRows, Cost;
      StraightIsFree(truth, n - 1);
      RowsOfSteps(Straight(n - 1), Pair);
      CostOfSteps(truth, truth, Straight(n - 1), Pair);
    }
  }

  /** Along an alignment without differences both texts have the same rows so far, and all part numbers are right. */
  lemma {:induction false} FreeIsStraight(truth: seq<Line>, steps: seq<Step>)
    requires TruthRows(steps) <= |truth| && ReadRows(steps) <= |truth| && Cost(truth, truth, steps) == 0
    ensures TruthRows(steps) == ReadRows(steps)
    ensures
      var s, n := ScoreOf(truth, truth, steps), TruthRows(steps);
      s.partRight == n && s.qtyRight == n && s.rowRight == n
  {
    if steps != [] {
      FreeIsStraight(truth, steps[..|steps| - 1]);
    }
  }

  /** Scored against itself, everything is right. */
  lemma PerfectReading(truth: seq<Line>)
    ensures
      var n := |truth|;
      var steps := Backtrace(truth, truth, n, n);
      && Aligns(steps, n, n)
      && var s := ScoreOf(truth, truth, steps);
      s.rows == s.partRight == s.qtyRight == s.rowRight == n && s.partWrong == s.missed == s.extra == 0
  {
    hide *;
    var n := |truth|;
    StraightIsFree(truth, n);
    LeastCost(truth, truth, Straight(n), n, n);
    PerfectAlignment(truth, Backtrace(truth, truth, n, n));
  }

  lemma PerfectAlignment(truth: seq<Line>, steps: seq<Step>)
    requires Aligns(steps, |truth|, |truth|) && Cost(truth, truth, steps) == 0
    ensures
      var s, n := ScoreOf(truth, truth, steps), |truth|;
      s.rows == s.partRight == s.qtyRight == s.rowRight == n && s.partWrong == s.missed == s.extra == 0
  {
    FreeIsStraight(truth, steps);
    ScoreAddsUp(truth, truth, steps);
  }

  // ---------- the scorer as it runs ----------

  /** Row i of the table holds the distances up to column m. */
  ghost predicate RowDone(truth: seq<Line>, read: seq<Line>, cost: array2<nat>, i: nat, m: nat)
    requires cost.Length0 == |truth| + 1 && cost.Length1 == |read| + 1
    requires i <= |truth| && m <= |read|
    reads cost
  {
    forall l :: 0 <= l <= m ==> cost[i, l] == Dist(truth, read, i, l)
  }

  ghost predicate TableDone(truth: seq<Line>, read: seq<Line>, cost: array2<nat>)
    reads cost
  {
    && cost.Length0 == |truth| + 1 && cost.Length1 == |read| + 1
    && forall i, j :: 0 <= i <= |truth| && 0 <= j <= |read| ==> cost[i, j] == Dist(truth, read, i, j)
  }

  lemma DistStep(truth: seq<Line>, read: seq<Line>, i: nat, j: nat)
    requires i <= |truth| && j <= |read|
    ensures Dist(truth, read, 0, j) == j && Dist(truth, read, i, 0) == i
    ensures i > 0 && j > 0 ==>
      (Dist(truth, read, i, j)
       == Min(Min(Dist(truth, read, i - 1, j - 1) + PairCost(truth, read, i, j), Dist(truth, read, i - 1, j) + 1),
              Dist(truth, read, i, j - 1) + 1))
  {
  }

  method FillEdges(truth: seq<Line>, read: seq<Line>) returns (cost: array2<nat>)
    ensures fresh(cost) && cost.Length0 == |truth| + 1 && cost.Length1 == |read| + 1
    ensures forall k :: 0 <= k <= |truth| ==> cost[k, 0] == k
    ensures RowDone(truth, read, cost, 0, |read|)
  {
    var n, m := |truth|, |read|;
    cost := new nat[n + 1, m + 1]((_, _) => 0);
    for i := 1 to n + 1
      invariant forall k :: 0 <= k < i ==> cost[k, 0] == k
    {
      cost[i, 0] := i;
    }
    for j := 1 to m + 1
      invariant forall k :: 0 <= k <= n ==> cost[k, 0] == k
      invariant forall l :: 0 <= l < j ==> cost[0, l] == l
    {
      cost[0, j] := j;
    }
  }

  method FillRow(truth: seq<Line>, read: seq<Line>, cost: array2<nat>, i: nat)
    requires cost.Length0 == |truth| + 1 && cost.Length1 == |read| + 1
    requires 0 < i <= |truth| && RowDone(truth, read, cost, i - 1, |read|) && cost[i, 0] == i
    modifies cost
    ensures RowDone(truth, read, cost, i, |read|)
    ensures forall k, l :: 0 <= k <= |truth| && 0 <= l <= |read| && k != i ==> cost[k, l] == old(cost[k, l])
  {
    hide Dist;
    DistStep(truth, read, i, 0);
    for j := 1 to |read| + 1
      invariant forall k, l :: 0 <= k <= |truth| && 0 <= l <= |read| && k != i ==> cost[k, l] == old(cost[k, l])
      invariant RowDone(truth, read, cost, i, j - 1)
    {
      DistStep(truth, read, i, j);
      assert cost[i - 1, j - 1] == old(cost[i - 1, j - 1]) && cost[i - 1, j] == old(cost[i - 1, j]);
      assert cost[i, j - 1] == Dist(truth, read, i, j - 1);
      cost[i, j] := Min(Min(cost[i - 1, j - 1] + PairCost(truth, read, i, j), cost[i - 1, j] + 1), cost[i, j - 1] + 1);
    }
  }

  method FillTable(truth: seq<Line>, read: seq<Line>) returns (cost: array2<nat>)
    ensures fresh(cost) && TableDone(truth, read, cost)
  {
    hide Dist;
    cost := FillEdges(truth, read);
    for i := 1 to |truth| + 1
      invariant forall k :: i <= k <= |truth| ==> cost[k, 0] == k
      invariant forall k, l :: 0 <= k < i && 0 <= l <= |read| ==> cost[k, l] == Dist(truth, read, k, l)
    {
      FillRow(truth, read, cost, i);
    }
  }

  /** One step of the backtrace: rows i and j become i' and j'. */
  method StepBack(truth: seq<Line>, read: seq<Line>, cost: array2<nat>, i: nat, j: nat, score: Score)
    returns (i': nat, j': nat, score': Score)
    requires TableDone(truth, read, cost) && i <= |truth| && j <= |read| && (i > 0 || j > 0)
    ensures i' <= i && j' <= j && i' + j' < i + j
    ensures
      var step := LastStep(truth, read, i, j);
      && (step == Pair ==> 0 < i && 0 < j)
      && (i', j') == (if step == Extra then i else i - 1, if step == Miss then j else j - 1)
      && var added := StepScore(truth, read, step, i, j);
      score' == Add(score, added).(rows := score.rows)
  {
    hide Dist, LastStep;
    StepTests(truth, read, i, j);
    BacktraceStep(truth, read, i, j);
    i', j', score' := i, j, score;
    if i > 0 && j > 0 && cost[i, j] == cost[i - 1, j - 1] + PairCost(truth, read, i, j) {
      var qtyRight := truth[i - 1].qty == read[j - 1].qty;
      if Same(truth, read, i, j) {
        score' := score'.(partRight := score'.partRight + 1);
      } else {
        score' := score'.(partWrong := score'.partWrong + 1);
      }
      if qtyRight {
        score' := score'.(qtyRight := score'.qtyRight + 1);
      }
      if qtyRight && Same(truth, read, i, j) {
        score' := score'.(rowRight := score'.rowRight + 1);
      }
      i', j' := i - 1, j - 1;
    } else if i > 0 && cost[i, j] == cost[i - 1, j] + 1 {
      score' := score'.(missed := score'.missed + 1);
      i' := i - 1;
    } else {
      score' := score'.(extra := score'.extra + 1);
      j' := j - 1;
    }
  }

  /** What the backtrace still has to add at rows i and j. */
  ghost function Rest(truth: seq<Line>, read: seq<Line>, i: nat, j: nat): Score
    requires i <= |truth| && j <= |read|
  {
    BacktraceAligns(truth, read, i, j);
    ScoreOf(truth, read, Backtrace(truth, read, i, j))
  }

  lemma RestStep(truth: seq<Line>, read: seq<Line>, i: nat, j: nat)
    requires i <= |truth| && j <= |read| && (i > 0 || j > 0)
    ensures
      var step := LastStep(truth, read, i, j);
      && (step == Extra ==> j > 0) && (step == Miss ==> i > 0) && (step == Pair ==> i > 0 && j > 0)
      && var (i', j') := Less(step, i, j);
      Rest(truth, read, i, j) == Add(Rest(truth, read, i', j'), StepScore(truth, read, step, i, j))
  {
    hide LastStep, Dist, Backtrace, TruthRows, ReadRows, ScoreOf, StepScore;
    BacktraceScore(truth, read, i, j);
  }

  lemma RestOfNothing(truth: seq<Line>, read: seq<Line>)
    ensures Rest(truth, read, 0, 0) == NOTHING
  {
  }

  /**
   * The score counts the steps of the backtraced alignment, no alignment of the rows has fewer differences, and a
   * perfect reading gets everything right.
   */
  method ScoreRows(truth: seq<Line>, read: seq<Line>) returns (score: Score)
    ensures Aligns(Backtrace(truth, read, |truth|, |read|), |truth|, |read|)
    ensures score == ScoreOf(truth, read, Backtrace(truth, read, |truth|, |read|))
    ensures forall steps :: Aligns(steps, |truth|, |read|) ==>
      score.partWrong + score.missed + score.extra <= Cost(truth, read, steps)
    ensures score.rows == score.partRight + score.partWrong + score.missed == |truth|
    ensures score.partRight + score.partWrong + score.extra == |read|
    ensures Counts(truth, read, Backtrace(truth, read, |truth|, |read|), score)
    ensures truth == read ==> score.partRight == score.qtyRight == score.rowRight == |truth|
  {
    hide LastStep, Dist, Backtrace, TruthRows, ReadRows, ScoreOf, Cost, Rest, Counts;
    var n, m := |truth|, |read|;
    var cost := FillTable(truth, read);
    score := NOTHING.(rows := n);
    var i: nat, j: nat := n, m;
    WholeScore(truth, read);
    while i > 0 || j > 0
      invariant i <= n && j <= m && score.rows == n && TableDone(truth, read, cost)
      invariant Add(Rest(truth, read, i, j), score.(rows := n - i)) == Rest(truth, read, n, m)
      decreases i + j
    {
      RestStep(truth, read, i, j);
      i, j, score := StepBack(truth, read, cost, i, j, score);
    }
    RestOfNothing(truth, read);
    forall steps | Aligns(steps, n, m)
      ensures score.partWrong + score.missed + score.extra <= Cost(truth, read, steps)
    {
      LeastCost(truth, read, steps, n, m);
    }
    if truth == read {
      PerfectReading(truth);
    }
  }

  /** The whole backtrace adds up. */
  lemma WholeScore(truth: seq<Line>, read: seq<Line>)
    ensures
      var n, m := |truth|, |read|;
      var steps, s := Backtrace(truth, read, n, m), Rest(truth, read, n, m);
      && Aligns(steps, n, m) && s == ScoreOf(truth, read, steps)
      && s.rows == s.partRight + s.partWrong + s.missed == n
      && s.partRight + s.partWrong + s.extra == m
      && s.partWrong + s.missed + s.extra == Cost(truth, read, steps)
      && Counts(truth, read, steps, s)
  {
    hide Backtrace, TruthRows, ReadRows, ScoreOf, Cost, Counts;
    BacktraceAligns(truth, read, |truth|, |read|);
    ScoreCounts(truth, read, Backtrace(truth, read, |truth|, |read|));
    ScoreAddsUp(truth, read, Backtrace(truth, read, |truth|, |read|));
  }

  lemma LeastCost(truth: seq<Line>, read: seq<Line>, steps: seq<Step>, i: nat, j: nat)
    requires i <= |truth| && j <= |read| && Aligns(steps, i, j)
    ensures Aligns(Backtrace(truth, read, i, j), i, j)
    ensures Cost(truth, read, Backtrace(truth, read, i, j)) <= Cost(truth, read, steps)
  {
    hide Dist, Backtrace, Cost;
    BacktraceAligns(truth, read, i, j);
    DistIsLeast(truth, read, steps);
  }

  /** The tests on the table pick the last step. */
  lemma StepTests(truth: seq<Line>, read: seq<Line>, i: nat, j: nat)
    requires i <= |truth| && j <= |read|
    ensures LastStep(truth, read, i, j) ==
      if i > 0 && j > 0 && Dist(truth, read, i, j) == Dist(truth, read, i - 1, j - 1) + PairCost(truth, read, i, j)
      then Pair
      else if i > 0 && Dist(truth, read, i, j) == Dist(truth, read, i - 1, j) + 1 then Miss
      else Extra
  {
    hide Dist;
  }

  lemma BacktraceScore(truth: seq<Line>, read: seq<Line>, i: nat, j: nat)
    requires i <= |truth| && j <= |read| && (i > 0 || j > 0)
    ensures
      var step := LastStep(truth, read, i, j);
      && (step == Extra ==> j > 0) && (step == Miss ==> i > 0) && (step == Pair ==> i > 0 && j > 0)
      && var (i', j') := Less(step, i, j);
      && Aligns(Backtrace(truth, read, i', j'), i', j') && Aligns(Backtrace(truth, read, i, j), i, j)
      && ScoreOf(truth, read, Backtrace(truth, read, i, j))
         == Add(ScoreOf(truth, read, Backtrace(truth, read, i', j')), StepScore(truth, read, step, i, j))
  {
    hide LastStep, Dist, Backtrace, TruthRows, ReadRows, ScoreOf;
    BacktraceStep(truth, read, i, j);
    var step := LastStep(truth, read, i, j);
    var (i', j') := Less(step, i, j);
    BacktraceAligns(truth, read, i, j);
    BacktraceAligns(truth, read, i', j');
    CostOfSteps(truth, read, Backtrace(truth, read, i', j'), step);
  }
}
