/** Longest-first allocation of units to shards, and how far from the best schedule it can be. */
module CiAllocate {
  import opened Sequences
  import opened Sorting
  import opened CiUnits

  /** A unit with its position in the chain. */
  datatype Item = Item(unit: Unit, index: nat)

  const MAX_SAFE_INTEGER := 9007199254740991
  const MAX_ARRAY_LENGTH := 4294967295

  function Seconds(x: Item): real { x.unit.seconds }

  function UnitSeconds(u: Unit): real { u.seconds }

  /** Longer first, chain order among equals. */
  predicate Longer(a: Item, b: Item) {
    a.unit.seconds > b.unit.seconds || (a.unit.seconds == b.unit.seconds && a.index <= b.index)
  }

  function Items(units: seq<Unit>): seq<Item> {
    seq(|units|, i requires 0 <= i < |units| => Item(units[i], i))
  }

  function Strip(items: seq<Item>): seq<Unit> {
    seq(|items|, i requires 0 <= i < |items| => items[i].unit)
  }

  function LongestFirst(units: seq<Unit>): seq<Item> {
    Sort(Items(units), Longer)
  }

  // ---------- the greedy rule ----------

  function Total(items: seq<Item>): real { Sum(items, Seconds) }

  /** The first of the shards with the least total. */
  function Lightest(shards: seq<seq<Item>>): (k: nat)
    requires |shards| > 0
    ensures k < |shards|
    ensures forall t :: 0 <= t < |shards| ==> Total(shards[k]) <= Total(shards[t])
    ensures forall t :: 0 <= t < k ==> Total(shards[k]) < Total(shards[t])
  {
    if |shards| == 1 then 0
    else
      var n := |shards| - 1;
      var k := Lightest(shards[..n]);
      assert Total(shards[..n][k]) == Total(shards[k]);
      assert forall t :: 0 <= t < n ==> shards[..n][t] == shards[t];
      if Total(shards[n]) < Total(shards[k]) then n else k
  }

  /** Places the items one after the other, each on the shard that is lightest by then. */
  function Place(items: seq<Item>, count: nat): (shards: seq<seq<Item>>)
    requires count > 0
    ensures |shards| == count
  {
    if items == [] then seq(count, _ => [])
    else
      var before := Place(items[..|items| - 1], count);
      var k := Lightest(before);
      before[k := before[k] + [items[|items| - 1]]]
  }

  lemma PlaceSnoc(items: seq<Item>, x: Item, count: nat)
    requires count > 0
    ensures
      var before := Place(items, count);
      var k := Lightest(before);
      Place(items + [x], count) == before[k := before[k] + [x]]
  {
    assert (items + [x])[..|items|] == items;
  }

  /** Every item goes where alt sends its chain position: an arbitrary schedule to compare with. */
  ghost function Assigned(items: seq<Item>, alt: nat -> nat, count: nat): (shards: seq<seq<Item>>)
    requires forall x :: x in items ==> alt(x.index) < count
    ensures |shards| == count
  {
    if items == [] then seq(count, _ => [])
    else
      var x := items[|items| - 1];
      var before := Assigned(items[..|items| - 1], alt, count);
      before[alt(x.index) := before[alt(x.index)] + [x]]
  }

  ghost function SumOverShards(shards: seq<seq<Item>>, v: Item -> real): real {
    if shards == [] then 0.0
    else SumOverShards(shards[..|shards| - 1], v) + Sum(shards[|shards| - 1], v)
  }

  lemma {:induction false} SumAfterPush(shards: seq<seq<Item>>, k: nat, x: Item, v: Item -> real)
    requires k < |shards|
    ensures SumOverShards(shards[k := shards[k] + [x]], v) == SumOverShards(shards, v) + v(x)
  {
    var n := |shards| - 1;
    var pushed := shards[k := shards[k] + [x]];
    if k == n {
      assert pushed[..n] == shards[..n];
      SumSnoc(shards[k], x, v);
    } else {
      assert pushed[..n] == shards[..n][k := shards[..n][k] + [x]];
      SumAfterPush(shards[..n], k, x, v);
    }
  }

  lemma {:induction false} SumOfEmpty(count: nat, v: Item -> real)
    ensures SumOverShards(seq(count, _ => []), v) == 0.0
  {
    if count > 0 {
      assert seq(count, _ => [])[..count - 1] == seq<seq<Item>>(count - 1, _ => []);
      SumOfEmpty(count - 1, v);
    }
  }

  lemma {:induction false} SumPlaced(items: seq<Item>, count: nat, v: Item -> real)
    requires count > 0
    ensures SumOverShards(Place(items, count), v) == Sum(items, v)
  {
    if items == [] {
      SumOfEmpty(count, v);
    } else {
      var before := Place(items[..|items| - 1], count);
      SumPlaced(items[..|items| - 1], count, v);
      SumAfterPush(before, Lightest(before), items[|items| - 1], v);
    }
  }

  lemma {:induction false} SumAssigned(items: seq<Item>, alt: nat -> nat, count: nat, v: Item -> real)
    requires forall x :: x in items ==> alt(x.index) < count
    ensures SumOverShards(Assigned(items, alt, count), v) == Sum(items, v)
  {
    if items == [] {
      SumOfEmpty(count, v);
    } else {
      var x := items[|items| - 1];
      SumAssigned(items[..|items| - 1], alt, count, v);
      SumAfterPush(Assigned(items[..|items| - 1], alt, count), alt(x.index), x, v);
    }
  }

  /** n copies of a added up. */
  ghost function Times(n: nat, a: real): real {
    if n == 0 then 0.0 else Times(n - 1, a) + a
  }

  lemma {:induction false} TimesProduct(n: nat, a: real)
    ensures Times(n, a) == n as real * a
  {
    if n > 0 {
      TimesProduct(n - 1, a);
    }
  }

  lemma {:induction false} SumBelow(shards: seq<seq<Item>>, v: Item -> real, hi: real)
    requires forall s :: 0 <= s < |shards| ==> Sum(shards[s], v) <= hi
    ensures SumOverShards(shards, v) <= Times(|shards|, hi)
  {
    if shards != [] {
      assert forall s :: 0 <= s < |shards| - 1 ==> shards[..|shards| - 1][s] == shards[s];
      SumBelow(shards[..|shards| - 1], v, hi);
    }
  }

  lemma {:induction false} SumAbove(shards: seq<seq<Item>>, v: Item -> real, lo: real)
    requires forall s :: 0 <= s < |shards| ==> Sum(shards[s], v) >= lo
    ensures SumOverShards(shards, v) >= Times(|shards|, lo)
  {
    if shards != [] {
      assert forall s :: 0 <= s < |shards| - 1 ==> shards[..|shards| - 1][s] == shards[s];
      SumAbove(shards[..|shards| - 1], v, lo);
    }
  }

  // ---------- the 4/3 bound ----------

  /** An item counts double when it does not fit beside one of length p within limit. */
  ghost function Bulk(p: real, limit: real): Item -> real {
    x => if Seconds(x) + p > limit then 2.0 else 1.0
  }

  /** With items longer than a third of the limit, bulk tells exactly how full a shard is. */
  lemma {:induction false} BulkMeasures(shard: seq<Item>, p: real, limit: real)
    requires 0.0 <= p && 3.0 * p > limit
    requires forall x :: x in shard ==> Seconds(x) >= p
    ensures
      var b, t := Sum(shard, Bulk(p, limit)), Total(shard);
      || (b == 0.0 && t == 0.0)
      || (b == 1.0 && p <= t && t + p <= limit)
      || (b == 2.0 && t + p > limit)
      || (b >= 3.0 && t > limit)
  {
    if shard != [] {
      BulkMeasures(shard[..|shard| - 1], p, limit);
      assert shard[|shard| - 1] in shard;
    }
  }

  /** A schedule within the limit leaves bulk for at most two per shard. */
  lemma BulkFits(items: seq<Item>, p: real, alt: nat -> nat, count: nat, limit: real)
    requires 0.0 <= p && 3.0 * p > limit
    requires forall y :: y in items ==> Seconds(y) >= p
    requires forall y :: y in items ==> alt(y.index) < count
    requires forall s :: 0 <= s < count ==> Total(Assigned(items, alt, count)[s]) <= limit
    ensures Sum(items, Bulk(p, limit)) <= Times(count, 2.0)
  {
    var bulk := Bulk(p, limit);
    var others := Assigned(items, alt, count);
    forall s | 0 <= s < count ensures Sum(others[s], bulk) <= 2.0 {
      AssignedElements(items, alt, count, s);
      BulkMeasures(others[s], p, limit);
    }
    SumBelow(others, bulk, 2.0);
    SumAssigned(items, alt, count, bulk);
  }

  /** Shards on which nothing of length p fits hold bulk of at least two each. */
  lemma BulkOfFullShards(shards: seq<seq<Item>>, p: real, limit: real)
    requires 0.0 <= p <= limit && 3.0 * p > limit
    requires forall s, y :: 0 <= s < |shards| && y in shards[s] ==> Seconds(y) >= p
    requires forall s :: 0 <= s < |shards| ==> Total(shards[s]) + p > limit
    ensures SumOverShards(shards, Bulk(p, limit)) >= Times(|shards|, 2.0)
  {
    var bulk := Bulk(p, limit);
    forall s | 0 <= s < |shards| ensures Sum(shards[s], bulk) >= 2.0 {
      BulkMeasures(shards[s], p, limit);
    }
    SumAbove(shards, bulk, 2.0);
  }

  /** An item longer than a third of the limit fits on some shard, if some schedule fits it with all before it. */
  lemma LongItemFits(shards: seq<seq<Item>>, items: seq<Item>, x: Item, alt: nat -> nat, limit: real)
    requires 3.0 * Seconds(x) > limit && Seconds(x) >= 0.0
    requires forall y :: y in items ==> Seconds(y) >= Seconds(x)
    requires forall y :: y in items + [x] ==> alt(y.index) < |shards|
    requires forall s :: 0 <= s < |shards| ==> Total(Assigned(items + [x], alt, |shards|)[s]) <= limit
    requires SumOverShards(shards, Bulk(Seconds(x), limit)) == Sum(items, Bulk(Seconds(x), limit))
    requires forall s, y :: 0 <= s < |shards| && y in shards[s] ==> y in items
    ensures exists s :: 0 <= s < |shards| && Total(shards[s]) + Seconds(x) <= limit
  {
    var p := Seconds(x);
    if forall s :: 0 <= s < |shards| ==> Total(shards[s]) + p > limit {
      LongestFits(items, x, alt, |shards|, limit);
      BulkOfFullShards(shards, p, limit);
      BulkFits(items + [x], p, alt, |shards|, limit);
      SumSnoc(items, x, Bulk(p, limit));
      assert false;
    }
  }

  lemma {:induction false} AssignedElements(items: seq<Item>, alt: nat -> nat, count: nat, s: nat)
    requires forall x :: x in items ==> alt(x.index) < count
    requires s < count
    ensures forall x ::
      multiset(Assigned(items, alt, count)[s])[x] == if alt(x.index) == s then multiset(items)[x] else 0
    ensures forall x :: x in Assigned(items, alt, count)[s] ==> x in items
  {
    if items != [] {
      AssignedElements(items[..|items| - 1], alt, count, s);
      assert items == items[..|items| - 1] + [items[|items| - 1]];
    }
    forall x | x in Assigned(items, alt, count)[s] ensures x in items {
      assert x in multiset(Assigned(items, alt, count)[s]);
      assert x in multiset(items);
    }
  }

  lemma LongestFits(items: seq<Item>, x: Item, alt: nat -> nat, count: nat, limit: real)
    requires forall y :: y in items + [x] ==> alt(y.index) < count
    requires forall y :: y in items + [x] ==> Seconds(y) >= 0.0
    requires forall s :: 0 <= s < count ==> Total(Assigned(items + [x], alt, count)[s]) <= limit
    ensures Seconds(x) <= limit
  {
    var k := alt(x.index);
    assert x in items + [x];
    assert (items + [x])[..|items|] == items;
    assert forall y :: y in items ==> y in items + [x];
    var before := Assigned(items, alt, count)[k];
    AssignedElements(items, alt, count, k);
    SumNonNegative(before, Seconds);
    SumSnoc(before, x, Seconds);
    assert Assigned(items + [x], alt, count)[k] == before + [x];
  }

  /** What a smaller set of items leaves of a schedule stays within its limit. */
  lemma AssignedGrows(items: seq<Item>, x: Item, alt: nat -> nat, count: nat, limit: real)
    requires forall y :: y in items + [x] ==> alt(y.index) < count && Seconds(y) >= 0.0
    requires forall s :: 0 <= s < count ==> Total(Assigned(items + [x], alt, count)[s]) <= limit
    ensures forall y :: y in items ==> alt(y.index) < count
    ensures forall s :: 0 <= s < count ==> Total(Assigned(items, alt, count)[s]) <= limit
  {
    assert (items + [x])[..|items|] == items;
    assert forall y :: y in items ==> y in items + [x];
    assert x in items + [x];
    var before := Assigned(items, alt, count);
    SumSnoc(before[alt(x.index)], x, Seconds);
    forall s | 0 <= s < count ensures Total(before[s]) <= limit {
      assert Assigned(items + [x], alt, count)[s] == if s == alt(x.index) then before[s] + [x] else before[s];
    }
  }

  lemma {:induction false} PlacedElements(items: seq<Item>, count: nat)
    requires count > 0
    ensures forall s, y :: 0 <= s < count && y in Place(items, count)[s] ==> y in items
  {
    if items != [] {
      PlacedElements(items[..|items| - 1], count);
      assert forall y :: y in items[..|items| - 1] ==> y in items;
      assert items[|items| - 1] in items;
    }
  }

  /** A schedule of the items over count shards in which no shard takes longer than limit. */
  ghost predicate Schedules(alt: nat -> nat, items: seq<Item>, count: nat, limit: real) {
    && (forall y :: y in items ==> alt(y.index) < count && Seconds(y) >= 0.0)
    && forall s :: 0 <= s < count ==> Total(Assigned(items, alt, count)[s]) <= limit
  }

  /** The lightest load is at most the average, and the average leaves room for x within the limit. */
  lemma AverageLoad(items: seq<Item>, x: Item, alt: nat -> nat, count: nat, limit: real)
    requires count > 0 && Schedules(alt, items + [x], count, limit)
    ensures
      var before := Place(items, count);
      Times(count, Total(before[Lightest(before)])) + Seconds(x) <= Times(count, limit)
  {
    var before := Place(items, count);
    SumAbove(before, Seconds, Total(before[Lightest(before)]));
    SumPlaced(items, count, Seconds);
    SumSnoc(items, x, Seconds);
    SumAssigned(items + [x], alt, count, Seconds);
    SumBelow(Assigned(items + [x], alt, count), Seconds, limit);
  }

  lemma LongItemLoad(items: seq<Item>, x: Item, alt: nat -> nat, count: nat, limit: real)
    requires count > 0 && Schedules(alt, items + [x], count, limit)
    requires forall y :: y in items ==> Seconds(y) >= Seconds(x)
    requires 3.0 * Seconds(x) > limit && Seconds(x) >= 0.0
    ensures
      var before := Place(items, count);
      Total(before[Lightest(before)]) + Seconds(x) <= limit
  {
    var before := Place(items, count);
    SumPlaced(items, count, Bulk(Seconds(x), limit));
    PlacedElements(items, count);
    LongItemFits(before, items, x, alt, limit);
  }

  /** Graham's factor: bound is 4/3 - 1/(3 count) of limit. */
  ghost predicate Graham(count: nat, limit: real, bound: real)
    requires count > 0
  {
    0.0 <= limit && Times(3 * count, bound) == Times(4 * count - 1, limit)
  }

  lemma {:induction false} TimesSum(m: nat, n: nat, a: real)
    ensures Times(m + n, a) == Times(m, a) + Times(n, a)
  {
    if n > 0 {
      TimesSum(m, n - 1, a);
    }
  }

  lemma {:induction false} TimesOfSum(n: nat, a: real, b: real)
    ensures Times(n, a + b) == Times(n, a) + Times(n, b)
  {
    if n > 0 {
      TimesOfSum(n - 1, a, b);
    }
  }

  lemma {:induction false} TimesMonotone(n: nat, a: real, b: real)
    requires a <= b
    ensures Times(n, a) <= Times(n, b)
    ensures n > 0 && a < b ==> Times(n, a) < Times(n, b)
  {
    if n > 0 {
      TimesMonotone(n - 1, a, b);
    }
  }

  lemma {:induction false} TimesTriple(n: nat, a: real)
    ensures Times(3 * n, a) == 3.0 * Times(n, a) == Times(n, 3.0 * a)
  {
    if n > 0 {
      TimesTriple(n - 1, a);
      TimesSum(3 * (n - 1), 3, a);
      assert 3 * (n - 1) + 3 == 3 * n;
      assert Times(1, a) == a && Times(2, a) == a + a && Times(3, a) == 3.0 * a;
      assert Times(n, 3.0 * a) == Times(n - 1, 3.0 * a) + 3.0 * a && Times(n, a) == Times(n - 1, a) + a;
    }
  }

  lemma {:induction false} TimesZero(n: nat)
    ensures Times(n, 0.0) == 0.0
  {
    if n > 0 {
      TimesZero(n - 1);
    }
  }

  lemma GrahamAboveLimit(count: nat, limit: real, bound: real)
    requires count > 0 && Graham(count, limit, bound)
    ensures limit <= bound
  {
    TimesSum(3 * count, count - 1, limit);
    TimesMonotone(count - 1, 0.0, limit);
    TimesZero(count - 1);
    if bound < limit {
      TimesMonotone(3 * count, bound, limit);
    }
  }

  lemma ShortItems(count: nat, p: real, limit: real)
    requires count > 0 && 3.0 * p <= limit
    ensures Times(3 * count, p) <= 3.0 * p + Times(count - 1, limit)
  {
    hide *;
    var n := count - 1;
    TimesTriple(n, p);
    TimesTriple(1, p);
    TimesOne(3.0 * p);
    TimesMonotone(n, 3.0 * p, limit);
    TimesSum(3 * n, 3 * 1, p);
    assert 3 * n + 3 * 1 == 3 * count;
  }

  lemma TimesOne(a: real)
    ensures Times(1, a) == a
  {
  }

  lemma GrahamSmallStep(count: nat, load: real, p: real, limit: real, bound: real)
    requires count > 0 && Graham(count, limit, bound)
    requires 3.0 * p <= limit && Times(count, load) + p <= Times(count, limit)
    ensures load + p <= bound
  {
    assert Times(3 * count, bound) == Times(4 * count - 1, limit);
    hide *;
    TimesTriple(count, load);
    TimesTriple(count, limit);
    ShortItems(count, p, limit);
    TimesSum(3 * count, count - 1, limit);
    assert 3 * count + (count - 1) == 4 * count - 1;
    TimesOfSum(3 * count, load, p);
    assert Times(3 * count, load + p) <= Times(3 * count, bound);
    TimesCancel(3 * count, load + p, bound);
  }

  lemma TimesCancel(n: nat, a: real, b: real)
    requires n > 0 && Times(n, a) <= Times(n, b)
    ensures a <= b
  {
    if b < a {
      TimesMonotone(n, b, a);
    }
  }

  /** The shard an item goes to stays within the bound. */
  lemma LightestLoad(items: seq<Item>, x: Item, alt: nat -> nat, count: nat, limit: real, bound: real)
    requires count > 0 && Schedules(alt, items + [x], count, limit) && Graham(count, limit, bound)
    requires forall y :: y in items ==> Seconds(y) >= Seconds(x)
    ensures
      var before := Place(items, count);
      Total(before[Lightest(before)]) + Seconds(x) <= bound
  {
    assert x in items + [x];
    var before := Place(items, count);
    if 3.0 * Seconds(x) <= limit {
      AverageLoad(items, x, alt, count, limit);
      GrahamSmallStep(count, Total(before[Lightest(before)]), Seconds(x), limit, bound);
    } else {
      LongItemLoad(items, x, alt, count, limit);
      GrahamAboveLimit(count, limit, bound);
    }
  }

  /** Graham's bound for items placed longest first, against any schedule of the same items. */
  lemma {:induction false} PlaceBound(items: seq<Item>, alt: nat -> nat, count: nat, limit: real, bound: real)
    requires count > 0 && Schedules(alt, items, count, limit) && Graham(count, limit, bound)
    requires Sorted(items, Longer)
    ensures forall s :: 0 <= s < count ==> Total(Place(items, count)[s]) <= bound
  {
    GrahamAboveLimit(count, limit, bound);
    if items != [] {
      var front, x := items[..|items| - 1], items[|items| - 1];
      assert items == front + [x];
      forall y | y in front ensures Seconds(y) >= Seconds(x) {
        var i :| 0 <= i < |front| && front[i] == y;
        assert Longer(items[i], items[|items| - 1]);
      }
      AssignedGrows(front, x, alt, count, limit);
      PlaceBound(front, alt, count, limit, bound);
      LightestLoad(front, x, alt, count, limit, bound);
      var before := Place(front, count);
      SumSnoc(before[Lightest(before)], x, Seconds);
    }
  }

  lemma {:induction false} PlaceGrows(items: seq<Item>, x: Item, count: nat, t: nat)
    requires t < count && Seconds(x) >= 0.0
    ensures Total(Place(items, count)[t]) <= Total(Place(items + [x], count)[t])
  {
    PlaceSnoc(items, x, count);
    var before := Place(items, count);
    SumSnoc(before[Lightest(before)], x, Seconds);
  }

  /** Taking any one item off a shard leaves it no heavier than every other shard. */
  lemma {:induction false} PlaceBalanced(items: seq<Item>, count: nat, s: nat, t: nat, y: Item)
    requires s < count && t < count && Sorted(items, Longer)
    requires forall x :: x in items ==> Seconds(x) >= 0.0
    requires y in Place(items, count)[s]
    ensures Total(Place(items, count)[s]) - Seconds(y) <= Total(Place(items, count)[t])
  {
    if items != [] {
      var front, x := items[..|items| - 1], items[|items| - 1];
      assert items == front + [x];
      PlacedElements(items, count);
      assert y in items;
      PlaceSnoc(front, x, count);
      var before := Place(front, count);
      var k := Lightest(before);
      PlaceGrows(front, x, count, t);
      if s == k {
        var i :| 0 <= i < |items| && items[i] == y;
        assert i < |items| - 1 ==> Longer(items[i], items[|items| - 1]);
        SumSnoc(before[k], x, Seconds);
      } else {
        PlaceBalanced(front, count, s, t, y);
      }
    }
  }

  // ---------- the allocation ----------

  /** The chain position of every id; a repeated id keeps its last position. */
  function Order(units: seq<Unit>): map<string, nat> {
    if units == [] then map[] else Order(units[..|units| - 1])[units[|units| - 1].id := |units| - 1]
  }

  function Position(order: map<string, nat>, id: string): int {
    if id in order then order[id] else -1
  }

  function ByChain(order: map<string, nat>): (Unit, Unit) -> bool {
    (a: Unit, b: Unit) => Position(order, a.id) <= Position(order, b.id)
  }

  /** The shards that allocate returns for a valid count. */
  function Allocation(units: seq<Unit>, count: nat): (shards: seq<seq<Unit>>)
    requires count > 0
    ensures |shards| == count
  {
    var placed := Place(LongestFirst(units), count);
    seq(count, s requires 0 <= s < count => Sort(Strip(placed[s]), ByChain(Order(units))))
  }

  function ShardTotal(shard: seq<Unit>): real { Sum(shard, UnitSeconds) }

  lemma {:induction false} StripSum(items: seq<Item>)
    ensures Sum(Strip(items), UnitSeconds) == Total(items)
  {
    if items != [] {
      StripSum(items[..|items| - 1]);
      assert Strip(items)[..|items| - 1] == Strip(items[..|items| - 1]);
    }
  }

  lemma AllocationTotal(units: seq<Unit>, count: nat, s: nat)
    requires s < count
    ensures ShardTotal(Allocation(units, count)[s]) == Total(Place(LongestFirst(units), count)[s])
  {
    var placed := Place(LongestFirst(units), count)[s];
    StripSum(placed);
    SortPermutes(Strip(placed), ByChain(Order(units)));
    SumPermutation(Strip(placed), Allocation(units, count)[s], UnitSeconds);
  }

  lemma LongestFirstSorted(units: seq<Unit>)
    ensures Sorted(LongestFirst(units), Longer)
    ensures multiset(LongestFirst(units)) == multiset(Items(units))
  {
    SortPermutes(Items(units), Longer);
    SortSorts(Items(units), Longer);
  }

  lemma LongestFirstElements(units: seq<Unit>)
    ensures forall y :: y in LongestFirst(units) ==> y.index < |units| && units[y.index] == y.unit
  {
    LongestFirstSorted(units);
    forall y | y in LongestFirst(units) ensures y.index < |units| && units[y.index] == y.unit {
      assert y in multiset(LongestFirst(units));
      assert y in multiset(Items(units));
    }
  }

  /** The load of shard s when alt decides where every unit runs. */
  ghost function LoadUnder(units: seq<Unit>, alt: nat -> nat, s: nat): real {
    if units == [] then 0.0
    else LoadUnder(units[..|units| - 1], alt, s) + if alt(|units| - 1) == s then units[|units| - 1].seconds else 0.0
  }

  lemma {:induction false} LoadIsAssigned(units: seq<Unit>, alt: nat -> nat, count: nat, s: nat)
    requires s < count && forall i :: 0 <= i < |units| ==> alt(i) < count
    ensures Total(Assigned(Items(units), alt, count)[s]) == LoadUnder(units, alt, s)
  {
    if units != [] {
      var n := |units| - 1;
      LoadIsAssigned(units[..n], alt, count, s);
      assert Items(units)[..n] == Items(units[..n]);
      SumSnoc(Assigned(Items(units[..n]), alt, count)[s], Items(units)[n], Seconds);
    }
  }

  lemma SortedLoad(units: seq<Unit>, alt: nat -> nat, count: nat, s: nat)
    requires s < count && forall i :: 0 <= i < |units| ==> alt(i) < count
    ensures forall y :: y in LongestFirst(units) ==> alt(y.index) < count
    ensures Total(Assigned(LongestFirst(units), alt, count)[s]) == LoadUnder(units, alt, s)
  {
    LongestFirstSorted(units);
    LongestFirstElements(units);
    AssignedElements(LongestFirst(units), alt, count, s);
    AssignedElements(Items(units), alt, count, s);
    var xs, ys := Assigned(LongestFirst(units), alt, count)[s], Assigned(Items(units), alt, count)[s];
    assert multiset(xs) == multiset(ys) by {
      assert forall y :: multiset(xs)[y] == multiset(ys)[y];
    }
    SumPermutation(xs, ys, Seconds);
    LoadIsAssigned(units, alt, count, s);
  }

  lemma SortedSchedules(units: seq<Unit>, count: nat, alt: nat -> nat, limit: real)
    requires count > 0
    requires forall i :: 0 <= i < |units| ==> units[i].seconds >= 0.0 && alt(i) < count
    requires forall s :: 0 <= s < count ==> LoadUnder(units, alt, s) <= limit
    ensures Schedules(alt, LongestFirst(units), count, limit) && 0.0 <= limit
  {
    var items := LongestFirst(units);
    LongestFirstElements(units);
    forall s | 0 <= s < count ensures Total(Assigned(items, alt, count)[s]) <= limit {
      SortedLoad(units, alt, count, s);
    }
    AssignedElements(items, alt, count, 0);
    SumNonNegative(Assigned(items, alt, count)[0], Seconds);
    assert 0.0 <= Total(Assigned(items, alt, count)[0]) <= limit;
  }

  lemma GrahamBound(count: nat, limit: real) returns (bound: real)
    requires count > 0 && 0.0 <= limit
    ensures Graham(count, limit, bound)
  {
    bound := (4.0 * count as real - 1.0) * limit / (3.0 * count as real);
    TimesProduct(3 * count, bound);
    TimesProduct(4 * count - 1, limit);
  }

  /** total <= (4/3 - 1/(3 count)) * limit, without the division. */
  ghost predicate WithinGraham(count: nat, total: real, limit: real) {
    3.0 * count as real * total <= (4.0 * count as real - 1.0) * limit
  }

  lemma GrahamFactor(count: nat, limit: real, bound: real, total: real)
    requires count > 0 && Graham(count, limit, bound) && total <= bound
    ensures WithinGraham(count, total, limit)
  {
    TimesMonotone(3 * count, total, bound);
    TimesProduct(3 * count, total);
    TimesProduct(4 * count - 1, limit);
  }

  /**
   * Longest first is never worse than 4/3 - 1/(3 count) of any schedule alt, hence of the best one: if no
   * shard of alt takes longer than limit, no shard of the allocation takes longer than that multiple of it.
   */
  lemma LongestFirstBound(units: seq<Unit>, count: nat, alt: nat -> nat, limit: real, s: nat)
    requires s < count
    requires forall i :: 0 <= i < |units| ==> units[i].seconds >= 0.0 && alt(i) < count
    requires forall t :: 0 <= t < count ==> LoadUnder(units, alt, t) <= limit
    ensures WithinGraham(count, ShardTotal(Allocation(units, count)[s]), limit)
  {
    SortedSchedules(units, count, alt, limit);
    LongestFirstSorted(units);
    var bound := GrahamBound(count, limit);
    PlaceBound(LongestFirst(units), alt, count, limit, bound);
    AllocationTotal(units, count, s);
    GrahamFactor(count, limit, bound, ShardTotal(Allocation(units, count)[s]));
  }

  lemma AllocatedFrom(units: seq<Unit>, count: nat, s: nat, u: Unit) returns (y: Item)
    requires s < count && u in Allocation(units, count)[s]
    ensures y in Place(LongestFirst(units), count)[s] && y.unit == u
  {
    var placed := Place(LongestFirst(units), count)[s];
    SortPermutes(Strip(placed), ByChain(Order(units)));
    assert u in multiset(Sort(Strip(placed), ByChain(Order(units))));
    assert u in multiset(Strip(placed));
    var i :| 0 <= i < |placed| && Strip(placed)[i] == u;
    y := placed[i];
  }

  /** Taking any unit off a shard leaves it no heavier than any other shard. */
  lemma AllocationBalanced(units: seq<Unit>, count: nat, s: nat, t: nat, u: Unit)
    requires s < count && t < count
    requires forall i :: 0 <= i < |units| ==> units[i].seconds >= 0.0
    requires u in Allocation(units, count)[s]
    ensures ShardTotal(Allocation(units, count)[s]) - u.seconds <= ShardTotal(Allocation(units, count)[t])
  {
    var y := AllocatedFrom(units, count, s, u);
    LongestFirstSorted(units);
    LongestFirstElements(units);
    PlaceBalanced(LongestFirst(units), count, s, t, y);
    AllocationTotal(units, count, s);
    AllocationTotal(units, count, t);
  }

  lemma OthersAtLeast(units: seq<Unit>, count: nat, s: nat, u: Unit)
    requires s < count
    requires forall i :: 0 <= i < |units| ==> units[i].seconds >= 0.0
    requires u in Allocation(units, count)[s]
    ensures forall t :: 0 <= t < count ==>
      Sum(Place(LongestFirst(units), count)[t], Seconds) >= ShardTotal(Allocation(units, count)[s]) - u.seconds
  {
    hide *;
    forall t | 0 <= t < count
      ensures Sum(Place(LongestFirst(units), count)[t], Seconds) >= ShardTotal(Allocation(units, count)[s]) - u.seconds
    {
      AllocationBalanced(units, count, s, t, u);
      AllocationTotal(units, count, t);
      TotalIsSum(Place(LongestFirst(units), count)[t]);
    }
  }

  lemma TotalIsSum(items: seq<Item>)
    ensures Total(items) == Sum(items, Seconds)
  {
  }

  /** No shard exceeds the average by more than (count - 1) / count of any one of its units. */
  lemma AllocationAverage(units: seq<Unit>, count: nat, s: nat, u: Unit)
    requires s < count
    requires forall i :: 0 <= i < |units| ==> units[i].seconds >= 0.0
    requires u in Allocation(units, count)[s]
    ensures Times(count, ShardTotal(Allocation(units, count)[s])) <= ShardTotal(units) + Times(count - 1, u.seconds)
  {
    hide *;
    var placed := Place(LongestFirst(units), count);
    var total := ShardTotal(Allocation(units, count)[s]);
    AllocationTotal(units, count, s);
    TotalIsSum(placed[s]);
    OthersAtLeast(units, count, s, u);
    SumAboveButOne(placed, s, Seconds, total - u.seconds);
    PlacedSum(units, count);
    TimesMinus(count - 1, total, u.seconds);
    TimesStep(count, total);
  }

  lemma PlacedSum(units: seq<Unit>, count: nat)
    requires count > 0
    ensures SumOverShards(Place(LongestFirst(units), count), Seconds) == ShardTotal(units)
  {
    SumPlaced(LongestFirst(units), count, Seconds);
    LongestFirstSorted(units);
    SumPermutation(LongestFirst(units), Items(units), Seconds);
    StripSum(Items(units));
    assert Strip(Items(units)) == units;
  }

  lemma TimesStep(n: nat, a: real)
    requires n > 0
    ensures Times(n, a) == Times(n - 1, a) + a
  {
  }

  lemma {:induction false} TimesMinus(n: nat, a: real, b: real)
    ensures Times(n, a - b) == Times(n, a) - Times(n, b)
  {
    if n > 0 {
      TimesMinus(n - 1, a, b);
    }
  }

  lemma {:induction false} SumAboveButOne(shards: seq<seq<Item>>, k: nat, v: Item -> real, lo: real)
    requires k < |shards|
    requires forall s :: 0 <= s < |shards| ==> Sum(shards[s], v) >= lo
    ensures SumOverShards(shards, v) >= Times(|shards| - 1, lo) + Sum(shards[k], v)
  {
    var n := |shards| - 1;
    assert forall s :: 0 <= s < n ==> shards[..n][s] == shards[s];
    if k == n {
      SumAbove(shards[..n], v, lo);
    } else {
      SumAboveButOne(shards[..n], k, v, lo);
    }
  }

  // ---------- nothing lost, chain order kept ----------

  lemma StripWithout(xs: seq<Item>, k: nat)
    requires k < |xs|
    ensures multiset(Strip(xs)) == multiset(Strip(Without(xs, k))) + multiset{xs[k].unit}
  {
    assert Strip(xs) == Strip(xs[..k]) + [xs[k].unit] + Strip(xs[k + 1..]);
    assert Strip(Without(xs, k)) == Strip(xs[..k]) + Strip(xs[k + 1..]);
  }

  lemma {:induction false} StripPermutes(xs: seq<Item>, ys: seq<Item>)
    requires multiset(xs) == multiset(ys)
    ensures multiset(Strip(xs)) == multiset(Strip(ys))
  {
    if xs == [] {
      assert |multiset(ys)| == 0;
    } else {
      hide *;
      WithoutOne(xs, 0);
      var k := Occurs(xs[0], ys);
      StripWithout(xs, 0);
      StripWithout(ys, k);
      StripPermutes(Without(xs, 0), Without(ys, k));
    }
  }

  lemma StripSnoc(items: seq<Item>, x: Item)
    ensures Strip(items + [x]) == Strip(items) + [x.unit]
  {
  }

  function StripAll(shards: seq<seq<Item>>): seq<seq<Unit>> {
    seq(|shards|, s requires 0 <= s < |shards| => Strip(shards[s]))
  }

  lemma StripAllPush(shards: seq<seq<Item>>, k: nat, x: Item)
    requires k < |shards|
    ensures StripAll(shards[k := shards[k] + [x]]) == StripAll(shards)[k := StripAll(shards)[k] + [x.unit]]
  {
    StripSnoc(shards[k], x);
  }

  lemma NothingPlaced(count: nat)
    requires count > 0
    ensures StripAll(Place([], count)) == seq<seq<Unit>>(count, _ => [])
  {
    var shards, empty := StripAll(Place([], count)), seq<seq<Unit>>(count, _ => []);
    assert |shards| == count == |empty|;
    forall s | 0 <= s < count ensures shards[s] == empty[s] {
      assert Place([], count)[s] == [] && shards[s] == Strip([]);
    }
  }

  lemma {:induction false} PlaceKeeps(items: seq<Item>, count: nat)
    requires count > 0
    ensures multiset(Flatten(StripAll(Place(items, count)))) == multiset(Strip(items))
  {
    if items == [] {
      NothingPlaced(count);
      FlattenEmpty<Unit>(count);
    } else {
      var front, x := items[..|items| - 1], items[|items| - 1];
      assert items == front + [x];
      var before := Place(front, count);
      var k := Lightest(before);
      PlaceKeeps(front, count);
      PlaceSnoc(front, x, count);
      StripAllPush(before, k, x);
      FlattenPush(StripAll(before), k, x.unit);
      StripSnoc(front, x);
    }
  }

  /** The shards hold exactly the units, each as often as the chain does. */
  lemma AllocationPermutes(units: seq<Unit>, count: nat)
    requires count > 0
    ensures multiset(Flatten(Allocation(units, count))) == multiset(units)
  {
    var items := LongestFirst(units);
    var placed := StripAll(Place(items, count));
    forall s | 0 <= s < count ensures multiset(Allocation(units, count)[s]) == multiset(placed[s]) {
      SortPermutes(placed[s], ByChain(Order(units)));
    }
    FlattenPermutes(Allocation(units, count), placed);
    PlaceKeeps(items, count);
    LongestFirstSorted(units);
    StripPermutes(items, Items(units));
    assert Strip(Items(units)) == units;
  }

  lemma {:induction false} OrderIsPosition(units: seq<Unit>, i: nat)
    requires Distinct(Ids(units)) && i < |units|
    ensures Position(Order(units), units[i].id) == i
  {
    var n := |units| - 1;
    assert forall j :: 0 <= j < |units| ==> Ids(units)[j] == units[j].id;
    assert Ids(units[..n]) == Ids(units)[..n];
    if i < n {
      assert Ids(units)[i] != Ids(units)[n];
      OrderIsPosition(units[..n], i);
    }
  }

  lemma {:induction false} PartOfFlatten<T>(shards: seq<seq<T>>, s: nat)
    requires s < |shards|
    ensures multiset(shards[s]) <= multiset(Flatten(shards))
  {
    if s < |shards| - 1 {
      PartOfFlatten(shards[..|shards| - 1], s);
    }
  }

  lemma TwiceIn<T>(xs: seq<T>, i: nat, j: nat)
    requires i < j < |xs| && xs[i] == xs[j]
    ensures multiset(xs)[xs[i]] >= 2
  {
    assert xs == xs[..i] + [xs[i]] + xs[i + 1..j] + [xs[i]] + xs[j + 1..];
  }

  lemma {:induction false} AtMostOnce(units: seq<Unit>, u: Unit)
    requires Distinct(Ids(units))
    ensures multiset(units)[u] <= 1
  {
    if units != [] {
      var n := |units| - 1;
      assert Ids(units[..n]) == Ids(units)[..n];
      AtMostOnce(units[..n], u);
      assert units == units[..n] + [units[n]];
      if u in multiset(units[..n]) {
        var k := Occurs(u, units[..n]);
        assert Ids(units)[k] != Ids(units)[n];
      }
    }
  }

  lemma NoRepeats(xs: seq<Unit>, units: seq<Unit>, i: nat, j: nat)
    requires Distinct(Ids(units)) && multiset(xs) <= multiset(units) && i < j < |xs|
    ensures xs[i] != xs[j]
  {
    if xs[i] == xs[j] {
      TwiceIn(xs, i, j);
      AtMostOnce(units, xs[i]);
      assert false;
    }
  }

  lemma AllocationOrdered(units: seq<Unit>, count: nat, s: nat, i: nat, j: nat)
    requires s < count && i < j < |Allocation(units, count)[s]|
    ensures var shard := Allocation(units, count)[s];
      Position(Order(units), shard[i].id) <= Position(Order(units), shard[j].id)
  {
    var before := ByChain(Order(units));
    SortSorts(Strip(Place(LongestFirst(units), count)[s]), before);
    assert before(Allocation(units, count)[s][i], Allocation(units, count)[s][j]);
  }

  lemma ShardUnits(units: seq<Unit>, count: nat, s: nat)
    requires s < count
    ensures multiset(Allocation(units, count)[s]) <= multiset(units)
  {
    AllocationPermutes(units, count);
    PartOfFlatten(Allocation(units, count), s);
  }

  /** Inside a shard the units stand in the order of the chain. */
  lemma AllocationInOrder(units: seq<Unit>, count: nat, s: nat, i: nat, j: nat) returns (p: nat, q: nat)
    requires Distinct(Ids(units)) && s < count && i < j < |Allocation(units, count)[s]|
    ensures p < q < |units|
    ensures units[p] == Allocation(units, count)[s][i] && units[q] == Allocation(units, count)[s][j]
  {
    hide *;
    var shard := Allocation(units, count)[s];
    ShardUnits(units, count, s);
    assert shard[i] in multiset(shard) && shard[j] in multiset(shard);
    p := Occurs(shard[i], units);
    q := Occurs(shard[j], units);
    OrderIsPosition(units, p);
    OrderIsPosition(units, q);
    AllocationOrdered(units, count, s, i, j);
    NoRepeats(shard, units, i, j);
  }

  // ---------- the longest units ----------

  /** The units that go in front of unit i: longer ones, and equally long ones that come earlier in the chain. */
  ghost function Ahead(units: seq<Unit>, i: nat): set<nat>
    requires i < |units|
  {
    set j: nat | j < |units| &&
      (units[j].seconds > units[i].seconds || (units[j].seconds == units[i].seconds && j < i))
  }

  lemma {:induction false} DistinctOnce<T>(xs: seq<T>, x: T)
    requires Distinct(xs)
    ensures multiset(xs)[x] <= 1
  {
    if xs != [] {
      DistinctOnce(xs[..|xs| - 1], x);
      assert xs == xs[..|xs| - 1] + [xs[|xs| - 1]];
      if x in multiset(xs[..|xs| - 1]) {
        var k := Occurs(x, xs[..|xs| - 1]);
        assert xs[k] != xs[|xs| - 1];
      }
    }
  }

  lemma DistinctPermutes<T>(xs: seq<T>, ys: seq<T>)
    requires Distinct(ys) && multiset(xs) == multiset(ys)
    ensures Distinct(xs)
  {
    forall i, j | 0 <= i < j < |xs| ensures xs[i] != xs[j] {
      if xs[i] == xs[j] {
        TwiceIn(xs, i, j);
        DistinctOnce(ys, xs[i]);
        assert false;
      }
    }
  }

  /** Unit i is at the place in longest-first order that the number of units in front of it says. */
  lemma RankOf(units: seq<Unit>, i: nat)
    requires i < |units|
    ensures |Ahead(units, i)| < |LongestFirst(units)| && LongestFirst(units)[|Ahead(units, i)|] == Item(units[i], i)
  {
    var sorted := LongestFirst(units);
    LongestFirstSorted(units);
    DistinctPermutes(sorted, Items(units));
    var p := ItemPlaced(units, i);
    FrontIndices(units, p);
    var front := seq(p, q requires 0 <= q < p => sorted[q].index);
    DistinctCount(front);
    InFrontIsAhead(units, i, p);
    assert (set j | j in front) == Ahead(units, i) by {
      assert forall q :: 0 <= q < p ==> front[q] == sorted[q].index;
      forall j | j in front ensures j in Ahead(units, i) {
        var q :| 0 <= q < p && front[q] == j;
        assert sorted[q].index in Ahead(units, i);
      }
      forall j | j in Ahead(units, i) ensures j in front {
        var q :| 0 <= q < p && sorted[q].index == j;
        assert front[q] in front;
      }
    }
  }

  lemma ItemPlaced(units: seq<Unit>, i: nat) returns (p: nat)
    requires i < |units|
    ensures p < |LongestFirst(units)| && LongestFirst(units)[p] == Item(units[i], i)
  {
    LongestFirstSorted(units);
    assert Items(units)[i] == Item(units[i], i);
    assert Item(units[i], i) in multiset(LongestFirst(units));
    p := Occurs(Item(units[i], i), LongestFirst(units));
  }

  lemma FrontIndices(units: seq<Unit>, p: nat)
    requires p <= |LongestFirst(units)| && Distinct(LongestFirst(units))
    ensures Distinct(seq(p, q requires 0 <= q < p => LongestFirst(units)[q].index))
  {
    var sorted := LongestFirst(units);
    LongestFirstElements(units);
    forall i, j | 0 <= i < j < p ensures sorted[i].index != sorted[j].index {
      assert sorted[i] in sorted && sorted[j] in sorted;
    }
  }

  lemma InFrontIsAhead(units: seq<Unit>, i: nat, p: nat)
    requires i < |units| && p < |LongestFirst(units)| && LongestFirst(units)[p] == Item(units[i], i)
    requires Distinct(LongestFirst(units))
    ensures forall q :: 0 <= q < p ==> LongestFirst(units)[q].index in Ahead(units, i)
    ensures forall j :: j in Ahead(units, i) ==> exists q :: 0 <= q < p && LongestFirst(units)[q].index == j
  {
    var sorted := LongestFirst(units);
    hide LongestFirst;
    LongestFirstSorted(units);
    LongestFirstElements(units);
    forall q | 0 <= q < p ensures sorted[q].index in Ahead(units, i) {
      assert sorted[q] in sorted && Longer(sorted[q], sorted[p]);
    }
    forall j | j in Ahead(units, i) ensures exists q :: 0 <= q < p && sorted[q].index == j {
      var q := ItemPlaced(units, j);
      assert p < q ==> Longer(sorted[p], sorted[q]);
    }
  }

  /** As long as shards are empty, each item gets one of its own, in order. */
  lemma {:induction false} OneEach(items: seq<Item>, count: nat)
    requires |items| <= count && 0 < count
    requires forall x :: x in items ==> Seconds(x) > 0.0
    ensures forall s :: 0 <= s < count ==> Place(items, count)[s] == if s < |items| then [items[s]] else []
  {
    if items != [] {
      var n := |items| - 1;
      OneEach(items[..n], count);
      NextEmpty(items[..n], count, Place(items[..n], count));
    }
  }

  /** What has been placed stays where it is. */
  lemma {:induction false} StaysPlaced(items: seq<Item>, n: nat, count: nat, s: nat, x: Item)
    requires n <= |items| && s < count && x in Place(items[..n], count)[s]
    ensures x in Place(items, count)[s]
  {
    if n == |items| {
      assert items[..n] == items;
    } else {
      assert items[..|items| - 1][..n] == items[..n];
      StaysPlaced(items[..|items| - 1], n, count, s, x);
    }
  }

  /**
   * The longest unit is on the first shard, the second longest on the second, and so on as long as there are shards
   * that hold nothing yet; among equally long units the earlier one in the chain counts as the longer.
   */
  lemma LongestSpread(units: seq<Unit>, count: nat, i: nat)
    requires i < |units| && 0 < count && |Ahead(units, i)| < count
    requires Ahead(units, i) == {} || units[i].seconds > 0.0
    ensures units[i] in Allocation(units, count)[|Ahead(units, i)|]
  {
    var p, sorted := |Ahead(units, i)|, LongestFirst(units);
    RankOf(units, i);
    LongestFirstSorted(units);
    var x := Item(units[i], i);
    FirstOnItsOwn(sorted, count, p);
    assert sorted[..p + 1][p] == x;
    StaysPlaced(sorted, p + 1, count, p, x);
    InAllocation(units, count, p, x);
  }

  lemma AllSpread(units: seq<Unit>, count: nat)
    requires 0 < count
    ensures forall i ::
      0 <= i < |units| && |Ahead(units, i)| < count && (Ahead(units, i) == {} || units[i].seconds > 0.0)
      ==> units[i] in Allocation(units, count)[|Ahead(units, i)|]
  {
    forall i | 0 <= i < |units| && |Ahead(units, i)| < count && (Ahead(units, i) == {} || units[i].seconds > 0.0)
      ensures units[i] in Allocation(units, count)[|Ahead(units, i)|]
    {
      LongestSpread(units, count, i);
    }
  }

  lemma FirstOnItsOwn(sorted: seq<Item>, count: nat, p: nat)
    requires p < count && p < |sorted| && Sorted(sorted, Longer)
    requires p == 0 || Seconds(sorted[p]) > 0.0
    ensures sorted[p] in Place(sorted[..p + 1], count)[p]
  {
    hide Place;
    forall y | y in sorted[..p] ensures Seconds(y) > 0.0 {
      var q :| 0 <= q < p && sorted[q] == y;
      assert Longer(sorted[q], sorted[p]);
    }
    OneEach(sorted[..p], count);
    assert sorted[..p + 1] == sorted[..p] + [sorted[p]];
    PlaceSnoc(sorted[..p], sorted[p], count);
    NextEmpty(sorted[..p], count, Place(sorted[..p], count));
  }

  /** With an item on each of the first shards the next one is the lightest. */
  lemma NextEmpty(items: seq<Item>, count: nat, shards: seq<seq<Item>>)
    requires |items| < count == |shards|
    requires forall x :: x in items ==> Seconds(x) > 0.0
    requires forall s :: 0 <= s < count ==> shards[s] == if s < |items| then [items[s]] else []
    ensures Lightest(shards) == |items|
  {
    hide Lightest, Total;
    forall s | 0 <= s < |items| ensures Total(shards[s]) > 0.0 {
      assert items[s] in items;
      TotalOfOne(items[s]);
    }
    assert shards[Lightest(shards)] == shards[|items|] == [] by {
      assert Total([]) == 0.0 by { TotalOfNone(); }
    }
  }

  lemma TotalOfNone()
    ensures Total([]) == 0.0
  {
  }

  lemma TotalOfOne(x: Item)
    ensures Total([x]) == Seconds(x)
  {
    SumSnoc([], x, Seconds);
    assert [] + [x] == [x];
  }

  lemma InAllocation(units: seq<Unit>, count: nat, s: nat, x: Item)
    requires s < count && x in Place(LongestFirst(units), count)[s]
    ensures x.unit in Allocation(units, count)[s]
  {
    var placed := Place(LongestFirst(units), count)[s];
    var k :| 0 <= k < |placed| && placed[k] == x;
    assert Strip(placed)[k] == x.unit;
    SortPermutes(Strip(placed), ByChain(Order(units)));
    assert x.unit in multiset(Strip(placed));
  }

  /** The unit for which the table records more than for any other is on the first shard. */
  lemma LongestOnFirst(scripts: Scripts, suites: seq<string>, weights: Weights, count: nat, u: Unit, w: real)
    requires UnitsOf(scripts, suites, weights).Units? && 0 < count
    requires u in UnitsOf(scripts, suites, weights).units && Recorded(u, weights, w)
    requires forall v, x :: v in UnitsOf(scripts, suites, weights).units && v != u && Recorded(v, weights, x) ==> x < w
    ensures u in Allocation(UnitsOf(scripts, suites, weights).units, count)[0]
  {
    hide UnitsOf, Recorded;
    var units := UnitsOf(scripts, suites, weights).units;
    UnitsRecorded(scripts, suites, weights);
    var i :| 0 <= i < |units| && units[i] == u;
    OneRecord(u, weights, u.seconds, w);
    forall j | 0 <= j < |units| && j != i ensures units[j].seconds < u.seconds {
      UnitsDistinct(scripts, suites, weights, i, j);
      assert units[j] in units;
    }
    assert Ahead(units, i) == {};
    LongestSpread(units, count, i);
  }

  // ---------- the method ----------

  /** Counts that are no safe positive integers are refused; longer lists than the host can hold are a range error. */
  datatype Allocated = Shards(shards: seq<seq<Unit>>) | InvalidCount | InvalidLength

  lemma LightestUnique(shards: seq<seq<Item>>, k: nat)
    requires k < |shards|
    requires forall t :: 0 <= t < |shards| ==> Total(shards[k]) <= Total(shards[t])
    requires forall t :: 0 <= t < k ==> Total(shards[k]) < Total(shards[t])
    ensures k == Lightest(shards)
  {
  }

  method LightestShard(totals: array<real>, ghost shards: seq<seq<Item>>) returns (lightest: nat)
    requires totals.Length == |shards| > 0
    requires forall s :: 0 <= s < |shards| ==> totals[s] == Total(shards[s])
    ensures lightest == Lightest(shards)
  {
    lightest := 0;
    var i := 1;
    while i < totals.Length
      invariant 0 <= lightest < i <= totals.Length
      invariant forall t :: 0 <= t < i ==> totals[lightest] <= totals[t]
      invariant forall t :: 0 <= t < lightest ==> totals[lightest] < totals[t]
    {
      if totals[i] < totals[lightest] {
        lightest := i;
      }
      i := i + 1;
    }
    LightestUnique(shards, lightest);
  }

  /** The arrays hold the shards and totals of the first n items. */
  ghost predicate Holds(shards: array<seq<Unit>>, totals: array<real>, ordered: seq<Item>, n: nat, count: nat)
    requires n <= |ordered| && count > 0
    reads shards, totals
  {
    && shards.Length == totals.Length == count
    && shards[..] == StripAll(Place(ordered[..n], count))
    && forall s :: 0 <= s < count ==> totals[s] == Total(Place(ordered[..n], count)[s])
  }

  /** What placing one more item changes. */
  lemma Placed(ordered: seq<Item>, n: nat, count: nat)
    requires n < |ordered| && count > 0
    ensures
      var before, after, x := Place(ordered[..n], count), Place(ordered[..n + 1], count), ordered[n];
      var k := Lightest(before);
      && StripAll(after) == StripAll(before)[k := StripAll(before)[k] + [x.unit]]
      && forall s :: 0 <= s < count ==> Total(after[s]) == Total(before[s]) + if s == k then x.unit.seconds else 0.0
  {
    var before, x := Place(ordered[..n], count), ordered[n];
    assert ordered[..n + 1] == ordered[..n] + [x];
    PlaceSnoc(ordered[..n], x, count);
    SumSnoc(before[Lightest(before)], x, Seconds);
    StripAllPush(before, Lightest(before), x);
  }

  method Push(shards: array<seq<Unit>>, totals: array<real>, ghost ordered: seq<Item>, n: nat, count: nat, x: Item)
    requires count > 0 && n < |ordered| && ordered[n] == x && Holds(shards, totals, ordered, n, count)
    modifies shards, totals
    ensures Holds(shards, totals, ordered, n + 1, count)
  {
    var lightest := LightestShard(totals, Place(ordered[..n], count));
    Placed(ordered, n, count);
    ghost var before, after := Place(ordered[..n], count), Place(ordered[..n + 1], count);
    ghost var was := shards[..];
    assert |before| == |after| == count && lightest == Lightest(before);
    hide *;
    assert shards[lightest] == was[lightest];
    shards[lightest] := shards[lightest] + [x.unit];
    totals[lightest] := totals[lightest] + x.unit.seconds;
    assert shards[..] == was[lightest := was[lightest] + [x.unit]];
  }

  /** Pushes every unit onto the shard that is lightest at that point. */
  method Fill(ordered: seq<Item>, count: nat) returns (shards: array<seq<Unit>>)
    requires count > 0
    ensures fresh(shards) && shards[..] == StripAll(Place(ordered, count))
  {
    shards := new seq<Unit>[count](_ => []);
    var totals := new real[count](_ => 0.0);
    for n := 0 to |ordered|
      invariant Holds(shards, totals, ordered, n, count)
    {
      Push(shards, totals, ordered, n, count, ordered[n]);
    }
    assert ordered[..|ordered|] == ordered;
  }

  method Allocate(units: seq<Unit>, count: int) returns (r: Allocated)
    ensures count < 1 || count > MAX_SAFE_INTEGER ==> r == InvalidCount
    ensures MAX_ARRAY_LENGTH < count <= MAX_SAFE_INTEGER ==> r == InvalidLength
    ensures 1 <= count <= MAX_ARRAY_LENGTH ==> r == Shards(Allocation(units, count))
    ensures r.Shards? ==> |r.shards| == count
    ensures r.Shards? ==> forall i ::
      0 <= i < |units| && |Ahead(units, i)| < count && (Ahead(units, i) == {} || units[i].seconds > 0.0)
      ==> units[i] in r.shards[|Ahead(units, i)|]
  {
    hide Ahead, Sort, Place, LongestFirst, Order, ByChain;
    if count < 1 || count > MAX_SAFE_INTEGER {
      return InvalidCount;
    }
    if count > MAX_ARRAY_LENGTH {
      return InvalidLength;
    }
    var shards := Fill(LongestFirst(units), count);
    var order := Order(units);
    ghost var placed := shards[..];
    var s := 0;
    while s < count
      invariant 0 <= s <= count
      invariant forall t :: 0 <= t < count ==> shards[t] == if t < s then Sort(placed[t], ByChain(order)) else placed[t]
    {
      shards[s] := Sort(shards[s], ByChain(order));
      s := s + 1;
    }
    assert shards[..] == Allocation(units, count);
    AllSpread(units, count);
    return Shards(shards[..]);
  }
}
