/** Sums over sequences and a stable comparison sort, as used by the schedulers and reports. */
module Sorting {

  /** The sum of v over xs, from left to right. */
  function Sum<T>(xs: seq<T>, v: T -> real): real {
    if xs == [] then 0.0 else Sum(xs[..|xs| - 1], v) + v(xs[|xs| - 1])
  }

  lemma SumSnoc<T>(xs: seq<T>, x: T, v: T -> real)
    ensures Sum(xs + [x], v) == Sum(xs, v) + v(x)
  {
    assert (xs + [x])[..|xs|] == xs;
  }

  lemma {:induction false} SumConcat<T>(xs: seq<T>, ys: seq<T>, v: T -> real)
    ensures Sum(xs + ys, v) == Sum(xs, v) + Sum(ys, v)
  {
    if ys == [] {
      assert xs + ys == xs;
    } else {
      var front, last := ys[..|ys| - 1], ys[|ys| - 1];
      SumConcat(xs, front, v);
      SumSnoc(xs + front, last, v);
      assert xs + ys == (xs + front) + [last];
    }
  }

  /** The sequence without its element at k. */
  ghost function Without<T>(xs: seq<T>, k: nat): seq<T>
    requires k < |xs|
  {
    xs[..k] + xs[k + 1..]
  }

  lemma WithoutOne<T>(xs: seq<T>, k: nat)
    requires k < |xs|
    ensures multiset(Without(xs, k)) == multiset(xs) - multiset{xs[k]}
    ensures multiset(xs) == multiset(Without(xs, k)) + multiset{xs[k]}
  {
    Around(xs, k);
  }

  lemma Around<T>(xs: seq<T>, k: nat)
    requires k < |xs|
    ensures xs == xs[..k] + ([xs[k]] + xs[k + 1..])
    ensures Without(xs, k) == xs[..k] + xs[k + 1..]
  {
  }

  /** The position of an element known to occur. */
  lemma Occurs<T>(x: T, xs: seq<T>) returns (k: nat)
    requires x in multiset(xs)
    ensures k < |xs| && xs[k] == x
    ensures multiset(Without(xs, k)) == multiset(xs) - multiset{x}
  {
    k :| 0 <= k < |xs| && xs[k] == x;
    WithoutOne(xs, k);
  }

  lemma {:induction false} SumWithout<T>(xs: seq<T>, k: nat, v: T -> real)
    requires k < |xs|
    ensures Sum(xs, v) == Sum(Without(xs, k), v) + v(xs[k])
  {
    var n := |xs| - 1;
    if k == n {
      assert Without(xs, k) == xs[..n];
    } else {
      SumWithout(xs[..n], k, v);
      assert Without(xs, k)[..n - 1] == Without(xs[..n], k);
    }
  }

  /** A sum does not depend on the order of its terms. */
  lemma {:induction false} SumPermutation<T>(xs: seq<T>, ys: seq<T>, v: T -> real)
    requires multiset(xs) == multiset(ys)
    ensures Sum(xs, v) == Sum(ys, v)
  {
    if xs == [] {
      assert |multiset(ys)| == 0;
    } else {
      var n := |xs| - 1;
      WithoutOne(xs, n);
      assert Without(xs, n) == xs[..n];
      var k := Occurs(xs[n], ys);
      SumPermutation(xs[..n], Without(ys, k), v);
      SumWithout(ys, k, v);
    }
  }

  lemma {:induction false} SumNonNegative<T>(xs: seq<T>, v: T -> real)
    requires forall x :: x in xs ==> v(x) >= 0.0
    ensures Sum(xs, v) >= 0.0
  {
    if xs != [] {
      SumNonNegative(xs[..|xs| - 1], v);
    }
  }

  ghost predicate Sorted<T>(xs: seq<T>, before: (T, T) -> bool) {
    forall i, j :: 0 <= i < j < |xs| ==> before(xs[i], xs[j])
  }

  /** Puts x in front of the first element it may precede. */
  function Insert<T>(x: T, xs: seq<T>, before: (T, T) -> bool): seq<T> {
    if xs == [] || before(x, xs[0]) then [x] + xs else [xs[0]] + Insert(x, xs[1..], before)
  }

  /** The array's built-in stable sort; before(a, b) is "the comparator is not positive". */
  function Sort<T>(xs: seq<T>, before: (T, T) -> bool): seq<T> {
    if xs == [] then [] else Insert(xs[0], Sort(xs[1..], before), before)
  }

  lemma {:induction false} InsertPermutes<T>(x: T, xs: seq<T>, before: (T, T) -> bool)
    ensures multiset(Insert(x, xs, before)) == multiset(xs) + multiset{x}
  {
    if xs != [] && !before(x, xs[0]) {
      InsertPermutes(x, xs[1..], before);
      assert xs == [xs[0]] + xs[1..];
    }
  }

  lemma {:induction false} SortPermutes<T>(xs: seq<T>, before: (T, T) -> bool)
    ensures multiset(Sort(xs, before)) == multiset(xs)
    ensures |Sort(xs, before)| == |xs|
  {
    if xs != [] {
      SortPermutes(xs[1..], before);
      InsertPermutes(xs[0], Sort(xs[1..], before), before);
      assert xs == [xs[0]] + xs[1..];
    }
    assert |multiset(Sort(xs, before))| == |multiset(xs)|;
  }

  /** The comparator orders any two of the elements, and transitively. */
  ghost predicate Orders<T>(xs: seq<T>, before: (T, T) -> bool) {
    && (forall x, y :: x in xs && y in xs ==> before(x, y) || before(y, x))
    && (forall x, y, z :: x in xs && y in xs && z in xs && before(x, y) && before(y, z) ==> before(x, z))
  }

  lemma {:induction false} InsertSorts<T>(x: T, xs: seq<T>, before: (T, T) -> bool)
    requires Orders([x] + xs, before) && Sorted(xs, before)
    ensures Sorted(Insert(x, xs, before), before)
  {
    assert forall y :: y in xs ==> y in [x] + xs;
    assert x in [x] + xs;
    if xs != [] && !before(x, xs[0]) {
      var rest := Insert(x, xs[1..], before);
      InsertSorts(x, xs[1..], before);
      InsertPermutes(x, xs[1..], before);
      forall y | y in rest ensures before(xs[0], y) {
        assert y in multiset(rest);
        assert y in multiset(xs[1..]) || y == x;
      }
    }
  }

  lemma {:induction false} SortSorts<T>(xs: seq<T>, before: (T, T) -> bool)
    requires Orders(xs, before)
    ensures Sorted(Sort(xs, before), before)
  {
    if xs != [] {
      SortSorts(xs[1..], before);
      SortPermutes(xs[1..], before);
      var rest := Sort(xs[1..], before);
      forall y | y in [xs[0]] + rest ensures y in xs {
        if y in rest {
          assert y in multiset(rest);
          assert y in multiset(xs[1..]);
        }
      }
      InsertSorts(xs[0], rest, before);
    }
  }

  lemma SameFirst<T>(xs: seq<T>, ys: seq<T>, before: (T, T) -> bool)
    requires xs != [] && multiset(xs) == multiset(ys)
    requires Sorted(xs, before) && Sorted(ys, before)
    requires forall x, y :: x in xs && y in xs && before(x, y) && before(y, x) ==> x == y
    ensures ys != [] && xs[0] == ys[0]
  {
    assert |multiset(ys)| == |multiset(xs)|;
    assert xs[0] in multiset(ys) && ys[0] in multiset(xs);
    var i := Occurs(ys[0], xs);
    var j := Occurs(xs[0], ys);
    assert ys[0] in xs;
  }

  /** There is only one sorted arrangement under an antisymmetric order, so any correct sort gives this one. */
  lemma {:induction false} SortedUnique<T>(xs: seq<T>, ys: seq<T>, before: (T, T) -> bool)
    requires multiset(xs) == multiset(ys)
    requires Sorted(xs, before) && Sorted(ys, before)
    requires forall x, y :: x in xs && y in xs && before(x, y) && before(y, x) ==> x == y
    ensures xs == ys
  {
    if xs == [] {
      assert |multiset(ys)| == 0;
    } else {
      SameFirst(xs, ys, before);
      WithoutOne(xs, 0);
      WithoutOne(ys, 0);
      assert Without(xs, 0) == xs[1..] && Without(ys, 0) == ys[1..];
      SortedUnique(xs[1..], ys[1..], before);
    }
  }

  function Flatten<T>(shards: seq<seq<T>>): seq<T> {
    if shards == [] then [] else Flatten(shards[..|shards| - 1]) + shards[|shards| - 1]
  }

  lemma {:induction false} FlattenPush<T>(shards: seq<seq<T>>, k: nat, x: T)
    requires k < |shards|
    ensures multiset(Flatten(shards[k := shards[k] + [x]])) == multiset(Flatten(shards)) + multiset{x}
  {
    var n := |shards| - 1;
    var pushed := shards[k := shards[k] + [x]];
    if k == n {
      assert pushed[..n] == shards[..n];
    } else {
      assert pushed[..n] == shards[..n][k := shards[..n][k] + [x]];
      FlattenPush(shards[..n], k, x);
    }
  }

  lemma {:induction false} FlattenEmpty<T>(count: nat)
    ensures Flatten(seq<seq<T>>(count, _ => [])) == []
  {
    if count > 0 {
      assert seq<seq<T>>(count, _ => [])[..count - 1] == seq<seq<T>>(count - 1, _ => []);
      FlattenEmpty<T>(count - 1);
    }
  }

  /** Rearranging every part keeps the elements of the whole. */
  lemma {:induction false} FlattenPermutes<T>(xs: seq<seq<T>>, ys: seq<seq<T>>)
    requires |xs| == |ys|
    requires forall i :: 0 <= i < |xs| ==> multiset(xs[i]) == multiset(ys[i])
    ensures multiset(Flatten(xs)) == multiset(Flatten(ys))
  {
    if xs != [] {
      var n := |xs| - 1;
      assert forall i :: 0 <= i < n ==> xs[..n][i] == xs[i] && ys[..n][i] == ys[i];
      FlattenPermutes(xs[..n], ys[..n]);
    }
  }
}
