/** What the solver needs to be told about sequences. */
module Sequences {

  ghost predicate Distinct<T>(xs: seq<T>) {
    forall i, j :: 0 <= i < j < |xs| ==> xs[i] != xs[j]
  }

  lemma Concat<T>(xs: seq<T>, ys: seq<T>, zs: seq<T>)
    ensures xs + (ys + zs) == (xs + ys) + zs
  {
  }

  lemma Snoc<T>(xs: seq<T>, x: T, ys: seq<T>)
    ensures xs + ([x] + ys) == (xs + [x]) + ys
  {
  }

  lemma Empty<T>(xs: seq<T>)
    ensures [] + xs == xs && xs + [] == xs
  {
  }

  /** A finite set can be listed without repetition. */
  lemma {:induction false} SetHasList<T>(s: set<T>) returns (xs: seq<T>)
    ensures Distinct(xs) && |xs| == |s| && forall x :: x in xs <==> x in s
    decreases |s|
  {
    xs := [];
    if s != {} {
      var x :| x in s;
      var rest := SetHasList(s - {x});
      xs := [x] + rest;
    }
  }

  function Repeat<T>(x: T, n: nat): seq<T> { seq(n, _ => x) }

  lemma RepeatSnoc<T>(x: T, n: nat, before: seq<T>)
    ensures Repeat(x, n) + [x] == Repeat(x, n + 1) && before + Repeat(x, n) + [x] == before + Repeat(x, n + 1)
    ensures Repeat(x, n + 1)[..n] == Repeat(x, n) && Repeat(x, n + 1)[n] == x
  {
  }
}
