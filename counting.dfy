/** `sum(1 for x in xs if p(x))`, the tallies both batch loops report. */
module Counting {

  function Count<T>(xs: seq<T>, p: T -> bool): (n: nat)
    ensures n <= |xs|
  {
    if xs == [] then 0 else Count(xs[..|xs| - 1], p) + (if p(xs[|xs| - 1]) then 1 else 0)
  }

  /** The elements that satisfy `p` and those that satisfy its negation `q` add up to all of them. */
  lemma {:induction false} CountSplits<T>(xs: seq<T>, p: T -> bool, q: T -> bool)
    requires forall x :: q(x) <==> !p(x)
    ensures Count(xs, p) + Count(xs, q) == |xs|
  {
    if xs != [] {
      CountSplits(xs[..|xs| - 1], p, q);
    }
  }

  /** Counting all but the first element, plus the first. */
  lemma {:induction false} CountCons<T>(x: T, xs: seq<T>, p: T -> bool)
    ensures Count([x] + xs, p) == (if p(x) then 1 else 0) + Count(xs, p)
    decreases |xs|
  {
    if xs != [] {
      assert ([x] + xs)[..|xs|] == [x] + xs[..|xs| - 1];
      CountCons(x, xs[..|xs| - 1], p);
    }
  }

  /** The count only depends on `p`'s answers for the elements. */
  lemma {:induction false} CountSame<T, U>(xs: seq<T>, p: T -> bool, ys: seq<U>, q: U -> bool)
    requires |xs| == |ys|
    requires forall i :: 0 <= i < |xs| ==> (p(xs[i]) <==> q(ys[i]))
    ensures Count(xs, p) == Count(ys, q)
  {
    if xs != [] {
      CountSame(xs[..|xs| - 1], p, ys[..|ys| - 1], q);
    }
  }
}
