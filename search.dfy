/**
 * First-success search over an ordered list of candidates: the shape shared by
 * every fallback loop of both downloaders ("try each in turn, return on the
 * first that works").
 */
module Search {

  /** The position of the first candidate that `hit` accepts, or `|xs|` when none does. */
  function FirstHit<T>(xs: seq<T>, hit: T -> bool): (k: nat)
    ensures k <= |xs|
    ensures k < |xs| ==> hit(xs[k])
    ensures forall j :: 0 <= j < k ==> !hit(xs[j])
  {
    if xs == [] then 0
    else if hit(xs[0]) then 0
    else 1 + FirstHit(xs[1..], hit)
  }

  /** The candidates a search looks at: all up to and including the first hit. */
  function Tried<T>(xs: seq<T>, hit: T -> bool): (t: seq<T>)
    ensures t <= xs
    ensures t == xs || (t != [] && hit(t[|t| - 1]))
  {
    var k := FirstHit(xs, hit);
    if k < |xs| then xs[..k + 1] else xs
  }

  /** The loop "for each candidate in turn, stop at the first that `hit` accepts". */
  method FindFirst<T>(xs: seq<T>, hit: T -> bool) returns (k: nat)
    ensures k == FirstHit(xs, hit)
  {
    k := 0;
    while k < |xs|
      invariant k <= |xs|
      invariant forall j :: 0 <= j < k ==> !hit(xs[j])
    {
      if hit(xs[k]) {
        FirstHitIs(xs, hit, k);
        return;
      }
      k := k + 1;
    }
    FirstHitIs(xs, hit, k);
  }

  /** A position with a hit and only misses before it is the first hit. */
  lemma FirstHitIs<T>(xs: seq<T>, hit: T -> bool, k: nat)
    requires k <= |xs|
    requires k < |xs| ==> hit(xs[k])
    requires forall j :: 0 <= j < k ==> !hit(xs[j])
    ensures FirstHit(xs, hit) == k
  {
  }

  /**
   * A prefix of the candidates whose members all miss except possibly the
   * last, which hits, is exactly what the search tries.
   */
  lemma TriedIs<T>(xs: seq<T>, hit: T -> bool, prefix: seq<T>)
    requires prefix <= xs
    requires forall j :: 0 <= j < |prefix| - 1 ==> !hit(prefix[j])
    requires prefix == xs || (prefix != [] && hit(prefix[|prefix| - 1]))
    ensures Tried(xs, hit) == prefix
  {
    if prefix == xs {
      if xs != [] && hit(xs[|xs| - 1]) {
        FirstHitIs(xs, hit, |xs| - 1);
      } else {
        forall j | 0 <= j < |xs| ensures !hit(xs[j]) {
          assert xs[j] == prefix[j];
        }
        FirstHitIs(xs, hit, |xs|);
      }
    } else {
      FirstHitIs(xs, hit, |prefix| - 1);
      assert xs[..|prefix|] == prefix;
    }
  }
}
