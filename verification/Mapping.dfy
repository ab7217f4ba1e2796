/** Applying a function to every element of a sequence. */
module Mapping {
  import opened Sorting

  function Map<A, B>(f: A -> B, xs: seq<A>): (r: seq<B>)
    ensures |r| == |xs|
    ensures forall i :: 0 <= i < |xs| ==> r[i] == f(xs[i])
  {
    seq(|xs|, i requires 0 <= i < |xs| => f(xs[i]))
  }

  lemma MapTail<A, B>(f: A -> B, xs: seq<A>)
    requires xs != []
    ensures Map(f, xs)[1..] == Map(f, xs[1..])
  {
  }

  lemma MapCons<A, B>(f: A -> B, x: A, xs: seq<A>)
    ensures Map(f, [x] + xs) == [f(x)] + Map(f, xs)
  {
  }

  lemma MapMember<A, B>(f: A -> B, xs: seq<A>, k: nat)
    requires k < |xs|
    ensures multiset(Map(f, xs)) == multiset(Map(f, xs[..k] + xs[k + 1..])) + multiset{f(xs[k])}
  {
    var ys := Map(f, xs);
    assert ys == ys[..k] + [f(xs[k])] + ys[k + 1..];
    assert Map(f, xs[..k] + xs[k + 1..]) == ys[..k] + ys[k + 1..];
  }

  /** A rearrangement maps to a rearrangement. */
  lemma {:induction false} MapPermuted<A, B>(f: A -> B, xs: seq<A>, ys: seq<A>)
    requires multiset(xs) == multiset(ys)
    ensures multiset(Map(f, xs)) == multiset(Map(f, ys))
    decreases |xs|
  {
    assert |multiset(xs)| == |xs| && |multiset(ys)| == |ys|;
    if xs != [] {
      var n := |xs| - 1;
      assert xs[n] in multiset(ys);
      var k :| 0 <= k < |ys| && ys[k] == xs[n];
      var front, rest := xs[..n], ys[..k] + ys[k + 1..];
      assert multiset(front) == multiset(rest) by {
        MultisetFront(xs);
        assert ys == ys[..k] + [ys[k]] + ys[k + 1..];
      }
      MapPermuted(f, front, rest);
      MapMember(f, ys, k);
      MapMember(f, xs, n);
      assert xs[..n] + xs[n + 1..] == front;
    }
  }
}
