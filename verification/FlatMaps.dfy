/** Concatenations of encoded elements, and when they can be taken apart again. */
module FlatMaps {

  function FlatMap<A, B>(f: A -> seq<B>, xs: seq<A>): seq<B> {
    if xs == [] then [] else f(xs[0]) + FlatMap(f, xs[1..])
  }

  lemma {:induction false} FlatMapConcat<A, B>(f: A -> seq<B>, xs: seq<A>, ys: seq<A>)
    ensures FlatMap(f, xs + ys) == FlatMap(f, xs) + FlatMap(f, ys)
  {
    if xs == [] {
      assert xs + ys == ys;
    } else {
      FlatMapConcat(f, xs[1..], ys);
      assert (xs + ys)[1..] == xs[1..] + ys;
      assert f(xs[0]) + (FlatMap(f, xs[1..]) + FlatMap(f, ys)) == f(xs[0]) + FlatMap(f, xs[1..]) + FlatMap(f, ys);
    }
  }

  lemma FlatMapOne<A, B>(f: A -> seq<B>, x: A)
    ensures FlatMap(f, [x]) == f(x)
  {
    assert FlatMap(f, [x]) == f(x) + FlatMap(f, []);
  }

  lemma FlatMapSnoc<A, B>(f: A -> seq<B>, xs: seq<A>, x: A)
    ensures FlatMap(f, xs + [x]) == FlatMap(f, xs) + f(x)
  {
    FlatMapConcat(f, xs, [x]);
    FlatMapOne(f, x);
  }

  /** From equal texts that each start with an encoded element, the element and the rest can be read off. */
  ghost predicate ReadsOff<A, B>(f: A -> seq<B>, a: A, b: A, s: seq<B>, t: seq<B>) {
    f(a) + s == f(b) + t ==> a == b && s == t
  }

  ghost predicate Decodable<A(!new), B(!new)>(f: A -> seq<B>) {
    && (forall a :: f(a) != [])
    && forall a, b, s, t :: ReadsOff(f, a, b, s, t)
  }

  /** Then whole runs of elements can be read off. */
  lemma {:induction false} FlatMapInjective<A(!new), B(!new)>(f: A -> seq<B>, xs: seq<A>, ys: seq<A>)
    requires Decodable(f) && FlatMap(f, xs) == FlatMap(f, ys)
    ensures xs == ys
    decreases |xs|
  {
    if xs != [] && ys != [] {
      assert ReadsOff(f, xs[0], ys[0], FlatMap(f, xs[1..]), FlatMap(f, ys[1..]));
      FlatMapInjective(f, xs[1..], ys[1..]);
      assert xs == [xs[0]] + xs[1..] && ys == [ys[0]] + ys[1..];
    }
  }
}
