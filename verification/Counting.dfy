/** Counting elements, and the rows of a map in the order of its keys. */
module Counting {
  import opened Sorting

  function Count<T>(xs: seq<T>, p: T -> bool): nat {
    if xs == [] then 0 else Count(xs[..|xs| - 1], p) + if p(xs[|xs| - 1]) then 1 else 0
  }

  lemma CountSnoc<T>(xs: seq<T>, x: T, p: T -> bool)
    ensures Count(xs + [x], p) == Count(xs, p) + if p(x) then 1 else 0
  {
    assert (xs + [x])[..|xs|] == xs;
  }

  lemma {:induction false} CountConcat<T>(xs: seq<T>, ys: seq<T>, p: T -> bool)
    ensures Count(xs + ys, p) == Count(xs, p) + Count(ys, p)
  {
    if ys == [] {
      assert xs + ys == xs;
    } else {
      var n := |ys| - 1;
      CountConcat(xs, ys[..n], p);
      assert xs + ys == (xs + ys[..n]) + [ys[n]];
      CountSnoc(xs + ys[..n], ys[n], p);
    }
  }

  lemma {:induction false} CountSame<T, U>(xs: seq<T>, p: T -> bool, ys: seq<U>, q: U -> bool)
    requires |xs| == |ys| && forall i :: 0 <= i < |xs| ==> p(xs[i]) == q(ys[i])
    ensures Count(xs, p) == Count(ys, q)
  {
    if xs != [] { CountSame(xs[..|xs| - 1], p, ys[..|ys| - 1], q); }
  }

  /** A rearrangement has the same count. */
  lemma {:induction false} CountPermuted<T>(xs: seq<T>, ys: seq<T>, p: T -> bool)
    requires multiset(xs) == multiset(ys)
    ensures Count(xs, p) == Count(ys, p)
    decreases |xs|
  {
    assert |multiset(xs)| == |xs| && |multiset(ys)| == |ys|;
    if xs != [] {
      var x := xs[|xs| - 1];
      assert x in multiset(ys);
      var k :| 0 <= k < |ys| && ys[k] == x;
      var rest := ys[..k] + ys[k + 1..];
      assert ys == ys[..k] + [x] + ys[k + 1..];
      MultisetFront(xs);
      assert multiset(rest) == multiset(ys) - multiset{x};
      CountPermuted(xs[..|xs| - 1], rest, p);
      CountConcat(ys[..k] + [x], ys[k + 1..], p);
      CountSnoc(ys[..k], x, p);
      CountConcat(ys[..k], ys[k + 1..], p);
    }
  }

  lemma {:induction false} CountPositive<T>(xs: seq<T>, p: T -> bool)
    ensures Count(xs, p) > 0 <==> exists i :: 0 <= i < |xs| && p(xs[i])
  {
    if xs != [] {
      var front := xs[..|xs| - 1];
      CountPositive(front, p);
      if Count(front, p) > 0 {
        var i :| 0 <= i < |front| && p(front[i]);
        assert p(xs[i]);
      }
    }
  }

  lemma {:induction false} CountDistinct<T, K>(xs: seq<T>, key: T -> K, k: K, p: T -> bool)
    requires forall i, j :: 0 <= i < j < |xs| ==> key(xs[i]) != key(xs[j])
    requires forall i :: 0 <= i < |xs| ==> (p(xs[i]) <==> key(xs[i]) == k)
    ensures Count(xs, p) <= 1
  {
    if xs != [] {
      var front := xs[..|xs| - 1];
      CountDistinct(front, key, k, p);
      CountPositive(front, p);
    }
  }

  // ---- Maps in key order ------------------------------------------------------------

  predicate IsLeast(s: set<string>, k: string) { k in s && forall j | j in s :: StrLeq(k, j) }

  lemma {:induction false} LeastExists(s: set<string>)
    requires s != {}
    ensures exists k :: IsLeast(s, k)
  {
    var x :| x in s;
    if s == {x} {
      StrLeqTotal(x, x);
      assert IsLeast(s, x);
    } else {
      LeastExists(s - {x});
      var y :| IsLeast(s - {x}, y);
      StrLeqTotal(x, y);
      StrLeqTotal(x, x);
      var k := if StrLeq(x, y) then x else y;
      forall j | j in s ensures StrLeq(k, j) {
        if j != x { StrLeqTransitive(k, y, j); }
      }
      assert IsLeast(s, k);
    }
  }

  function Least(s: set<string>): (k: string)
    requires s != {}
    ensures IsLeast(s, k)
  {
    LeastExists(s);
    assert forall a, b :: IsLeast(s, a) && IsLeast(s, b) ==> a == b by {
      forall a, b | IsLeast(s, a) && IsLeast(s, b) ensures a == b { StrLeqAntisymmetric(a, b); }
    }
    var k :| k in s && IsLeast(s, k);
    k
  }

  /** The keys of a `BTreeMap`, in order. */
  function KeysInOrder(s: set<string>): (r: seq<string>)
    ensures |r| == |s|
    ensures forall k :: k in r <==> k in s
    ensures forall i, j :: 0 <= i < j < |r| ==> r[i] != r[j]
  {
    if s == {} then []
    else
      var k := Least(s);
      var rest := KeysInOrder(s - {k});
      assert k !in rest;
      [k] + rest
  }

  function Rows<V>(m: map<string, V>): (r: seq<V>)
    ensures |r| == |KeysInOrder(m.Keys)|
    ensures forall i :: 0 <= i < |r| ==> KeysInOrder(m.Keys)[i] in m && r[i] == m[KeysInOrder(m.Keys)[i]]
  {
    var keys := KeysInOrder(m.Keys);
    assert forall i :: 0 <= i < |keys| ==> keys[i] in keys;
    seq(|keys|, i requires 0 <= i < |keys| => m[keys[i]])
  }

  /** Rows keyed by the keys they come from: one row for each key. */
  lemma OneRowEach<R>(rows: seq<R>, keys: set<string>, key: R -> string, id: string, p: R -> bool)
    requires |rows| == |KeysInOrder(keys)| && forall i :: 0 <= i < |rows| ==> key(rows[i]) == KeysInOrder(keys)[i]
    requires forall i :: 0 <= i < |rows| ==> (p(rows[i]) <==> key(rows[i]) == id)
    ensures Count(rows, p) == if id in keys then 1 else 0
  {
    var order := KeysInOrder(keys);
    forall i, j | 0 <= i < j < |rows| ensures key(rows[i]) != key(rows[j]) { assert order[i] != order[j]; }
    CountDistinct(rows, key, id, p);
    CountPositive(rows, p);
    if id in keys {
      assert id in order;
      var i :| 0 <= i < |order| && order[i] == id;
      assert p(rows[i]);
    } else {
      forall i | 0 <= i < |rows| ensures !p(rows[i]) { assert order[i] in order; }
    }
  }
}
