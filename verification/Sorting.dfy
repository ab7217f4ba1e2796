/** A stable sort, the string order it is used with, and uniqueness of its result. */
module Sorting {

  ghost predicate Total<T(!new)>(leq: (T, T) -> bool) {
    forall a, b :: leq(a, b) || leq(b, a)
  }

  ghost predicate Transitive<T(!new)>(leq: (T, T) -> bool) {
    forall a, b, c :: leq(a, b) && leq(b, c) ==> leq(a, c)
  }

  predicate Sorted<T>(s: seq<T>, leq: (T, T) -> bool) {
    forall i, j :: 0 <= i < j < |s| ==> leq(s[i], s[j])
  }

  /** Puts `x` behind every element not above it, so equal elements keep their order. */
  function Insert<T>(s: seq<T>, x: T, leq: (T, T) -> bool): (r: seq<T>)
    ensures multiset(r) == multiset(s) + multiset{x}
    ensures |r| == |s| + 1
  {
    if s == [] then [x]
    else
      var last := s[|s| - 1];
      assert s == s[..|s| - 1] + [last];
      if leq(last, x) then s + [x]
      else Insert(s[..|s| - 1], x, leq) + [last]
  }

  function SortBy<T>(s: seq<T>, leq: (T, T) -> bool): (r: seq<T>)
    ensures multiset(r) == multiset(s)
    ensures |r| == |s|
  {
    if s == [] then []
    else
      assert s == s[..|s| - 1] + [s[|s| - 1]];
      Insert(SortBy(s[..|s| - 1], leq), s[|s| - 1], leq)
  }

  lemma {:induction false} InsertSorted<T(!new)>(s: seq<T>, x: T, leq: (T, T) -> bool)
    requires Total(leq) && Transitive(leq) && Sorted(s, leq)
    ensures Sorted(Insert(s, x, leq), leq)
  {
    if s != [] {
      var last := s[|s| - 1];
      var front := s[..|s| - 1];
      if !leq(last, x) {
        InsertSorted(front, x, leq);
        var r := Insert(front, x, leq);
        forall i | 0 <= i < |r| ensures leq(r[i], last) {
          assert r[i] in multiset(r);
          assert r[i] in multiset(front) || r[i] == x;
        }
      }
    }
  }

  lemma {:induction false} SortBySorted<T(!new)>(s: seq<T>, leq: (T, T) -> bool)
    requires Total(leq) && Transitive(leq)
    ensures Sorted(SortBy(s, leq), leq)
  {
    if s != [] {
      SortBySorted(s[..|s| - 1], leq);
      InsertSorted(SortBy(s[..|s| - 1], leq), s[|s| - 1], leq);
    }
  }

  lemma BelowLast<T>(s: seq<T>, x: T, leq: (T, T) -> bool)
    requires Sorted(s, leq) && x in s
    ensures x == s[|s| - 1] || leq(x, s[|s| - 1])
  {
    var i :| 0 <= i < |s| && s[i] == x;
  }

  ghost predicate NoTies<T>(s: seq<T>, leq: (T, T) -> bool) {
    forall i, j :: 0 <= i < |s| && 0 <= j < |s| && leq(s[i], s[j]) && leq(s[j], s[i]) ==> s[i] == s[j]
  }

  lemma MultisetFront<T>(s: seq<T>)
    requires s != []
    ensures multiset(s[..|s| - 1]) == multiset(s) - multiset{s[|s| - 1]}
  {
    assert s == s[..|s| - 1] + [s[|s| - 1]];
  }

  /** Two sorted arrangements of the same elements agree when ties are equal elements. */
  lemma {:induction false} SortedUnique<T>(a: seq<T>, b: seq<T>, leq: (T, T) -> bool)
    requires Sorted(a, leq) && Sorted(b, leq)
    requires multiset(a) == multiset(b)
    requires NoTies(a, leq)
    ensures a == b
  {
    assert |multiset(a)| == |a| && |multiset(b)| == |b|;
    if a != [] {
      var la, lb := a[|a| - 1], b[|b| - 1];
      assert la in multiset(b) && lb in multiset(a);
      BelowLast(a, lb, leq);
      BelowLast(b, la, leq);
      assert lb in a;
      assert la == lb;
      var fa, fb := a[..|a| - 1], b[..|b| - 1];
      assert multiset(fa) == multiset(fb) by {
        MultisetFront(a);
        MultisetFront(b);
      }
      SortedUnique(fa, fb, leq);
      assert a == fa + [la] && b == fb + [lb];
    }
  }

  /** Sorting forgets the input order when no two different elements tie. */
  lemma SortForgetsOrder<T(!new)>(a: seq<T>, b: seq<T>, leq: (T, T) -> bool)
    requires Total(leq) && Transitive(leq)
    requires multiset(a) == multiset(b)
    requires NoTies(a, leq)
    ensures SortBy(a, leq) == SortBy(b, leq)
  {
    SortBySorted(a, leq);
    SortBySorted(b, leq);
    var r := SortBy(a, leq);
    forall i, j | 0 <= i < |r| && 0 <= j < |r| && leq(r[i], r[j]) && leq(r[j], r[i]) ensures r[i] == r[j] {
      assert r[i] in multiset(a) && r[j] in multiset(a);
    }
    SortedUnique(r, SortBy(b, leq), leq);
  }

  /** Lexicographic order of strings, the order of Rust's `String::cmp`. */
  predicate StrLeq(a: string, b: string) {
    a == "" || (b != "" && (a[0] < b[0] || (a[0] == b[0] && StrLeq(a[1..], b[1..]))))
  }

  lemma {:induction false} StrLeqTotal(a: string, b: string)
    ensures StrLeq(a, b) || StrLeq(b, a)
  {
    if a != "" && b != "" && a[0] == b[0] { StrLeqTotal(a[1..], b[1..]); }
  }

  lemma {:induction false} StrLeqAntisymmetric(a: string, b: string)
    requires StrLeq(a, b) && StrLeq(b, a)
    ensures a == b
  {
    if a != "" {
      StrLeqAntisymmetric(a[1..], b[1..]);
      assert a == [a[0]] + a[1..] && b == [b[0]] + b[1..];
    }
  }

  lemma {:induction false} StrLeqTransitive(a: string, b: string, c: string)
    requires StrLeq(a, b) && StrLeq(b, c)
    ensures StrLeq(a, c)
  {
    if a != "" && a[0] == b[0] && b[0] == c[0] { StrLeqTransitive(a[1..], b[1..], c[1..]); }
  }

  /** One string is not above another exactly when it begins it, or is smaller at the first place they differ. */
  lemma {:induction false} StrLeqMeaning(a: string, b: string)
    ensures StrLeq(a, b) <==> a <= b || exists k :: SmallerAt(a, b, k)
  {
    if a != "" && b != "" {
      StrLeqMeaning(a[1..], b[1..]);
      assert a == [a[0]] + a[1..] && b == [b[0]] + b[1..];
      if a[0] == b[0] {
        forall k: nat | SmallerAt(a[1..], b[1..], k) ensures SmallerAt(a, b, k + 1) {}
        forall k: nat | SmallerAt(a, b, k) ensures k > 0 && SmallerAt(a[1..], b[1..], k - 1) {
          assert forall j :: 0 <= j < k - 1 ==> a[1..][j] == a[j + 1] && b[1..][j] == b[j + 1];
        }
      } else if a[0] < b[0] {
        assert SmallerAt(a, b, 0);
      } else {
        assert forall k: nat :: SmallerAt(a, b, k) ==> k == 0;
      }
    }
  }

  /** The strings agree before `k`, and there the first is smaller. */
  ghost predicate SmallerAt(a: string, b: string, k: nat) {
    k < |a| && k < |b| && a[k] < b[k] && forall j :: 0 <= j < k ==> a[j] == b[j]
  }

  /** Those elements, in their order. */
  ghost function Keeping<T>(s: seq<T>, keep: T -> bool): seq<T> {
    if s == [] then [] else Keeping(s[..|s| - 1], keep) + if keep(s[|s| - 1]) then [s[|s| - 1]] else []
  }

  ghost function TiedWith<T>(leq: (T, T) -> bool, x: T): T -> bool { (y: T) => leq(x, y) && leq(y, x) }

  lemma {:induction false} InsertStable<T(!new)>(s: seq<T>, x: T, leq: (T, T) -> bool, z: T)
    requires Transitive(leq) && Total(leq)
    ensures Keeping(Insert(s, x, leq), TiedWith(leq, z)) == Keeping(s + [x], TiedWith(leq, z))
  {
    var tied := TiedWith(leq, z);
    assert (s + [x])[..|s|] == s;
    if s == [] {
      assert [x] == [] + [x];
    } else {
      var front, last := s[..|s| - 1], s[|s| - 1];
      if !leq(last, x) {
        InsertStable(front, x, leq, z);
        assert (front + [x])[..|front|] == front;
        assert (Insert(front, x, leq) + [last])[..|Insert(front, x, leq)|] == Insert(front, x, leq);
        assert !(tied(last) && tied(x));
      }
    }
  }

  /** Elements that tie keep the order they came in. */
  lemma {:induction false} SortStable<T(!new)>(s: seq<T>, leq: (T, T) -> bool, z: T)
    requires Transitive(leq) && Total(leq)
    ensures Keeping(SortBy(s, leq), TiedWith(leq, z)) == Keeping(s, TiedWith(leq, z))
  {
    if s != [] {
      var front, last := s[..|s| - 1], s[|s| - 1];
      SortStable(front, leq, z);
      InsertStable(SortBy(front, leq), last, leq, z);
      assert (SortBy(front, leq) + [last])[..|SortBy(front, leq)|] == SortBy(front, leq);
    }
  }
}
