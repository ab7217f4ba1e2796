/** A band and the band that takes its decibels back: together they give back every signal, and so does
    a whole profile followed by its mirror. */
module OppositeBands {
  import opened Basics
  import opened Cascades
  import opened Cookbook
  import opened Equaliser
  import opened EqualiserBuild
  import opened Mapping

  /** Numerator and denominator exchanged, up to a factor. */
  ghost predicate Swapped(r: Raw, s: Raw, k: real) {
    && s.b0 == k * r.a0 && s.b1 == k * r.a1 && s.b2 == k * r.a2
    && s.a0 == k * r.b0 && s.a1 == k * r.b1 && s.a2 == k * r.b2
  }

  lemma PeakingSwapped(r: Raw, s: Raw, a: real, i: real, cos: real, alpha: real)
    requires a > 0.0 && i > 0.0 && a * i == 1.0 && r == Peaking(a, cos, alpha) && s == Peaking(i, cos, alpha)
    ensures Swapped(r, s, 1.0)
  {
    assert alpha / a == alpha * i by { assert (alpha * i) * a == alpha * (a * i); }
    assert alpha / i == alpha * a by { assert (alpha * a) * i == alpha * (a * i); }
  }

  /** The coefficients of the shelves in one plus and one minus the cosine, `p` and `n`. */
  ghost predicate OuterShape(x: real, a: real, p: real, n: real, t: real) { x == a * (a * n + p + t) }

  ghost predicate InnerShape(x: real, a: real, p: real, n: real, t: real) { x == a * p + n + t }

  ghost predicate MiddleShape(b1: real, a1: real, a: real, p: real, n: real) {
    b1 == 2.0 * (a * (a * n - p)) && a1 == -2.0 * (a * p - n)
  }

  ghost predicate LowShape(r: Raw, a: real, p: real, n: real, t: real) {
    && OuterShape(r.b0, a, p, n, t) && OuterShape(r.b2, a, p, n, -t) && MiddleShape(r.b1, r.a1, a, p, n)
    && InnerShape(r.a0, a, p, n, t) && InnerShape(r.a2, a, p, n, -t)
  }

  lemma LowShapes(a: real, cos: real, t: real)
    ensures LowShape(LowShelf(a, cos, t), a, 1.0 + cos, 1.0 - cos, t)
  {
    var p, n := 1.0 + cos, 1.0 - cos;
    assert (a + 1.0) - (a - 1.0) * cos == a * n + p && (a + 1.0) + (a - 1.0) * cos == a * p + n;
    assert (a - 1.0) - (a + 1.0) * cos == a * n - p && (a - 1.0) + (a + 1.0) * cos == a * p - n;
  }

  /** The high shelf is the low one with the two exchanged and the middle coefficients negated. */
  lemma HighShapes(a: real, cos: real, t: real)
    ensures LowShape(Flipped(HighShelf(a, cos, t)), a, 1.0 - cos, 1.0 + cos, t)
  {
    var p, n := 1.0 + cos, 1.0 - cos;
    assert (a + 1.0) - (a - 1.0) * cos == a * n + p && (a + 1.0) + (a - 1.0) * cos == a * p + n;
    assert (a - 1.0) - (a + 1.0) * cos == a * n - p && (a - 1.0) + (a + 1.0) * cos == a * p - n;
  }

  /** The middle coefficients with their signs changed. */
  ghost function Flipped(r: Raw): Raw { Raw(r.b0, -r.b1, r.b2, r.a0, -r.a1, r.a2) }

  lemma FlippedSwapped(r: Raw, s: Raw, k: real)
    requires Swapped(Flipped(r), Flipped(s), k)
    ensures Swapped(r, s, k)
  {
  }

  lemma Once(a: real, i: real, y: real)
    requires a * i == 1.0
    ensures i * (a * y) == y && (i * i) * (a * y) == i * y
  {
    assert i * (a * y) == (a * i) * y;
    assert (i * i) * (a * y) == i * (i * (a * y));
  }

  /** A coefficient with the amplitude in front becomes one without, and the other way round. */
  lemma Outer(a: real, i: real, k: real, p: real, n: real, t: real, u: real, y: real, x: real)
    requires a * i == 1.0 && k == i * i && u == i * t && InnerShape(y, a, p, n, t) && OuterShape(x, i, p, n, u)
    ensures x == k * y
  {
    Once(a, i, p);
    assert i * y == i * n + p + u;
    assert (i * i) * y == i * (i * y);
  }

  lemma Inner(a: real, i: real, k: real, p: real, n: real, t: real, u: real, y: real, x: real)
    requires a * i == 1.0 && k == i * i && u == i * t && OuterShape(y, a, p, n, t) && InnerShape(x, i, p, n, u)
    ensures x == k * y
  {
    Once(a, i, n);
    Once(a, i, a * n + p + t);
    assert i * (a * n + p + t) == n + i * p + u;
  }

  lemma Middle(a: real, i: real, k: real, p: real, n: real, b1: real, a1: real, b1': real, a1': real)
    requires a * i == 1.0 && k == i * i && MiddleShape(b1, a1, a, p, n) && MiddleShape(b1', a1', i, p, n)
    ensures b1' == k * a1 && a1' == k * b1
  {
    Outer(a, i, k, p, -n, 0.0, 0.0, a * p - n, i * (i * -n + p));
    Inner(a, i, k, -p, n, 0.0, 0.0, a * (a * n - p), i * -p + n);
    assert i * (i * -n + p) == -(i * (i * n - p));
  }

  lemma Negated(i: real, t: real, u: real)
    requires u == i * t
    ensures -u == i * -t
  {
  }

  lemma OuterLess(a: real, i: real, k: real, p: real, n: real, t: real, u: real, y: real, x: real)
    requires a * i == 1.0 && k == i * i && u == i * t && InnerShape(y, a, p, n, -t) && OuterShape(x, i, p, n, -u)
    ensures x == k * y
  {
    Negated(i, t, u);
    Outer(a, i, k, p, n, -t, -u, y, x);
  }

  lemma InnerLess(a: real, i: real, k: real, p: real, n: real, t: real, u: real, y: real, x: real)
    requires a * i == 1.0 && k == i * i && u == i * t && OuterShape(y, a, p, n, -t) && InnerShape(x, i, p, n, -u)
    ensures x == k * y
  {
    Negated(i, t, u);
    Inner(a, i, k, p, n, -t, -u, y, x);
  }

  lemma NumeratorSwapped(r: Raw, s: Raw, a: real, i: real, k: real, p: real, n: real, t: real, u: real)
    requires a * i == 1.0 && k == i * i && u == i * t && LowShape(r, a, p, n, t) && LowShape(s, i, p, n, u)
    ensures s.b0 == k * r.a0 && s.b2 == k * r.a2
  {
    Outer(a, i, k, p, n, t, u, r.a0, s.b0);
    OuterLess(a, i, k, p, n, t, u, r.a2, s.b2);
  }

  lemma DenominatorSwapped(r: Raw, s: Raw, a: real, i: real, k: real, p: real, n: real, t: real, u: real)
    requires a * i == 1.0 && k == i * i && u == i * t && LowShape(r, a, p, n, t) && LowShape(s, i, p, n, u)
    ensures s.a0 == k * r.b0
  {
    Inner(a, i, k, p, n, t, u, r.b0, s.a0);
  }

  lemma LastSwapped(r: Raw, s: Raw, a: real, i: real, k: real, p: real, n: real, t: real, u: real)
    requires a * i == 1.0 && k == i * i && u == i * t && LowShape(r, a, p, n, t) && LowShape(s, i, p, n, u)
    ensures s.a2 == k * r.b2
  {
    InnerLess(a, i, k, p, n, t, u, r.b2, s.a2);
  }

  lemma MiddleSwapped(r: Raw, s: Raw, a: real, i: real, k: real, p: real, n: real, t: real, u: real)
    requires a * i == 1.0 && k == i * i && LowShape(r, a, p, n, t) && LowShape(s, i, p, n, u)
    ensures s.b1 == k * r.a1 && s.a1 == k * r.b1
  {
    Middle(a, i, k, p, n, r.b1, r.a1, s.b1, s.a1);
  }

  lemma ShapesSwapped(r: Raw, s: Raw, a: real, i: real, k: real, p: real, n: real, t: real, u: real)
    requires a * i == 1.0 && k == i * i && u == i * t && LowShape(r, a, p, n, t) && LowShape(s, i, p, n, u)
    ensures Swapped(r, s, k)
  {
    NumeratorSwapped(r, s, a, i, k, p, n, t, u);
    DenominatorSwapped(r, s, a, i, k, p, n, t, u);
    LastSwapped(r, s, a, i, k, p, n, t, u);
    MiddleSwapped(r, s, a, i, k, p, n, t, u);
  }

  lemma SameRoot(x: real, y: real)
    requires x >= 0.0 && y > 0.0 && x * x == y * y
    ensures x == y
  {
    assert (x - y) * (x + y) == 0.0;
    CancelFactor(x + y, x - y);
  }

  lemma TermScales(m: Maths, a: real, i: real, sin: real)
    requires Lawful(m) && a > 0.0 && i > 0.0 && a * i == 1.0
    ensures ShelfTerm(m, i, sin) == i * ShelfTerm(m, a, sin)
  {
    RootPositive(m, a);
    var x, y, k := m.root(i), i * m.root(a), sin / 2.0 * m.root(2.0);
    assert x >= 0.0 && x * x == i by { assert SquareRoot(m, i); }
    assert y * y == i by {
      assert SquareRoot(m, a);
      assert y * y == i * (i * (m.root(a) * m.root(a)));
    }
    SameRoot(x, y);
    assert 2.0 * y * k == i * (2.0 * m.root(a) * k);
  }

  lemma Reciprocal(m: Maths, gain: real)
    requires Lawful(m)
    ensures m.power(gain) * m.power(-gain) == 1.0
  {
    assert PowersMultiply(m, gain, -gain);
    assert gain + -gain == 0.0;
  }

  /** The same band with the decibels taken back. */
  function Opposite(band: Band): Band { band.(gain := -band.gain) }

  /** The two amplitudes of a band and its opposite. */
  lemma Amplitudes(m: Maths, band: Band)
    requires Lawful(m)
    ensures m.power(band.gain / 40.0) > 0.0 && m.power(Opposite(band).gain / 40.0) > 0.0
    ensures m.power(band.gain / 40.0) * m.power(Opposite(band).gain / 40.0) == 1.0
  {
    Reciprocal(m, band.gain / 40.0);
    NegativeOver(band.gain, Opposite(band).gain, 40.0);
  }

  lemma NegativeOver(x: real, y: real, k: real)
    requires y == -x && k > 0.0
    ensures y / k == -(x / k)
  {
    assert (y / k + x / k) * k == 0.0;
    CancelFactor(k, y / k + x / k);
  }

  lemma LowShelfSwapped(r: Raw, s: Raw, a: real, i: real, cos: real, t: real, u: real, k: real)
    requires a * i == 1.0 && u == i * t && k == i * i && r == LowShelf(a, cos, t) && s == LowShelf(i, cos, u)
    ensures Swapped(r, s, k)
  {
    LowShapes(a, cos, t);
    LowShapes(i, cos, u);
    ShapesSwapped(r, s, a, i, k, 1.0 + cos, 1.0 - cos, t, u);
  }

  lemma HighShelfSwapped(r: Raw, s: Raw, a: real, i: real, cos: real, t: real, u: real, k: real)
    requires a * i == 1.0 && u == i * t && k == i * i && r == HighShelf(a, cos, t) && s == HighShelf(i, cos, u)
    ensures Swapped(r, s, k)
  {
    HighShapes(a, cos, t);
    HighShapes(i, cos, u);
    ShapesSwapped(Flipped(r), Flipped(s), a, i, k, 1.0 - cos, 1.0 + cos, t, u);
    FlippedSwapped(r, s, k);
  }

  lemma PeakingRaws(m: Maths, rate: nat, band: Band, a: real, i: real)
    returns (r: Raw, s: Raw, cos: real, alpha: real)
    requires (forall x :: m.power(x) > 0.0) && band.kind == "peaking"
    requires a == m.power(band.gain / 40.0) && i == m.power(Opposite(band).gain / 40.0)
    ensures r == RawOf(m, rate, band) && s == RawOf(m, rate, Opposite(band))
    ensures r == Peaking(a, cos, alpha) && s == Peaking(i, cos, alpha)
  {
    var w := Angle(m, rate as real, band.freq);
    r, s, cos, alpha := RawOf(m, rate, band), RawOf(m, rate, Opposite(band)), m.cos(w), Alpha(m.sin(w), band.q);
  }

  lemma LowShelfRaws(m: Maths, rate: nat, band: Band, a: real, i: real)
    returns (r: Raw, s: Raw, cos: real, sin: real)
    requires (forall x :: m.power(x) > 0.0) && band.kind == "lowshelf"
    requires a == m.power(band.gain / 40.0) && i == m.power(Opposite(band).gain / 40.0)
    ensures r == RawOf(m, rate, band) && s == RawOf(m, rate, Opposite(band))
    ensures r == LowShelf(a, cos, ShelfTerm(m, a, sin)) && s == LowShelf(i, cos, ShelfTerm(m, i, sin))
  {
    var w := Angle(m, rate as real, band.freq);
    r, s, cos, sin := RawOf(m, rate, band), RawOf(m, rate, Opposite(band)), m.cos(w), m.sin(w);
  }

  lemma HighShelfRaws(m: Maths, rate: nat, band: Band, a: real, i: real)
    returns (r: Raw, s: Raw, cos: real, sin: real)
    requires (forall x :: m.power(x) > 0.0) && band.kind == "highshelf"
    requires a == m.power(band.gain / 40.0) && i == m.power(Opposite(band).gain / 40.0)
    ensures r == RawOf(m, rate, band) && s == RawOf(m, rate, Opposite(band))
    ensures r == HighShelf(a, cos, ShelfTerm(m, a, sin)) && s == HighShelf(i, cos, ShelfTerm(m, i, sin))
  {
    var w := Angle(m, rate as real, band.freq);
    r, s, cos, sin := RawOf(m, rate, band), RawOf(m, rate, Opposite(band)), m.cos(w), m.sin(w);
  }

  lemma PeakingOpposite(m: Maths, rate: nat, band: Band)
    returns (r: Raw, s: Raw, k: real)
    requires Lawful(m) && band.kind == "peaking"
    ensures r == RawOf(m, rate, band) && s == RawOf(m, rate, Opposite(band)) && k > 0.0 && Swapped(r, s, k)
  {
    var (a, i) := (m.power(band.gain / 40.0), m.power(Opposite(band).gain / 40.0));
    Amplitudes(m, band);
    k := 1.0;
    var cos, alpha;
    r, s, cos, alpha := PeakingRaws(m, rate, band, a, i);
    PeakingSwapped(r, s, a, i, cos, alpha);
  }

  lemma LowShelvesExchange(m: Maths, r: Raw, s: Raw, a: real, i: real, cos: real, sin: real)
    requires Lawful(m) && a > 0.0 && i > 0.0 && a * i == 1.0
    requires r == LowShelf(a, cos, ShelfTerm(m, a, sin)) && s == LowShelf(i, cos, ShelfTerm(m, i, sin))
    ensures i * i > 0.0 && Swapped(r, s, i * i)
  {
    TermScales(m, a, i, sin);
    LowShelfSwapped(r, s, a, i, cos, ShelfTerm(m, a, sin), ShelfTerm(m, i, sin), i * i);
  }

  lemma LowShelfOpposite(m: Maths, rate: nat, band: Band)
    returns (r: Raw, s: Raw, k: real)
    requires Lawful(m) && band.kind == "lowshelf"
    ensures r == RawOf(m, rate, band) && s == RawOf(m, rate, Opposite(band)) && k > 0.0 && Swapped(r, s, k)
  {
    var (a, i) := (m.power(band.gain / 40.0), m.power(Opposite(band).gain / 40.0));
    Amplitudes(m, band);
    k := i * i;
    var cos, sin;
    r, s, cos, sin := LowShelfRaws(m, rate, band, a, i);
    LowShelvesExchange(m, r, s, a, i, cos, sin);
  }

  lemma HighShelvesExchange(m: Maths, r: Raw, s: Raw, a: real, i: real, cos: real, sin: real)
    requires Lawful(m) && a > 0.0 && i > 0.0 && a * i == 1.0
    requires r == HighShelf(a, cos, ShelfTerm(m, a, sin)) && s == HighShelf(i, cos, ShelfTerm(m, i, sin))
    ensures i * i > 0.0 && Swapped(r, s, i * i)
  {
    TermScales(m, a, i, sin);
    HighShelfSwapped(r, s, a, i, cos, ShelfTerm(m, a, sin), ShelfTerm(m, i, sin), i * i);
  }

  lemma HighShelfOpposite(m: Maths, rate: nat, band: Band)
    returns (r: Raw, s: Raw, k: real)
    requires Lawful(m) && band.kind == "highshelf"
    ensures r == RawOf(m, rate, band) && s == RawOf(m, rate, Opposite(band)) && k > 0.0 && Swapped(r, s, k)
  {
    var (a, i) := (m.power(band.gain / 40.0), m.power(Opposite(band).gain / 40.0));
    Amplitudes(m, band);
    k := i * i;
    var cos, sin;
    r, s, cos, sin := HighShelfRaws(m, rate, band, a, i);
    HighShelvesExchange(m, r, s, a, i, cos, sin);
  }

  lemma Exchanged(m: Maths, rate: nat, band: Band)
    returns (r: Raw, s: Raw, k: real)
    requires Lawful(m) && PlayableBand(band)
    ensures r == RawOf(m, rate, band) && s == RawOf(m, rate, Opposite(band)) && k > 0.0 && Swapped(r, s, k)
  {
    if band.kind == "peaking" {
      r, s, k := PeakingOpposite(m, rate, band);
    } else if band.kind == "lowshelf" {
      r, s, k := LowShelfOpposite(m, rate, band);
    } else {
      r, s, k := HighShelfOpposite(m, rate, band);
    }
  }

  /** The coefficients `d` take back what `c` does. */
  ghost predicate Undoes(c: Coefficients, d: Coefficients) {
    && d.b0 * c.b0 == 1.0
    && d.b1 == d.b0 * c.a1 && d.b2 == d.b0 * c.a2
    && d.a1 == d.b0 * c.b1 && d.a2 == d.b0 * c.b2
  }

  lemma Fractions(x: real, y: real, z: real)
    requires x > 0.0 && y > 0.0
    ensures z / y == (x / y) * (z / x)
  {
    assert (x / y) * (z / x) * y == x * (z / x) == z;
  }

  lemma Common(k: real, x: real, y: real)
    requires k > 0.0 && y > 0.0
    ensures (k * x) / (k * y) == x / y
  {
    assert (x / y) * (k * y) == k * ((x / y) * y) == k * x;
  }

  lemma SwappedNormalised(r: Raw, s: Raw, k: real)
    requires Swapped(r, s, k) && k > 0.0 && r.b0 > 0.0 && s.a0 > 0.0
    ensures Normalised(s) == Coefficients(r.a0 / r.b0, r.a1 / r.b0, r.a2 / r.b0, r.b1 / r.b0, r.b2 / r.b0)
  {
    Common(k, r.a0, r.b0);
    Common(k, r.a1, r.b0);
    Common(k, r.a2, r.b0);
    Common(k, r.b1, r.b0);
    Common(k, r.b2, r.b0);
  }

  lemma QuotientsUndo(r: Raw, d: Coefficients)
    requires r.a0 > 0.0 && r.b0 > 0.0
    requires d == Coefficients(r.a0 / r.b0, r.a1 / r.b0, r.a2 / r.b0, r.b1 / r.b0, r.b2 / r.b0)
    ensures Undoes(Normalised(r), d)
  {
    Fractions(r.a0, r.b0, r.b0);
    Fractions(r.a0, r.b0, r.a1);
    Fractions(r.a0, r.b0, r.a2);
    Fractions(r.a0, r.b0, r.b1);
    Fractions(r.a0, r.b0, r.b2);
  }

  lemma SwappedUndoes(r: Raw, s: Raw, k: real)
    requires Swapped(r, s, k) && k > 0.0 && r.a0 > 0.0 && r.b0 > 0.0 && s.a0 > 0.0
    ensures Undoes(Normalised(r), Normalised(s))
  {
    SwappedNormalised(r, s, k);
    QuotientsUndo(r, Normalised(s));
  }

  /** What one remembers having played, the other remembers having been given, and the other way round. */
  ghost predicate Mirrors(b: Biquad, e: Biquad) {
    && Undoes(b.c, e.c)
    && e.x1 == b.y1 && e.x2 == b.y2 && e.y1 == b.x1 && e.y2 == b.x2
  }

  lemma Unit(x: real, y: real, z: real)
    requires x * y == 1.0
    ensures x * (y * z) == z
  {
    assert x * (y * z) == (x * y) * z;
  }

  lemma Regroup(k: real, a: real, x: real, b: real)
    requires b == k * a
    ensures b * x == k * (a * x)
  {
  }

  lemma TakenBack(b: Biquad, e: Biquad, x: real)
    requires Mirrors(b, e)
    ensures Output(e, Output(b, x)) == x
  {
    var y, c, d := Output(b, x), b.c, e.c;
    Regroup(d.b0, c.a1, b.y1, d.b1);
    Regroup(d.b0, c.a2, b.y2, d.b2);
    Regroup(d.b0, c.b1, b.x1, d.a1);
    Regroup(d.b0, c.b2, b.x2, d.a2);
    var rest := c.b1 * b.x1 + c.b2 * b.x2 - c.a1 * b.y1 - c.a2 * b.y2;
    assert y == c.b0 * x + rest;
    assert Output(e, y) == d.b0 * y - d.b0 * rest == d.b0 * (y - rest);
    Unit(d.b0, c.b0, x);
  }

  lemma {:induction false} MirrorRestores(b: Biquad, e: Biquad, xs: seq<real>)
    requires Mirrors(b, e)
    ensures Filter(Process, [e], Filter(Process, [b], xs)) == xs
    decreases xs
  {
    if xs != [] {
      var ys := Filter(Process, [b], xs);
      OneStage(b, xs);
      OneStage(e, ys);
      TakenBack(b, e, xs[0]);
      MirrorRestores(Process(b, xs[0]).0, Process(e, ys[0]).0, xs[1..]);
    }
  }

  /** A band and then its opposite give back every signal, sample for sample. */
  lemma OppositeRestores(m: Maths, rate: nat, band: Band, filter: Biquad, opposite: Biquad, xs: seq<real>)
    requires Lawful(m) && MadeFor(m, rate, band, filter) && MadeFor(m, rate, Opposite(band), opposite)
    ensures Filter(Process, [opposite], Filter(Process, [filter], xs)) == xs
  {
    Leads(m, rate, band, filter);
    Leads(m, rate, Opposite(band), opposite);
    var r, s, k := Exchanged(m, rate, band);
    SwappedUndoes(r, s, k);
    MirrorRestores(filter, opposite, xs);
  }

  // ---- Whole profiles ---------------------------------------------------------------

  /** The opposites of the bands, last first. */
  function Mirrored(bands: seq<Band>): seq<Band> {
    if bands == [] then [] else Mirrored(bands[1..]) + [Opposite(bands[0])]
  }

  ghost predicate Below(bands: seq<Band>, rate: nat) {
    forall i :: 0 <= i < |bands| ==> PlayableBand(bands[i]) && 2.0 * bands[i].freq < rate as real
  }

  lemma DesignedFor(m: Maths, rate: nat, band: Band) returns (filter: Biquad)
    requires Lawful(m) && PlayableBand(band) && 2.0 * band.freq < rate as real
    ensures MadeFor(m, rate, band, filter) && Build(Rbj(m), rate, [band]) == [filter]
  {
    var f := Rbj(m);
    assert [band][1..] == [];
    assert Build(f, rate, [band]) == Design(f, rate, band) + [];
    filter := Build(f, rate, [band])[0];
  }

  lemma BuiltBetween(f: Formulas, rate: nat, first: Band, inner: seq<Band>, last: Band)
    ensures Build(f, rate, [first] + inner + [last]) ==
              Build(f, rate, [first]) + Build(f, rate, inner) + Build(f, rate, [last])
  {
    BuildJoin(f, rate, [first] + inner, [last]);
    BuildJoin(f, rate, [first], inner);
  }

  /** Stages that give everything back, between two that do. */
  lemma BetweenOpposites(b: Biquad, inner: seq<Biquad>, e: Biquad, xs: seq<real>)
    requires Filter(Process, inner, Filter(Process, [b], xs)) == Filter(Process, [b], xs)
    requires Filter(Process, [e], Filter(Process, [b], xs)) == xs
    ensures Filter(Process, [b] + inner + [e], xs) == xs
  {
    FilterSplit(Process, [b] + inner, [e], xs);
    FilterSplit(Process, [b], inner, xs);
  }

  /** Any bands and then their mirror give back every signal. */
  lemma {:induction false} MirrorGivesBack(m: Maths, rate: nat, bands: seq<Band>, xs: seq<real>)
    requires Lawful(m) && Below(bands, rate)
    ensures Filter(Process, Build(Rbj(m), rate, bands + Mirrored(bands)), xs) == xs
    decreases bands
  {
    if bands == [] {
      NoStages(xs);
    } else {
      var f, first, rest := Rbj(m), bands[0], bands[1..];
      var inner := rest + Mirrored(rest);
      var b := DesignedFor(m, rate, first);
      var e := DesignedFor(m, rate, Opposite(first));
      assert bands + Mirrored(bands) == [first] + inner + [Opposite(first)];
      BuiltBetween(f, rate, first, inner, Opposite(first));
      MirrorGivesBack(m, rate, rest, Filter(Process, [b], xs));
      OppositeRestores(m, rate, first, b, e, xs);
      BetweenOpposites(b, Build(f, rate, inner), e, xs);
    }
  }

  lemma {:induction false} NoStages(xs: seq<real>)
    ensures Filter(Process, [], xs) == xs
    decreases xs
  {
    if xs != [] { NoStages(xs[1..]); }
  }

  lemma ExponentialFormulas(m: Maths)
    requires Lawful(m)
    ensures Exponential(Rbj(m))
  {
    var f := Rbj(m);
    forall x, y ensures Multiplies(f, x, y) {
      assert PowersMultiply(m, x / 20.0, y / 20.0);
      assert (x + y) / 20.0 == x / 20.0 + y / 20.0;
    }
    forall x ensures f.amplitude(x) == 1.0 <==> x == 0.0 {
      assert x / 20.0 == 0.0 <==> x == 0.0;
    }
  }

  /** A correction and a listening profile that mirrors it, composed as the server composes them, play
      every signal as it came. */
  lemma MirroredProfileIsSilent(m: Maths, correction: Profile, listening: Profile, rate: nat, frames: seq<(real, real)>)
    requires Lawful(m) && Compose(Some(correction), Some(listening)).Ok?
    requires Renderer(Rbj(m), Compose(Some(correction), Some(listening)).value, rate).Ok?
    requires listening.bands == Mirrored(correction.bands) && listening.preampDb == -correction.preampDb
    ensures Heard(Renderer(Rbj(m), Compose(Some(correction), Some(listening)).value, rate).value, frames) == frames
  {
    var f, p := Rbj(m), Compose(Some(correction), Some(listening)).value.value;
    ComposeMeaning(Some(correction), Some(listening));
    RefusalMeaning(p, rate);
    assert p.preampDb == 0.0 && p.bands == correction.bands + Mirrored(correction.bands);
    forall i | 0 <= i < |correction.bands|
      ensures PlayableBand(correction.bands[i]) && 2.0 * correction.bands[i].freq < rate as real
    {
      assert correction.bands[i] == p.bands[i];
    }
    var eq := Renderer(f, Some(p), rate).value;
    if eq.Some? {
      var chain := ChainOf(eq.value);
      ExponentialFormulas(m);
      assert forall xs :: Map(chain.gain, xs) == xs by {
        assert eq.value.preamp == 1.0;
        forall xs: seq<real> ensures Map(chain.gain, xs) == xs {
          forall i | 0 <= i < |xs| ensures Map(chain.gain, xs)[i] == xs[i] {}
        }
      }
      PlayByChannel(Process, chain, frames);
      MirrorGivesBack(m, rate, correction.bands, Lefts(frames));
      MirrorGivesBack(m, rate, correction.bands, Rights(frames));
      SameChannels(Play(Process, chain, frames), frames);
    }
  }

  lemma {:induction false} LeadingCoefficients(m: Maths, rate: nat, bands: seq<Band>)
    requires Lawful(m) && Below(bands, rate)
    ensures Prompt(Build(Rbj(m), rate, bands))
  {
    if bands != [] {
      var f := Rbj(m);
      LeadingCoefficients(m, rate, bands[1..]);
      var b := DesignedFor(m, rate, bands[0]);
      Leads(m, rate, bands[0], b);
      assert bands == [bands[0]] + bands[1..];
      BuildJoin(f, rate, [bands[0]], bands[1..]);
      PositiveQuotient(RawOf(m, rate, bands[0]).b0, RawOf(m, rate, bands[0]).a0);
    }
  }

  lemma PositiveQuotient(x: real, y: real)
    requires x > 0.0 && y > 0.0
    ensures x / y > 0.0
  {
  }

  /** With these formulas the exact condition for composing needs no assumption about coefficients. */
  lemma ComposedExactly(m: Maths, correction: Option<Profile>, listening: Option<Profile>, rate: nat)
    requires Lawful(m)
    requires Compose(correction, listening).Ok? && Renderer(Rbj(m), Compose(correction, listening).value, rate).Ok?
    ensures Renderer(Rbj(m), correction, rate).Ok? && Renderer(Rbj(m), listening, rate).Ok?
    ensures (forall frames :: SameSound(Rbj(m), correction, listening, rate, frames)) <==>
              Dropped(Compose(correction, listening).value) == Dropped(correction) + Dropped(listening)
  {
    var f, effective := Rbj(m), Compose(correction, listening).value;
    ExponentialFormulas(m);
    if effective.Some? {
      RefusalMeaning(effective.value, rate);
      LeadingCoefficients(m, rate, effective.value.bands);
    }
    CompositionCondition(f, correction, listening, rate);
  }
}
