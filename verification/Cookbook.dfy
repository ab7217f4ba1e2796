/** The coefficient formulas of the three kinds of band, and what the filters they give do to a signal.
    Sines, powers and roots are given; only their laws are used. */
module Cookbook {
  import opened Basics
  import opened Cascades
  import opened Equaliser
  import opened EqualiserBuild

  /** `power` is ten to the power of its argument. */
  datatype Maths = Maths(sin: real -> real, cos: real -> real, power: real -> real, root: real -> real, pi: real)

  ghost predicate Lawful(m: Maths) {
    && (forall x, y :: PowersMultiply(m, x, y))
    && (forall x :: m.power(x) > 0.0 && (m.power(x) == 1.0 <==> x == 0.0))
    && (forall x :: x >= 0.0 ==> SquareRoot(m, x))
    && m.pi > 0.0
    && (forall w :: Pythagoras(m, w))
    && (forall w :: 0.0 < w < m.pi ==> m.sin(w) > 0.0 && -1.0 < m.cos(w) < 1.0)
  }

  ghost predicate PowersMultiply(m: Maths, x: real, y: real) { m.power(x + y) == m.power(x) * m.power(y) }

  ghost predicate SquareRoot(m: Maths, x: real) { m.root(x) >= 0.0 && m.root(x) * m.root(x) == x }

  ghost predicate Pythagoras(m: Maths, w: real) { m.cos(w) * m.cos(w) + m.sin(w) * m.sin(w) == 1.0 }

  /** Coefficients before they are divided by the leading one. */
  datatype Raw = Raw(b0: real, b1: real, b2: real, a0: real, a1: real, a2: real)

  /** The leading coefficient is never zero below half the sample rate. */
  function Normalised(r: Raw): Coefficients {
    if r.a0 == 0.0 then Coefficients(0.0, 0.0, 0.0, 0.0, 0.0)
    else Coefficients(r.b0 / r.a0, r.b1 / r.a0, r.b2 / r.a0, r.a1 / r.a0, r.a2 / r.a0)
  }

  function Peaking(a: real, cos: real, alpha: real): Raw
    requires a > 0.0
  {
    Raw(1.0 + alpha * a, -2.0 * cos, 1.0 - alpha * a, 1.0 + alpha / a, -2.0 * cos, 1.0 - alpha / a)
  }

  function LowShelf(a: real, cos: real, t: real): Raw {
    Raw(a * ((a + 1.0) - (a - 1.0) * cos + t),
        2.0 * a * ((a - 1.0) - (a + 1.0) * cos),
        a * ((a + 1.0) - (a - 1.0) * cos - t),
        (a + 1.0) + (a - 1.0) * cos + t,
        -2.0 * ((a - 1.0) + (a + 1.0) * cos),
        (a + 1.0) + (a - 1.0) * cos - t)
  }

  function HighShelf(a: real, cos: real, t: real): Raw {
    Raw(a * ((a + 1.0) + (a - 1.0) * cos + t),
        -2.0 * a * ((a - 1.0) + (a + 1.0) * cos),
        a * ((a + 1.0) + (a - 1.0) * cos - t),
        (a + 1.0) - (a - 1.0) * cos + t,
        2.0 * ((a - 1.0) - (a + 1.0) * cos),
        (a + 1.0) - (a - 1.0) * cos - t)
  }

  function Angle(m: Maths, fs: real, f0: real): real { if fs == 0.0 then 0.0 else 2.0 * m.pi * f0 / fs }

  function Alpha(sin: real, q: real): real { if q == 0.0 then 0.0 else sin / (2.0 * q) }

  /** The term of a shelf, whose slope is fixed whatever its Q. */
  function ShelfTerm(m: Maths, a: real, sin: real): real { 2.0 * m.root(a) * (sin / 2.0 * m.root(2.0)) }

  /** The formulas an equaliser is built with. */
  function Rbj(m: Maths): Formulas
    requires forall x :: m.power(x) > 0.0
  {
    Formulas(x => m.power(x / 20.0),
             (fs, f0, q, gain) =>
               Normalised(Peaking(m.power(gain / 40.0), m.cos(Angle(m, fs, f0)), Alpha(m.sin(Angle(m, fs, f0)), q))),
             (fs, f0, q, gain) => Normalised(LowShelf(m.power(gain / 40.0), m.cos(Angle(m, fs, f0)),
                                                      ShelfTerm(m, m.power(gain / 40.0), m.sin(Angle(m, fs, f0))))),
             (fs, f0, q, gain) => Normalised(HighShelf(m.power(gain / 40.0), m.cos(Angle(m, fs, f0)),
                                                       ShelfTerm(m, m.power(gain / 40.0), m.sin(Angle(m, fs, f0))))))
  }

  // ---- Tones ------------------------------------------------------------------------

  /** Three samples in a row of a tone whose angle between samples has this cosine and sine. */
  ghost predicate Follows(cos: real, sin: real, x: real, x1: real, x2: real) {
    && x == 2.0 * cos * x1 - x2
    && (sin == 0.0 ==> x == cos * x1 && x1 == cos * x2)
  }

  /** Samples that continue such a tone after `x1` and, before it, `x2`. */
  ghost predicate Tone(cos: real, sin: real, x1: real, x2: real, xs: seq<real>)
    decreases xs
  {
    xs == [] || (Follows(cos, sin, xs[0], x1, x2) && Tone(cos, sin, xs[0], x1, xs[1..]))
  }

  ghost predicate Playing(cos: real, sin: real, g: real, b: Biquad, xs: seq<real>) {
    b.y1 == g * b.x1 && b.y2 == g * b.x2 && Tone(cos, sin, b.x1, b.x2, xs)
  }

  /** A filter that has been playing this tone at gain `g` goes on doing so. */
  ghost predicate Amplifies(cos: real, sin: real, g: real, b: Biquad, xs: seq<real>) {
    Playing(cos, sin, g, b, xs) ==>
      forall n :: 0 <= n < |xs| ==> Filter(Process, [b], xs)[n] == g * xs[n]
  }

  ghost predicate HasGain(c: Coefficients, cos: real, sin: real, g: real) {
    forall b: Biquad, xs :: b.c == c ==> Amplifies(cos, sin, g, b, xs)
  }

  /** The numerator of the transfer function is `g` times its denominator, both turned by the angle. */
  ghost predicate GainAt(r: Raw, cos: real, sin: real, g: real) {
    && r.b1 + (r.b0 + r.b2) * cos == g * (r.a1 + (r.a0 + r.a2) * cos)
    && (r.b0 - r.b2) * sin == g * ((r.a0 - r.a2) * sin)
  }

  lemma CancelFactor(k: real, x: real)
    requires k * x == 0.0 && k != 0.0
    ensures x == 0.0
  {
  }

  /** The recurrence of the tone and the two equations of the gain give the difference equation. */
  lemma NextSample(r: Raw, cos: real, sin: real, g: real, x: real, x1: real, x2: real)
    requires cos * cos + sin * sin == 1.0 && GainAt(r, cos, sin, g) && Follows(cos, sin, x, x1, x2)
    ensures (r.b0 - g * r.a0) * x + (r.b1 - g * r.a1) * x1 + (r.b2 - g * r.a2) * x2 == 0.0
  {
    var d0, d1, d2 := r.b0 - g * r.a0, r.b1 - g * r.a1, r.b2 - g * r.a2;
    assert d1 + (d0 + d2) * cos == 0.0;
    assert (d0 - d2) * sin == 0.0;
    if sin == 0.0 {
      assert cos * x1 == cos * (cos * x2) == (cos * cos) * x2 == x2;
      assert d0 * x + d1 * x1 + d2 * x2 == (d1 + (d0 + d2) * cos) * x1;
    } else {
      CancelFactor(sin, d0 - d2);
      assert d0 * x == d0 * (2.0 * cos * x1) - d0 * x2;
      assert d0 * x + d1 * x1 + d2 * x2 == (d1 + (d0 + d2) * cos) * x1;
    }
  }

  lemma Normal(r: Raw, g: real, b: Biquad, x: real)
    requires r.a0 > 0.0 && b.c == Normalised(r) && b.y1 == g * b.x1 && b.y2 == g * b.x2
    ensures r.a0 * (Output(b, x) - g * x) ==
              (r.b0 - g * r.a0) * x + (r.b1 - g * r.a1) * b.x1 + (r.b2 - g * r.a2) * b.x2
  {
    var c := b.c;
    assert c.b0 * r.a0 == r.b0 && c.b1 * r.a0 == r.b1 && c.b2 * r.a0 == r.b2;
    assert c.a1 * r.a0 == r.a1 && c.a2 * r.a0 == r.a2;
    assert r.a0 * (c.b0 * x) == r.b0 * x && r.a0 * (c.b1 * b.x1) == r.b1 * b.x1 && r.a0 * (c.b2 * b.x2) == r.b2 * b.x2;
    assert r.a0 * (c.a1 * b.y1) == r.a1 * (g * b.x1) && r.a0 * (c.a2 * b.y2) == r.a2 * (g * b.x2);
  }

  lemma OneSample(r: Raw, cos: real, sin: real, g: real, b: Biquad, x: real)
    requires cos * cos + sin * sin == 1.0 && r.a0 > 0.0 && GainAt(r, cos, sin, g) && b.c == Normalised(r)
    requires b.y1 == g * b.x1 && b.y2 == g * b.x2 && Follows(cos, sin, x, b.x1, b.x2)
    ensures Output(b, x) == g * x
  {
    NextSample(r, cos, sin, g, x, b.x1, b.x2);
    Normal(r, g, b, x);
    CancelFactor(r.a0, Output(b, x) - g * x);
  }

  /** One more sample of a tone is played at the gain at which the last two were. */
  ghost predicate OneMore(cos: real, sin: real, g: real, b: Biquad, x: real) {
    b.y1 == g * b.x1 && b.y2 == g * b.x2 && Follows(cos, sin, x, b.x1, b.x2) ==> Output(b, x) == g * x
  }

  lemma GoesOn(cos: real, sin: real, g: real, b: Biquad, xs: seq<real>)
    requires xs != [] && Playing(cos, sin, g, b, xs) && OneMore(cos, sin, g, b, xs[0])
    ensures Output(b, xs[0]) == g * xs[0] && Playing(cos, sin, g, Process(b, xs[0]).0, xs[1..])
  {
  }

  lemma {:induction false} ToneGain(c: Coefficients, cos: real, sin: real, g: real, b: Biquad, xs: seq<real>)
    requires forall e: Biquad, x :: e.c == c ==> OneMore(cos, sin, g, e, x)
    requires b.c == c
    ensures Amplifies(cos, sin, g, b, xs)
    decreases xs
  {
    if xs != [] && Playing(cos, sin, g, b, xs) {
      assert OneMore(cos, sin, g, b, xs[0]);
      GoesOn(cos, sin, g, b, xs);
      ToneGain(c, cos, sin, g, Process(b, xs[0]).0, xs[1..]);
      GainFromNext(cos, sin, g, b, xs);
    }
  }

  lemma GainFromNext(cos: real, sin: real, g: real, b: Biquad, xs: seq<real>)
    requires xs != [] && Output(b, xs[0]) == g * xs[0]
    requires forall n :: 0 <= n < |xs[1..]| ==>
                           Filter(Process, [Process(b, xs[0]).0], xs[1..])[n] == g * xs[1..][n]
    ensures Amplifies(cos, sin, g, b, xs)
  {
    var ys := Filter(Process, [Process(b, xs[0]).0], xs[1..]);
    OneStage(b, xs);
    forall n | 0 <= n < |xs| ensures Filter(Process, [b], xs)[n] == g * xs[n] {
      if n > 0 { assert Filter(Process, [b], xs)[n] == ys[n - 1] && xs[n] == xs[1..][n - 1]; }
    }
  }

  lemma RawGain(r: Raw, cos: real, sin: real, g: real)
    requires cos * cos + sin * sin == 1.0 && r.a0 > 0.0 && GainAt(r, cos, sin, g)
    ensures HasGain(Normalised(r), cos, sin, g)
  {
    forall e: Biquad, x | e.c == Normalised(r) ensures OneMore(cos, sin, g, e, x) {
      if e.y1 == g * e.x1 && e.y2 == g * e.x2 && Follows(cos, sin, x, e.x1, e.x2) { OneSample(r, cos, sin, g, e, x); }
    }
    forall b: Biquad, xs | b.c == Normalised(r) ensures Amplifies(cos, sin, g, b, xs) {
      ToneGain(Normalised(r), cos, sin, g, b, xs);
    }
  }

  /** The two ends of the spectrum. */
  lemma EndGains(r: Raw, low: real, high: real)
    requires r.a0 > 0.0 && GainAt(r, 1.0, 0.0, low) && GainAt(r, -1.0, 0.0, high)
    ensures HasGain(Normalised(r), 1.0, 0.0, low) && HasGain(Normalised(r), -1.0, 0.0, high)
  {
    RawGain(r, 1.0, 0.0, low);
    RawGain(r, -1.0, 0.0, high);
  }

  // ---- The gain of each kind of band ------------------------------------------------

  lemma PeakingLeads(a: real, cos: real, alpha: real)
    requires a > 0.0 && alpha > 0.0
    ensures Peaking(a, cos, alpha).a0 > 0.0 && Peaking(a, cos, alpha).b0 > 0.0
  {
    var k := alpha / a;
    assert k * a == alpha && k > 0.0;
    assert alpha * a > 0.0;
  }

  lemma PeakingGain(r: Raw, a: real, cos: real, sin: real, alpha: real, g: real)
    requires a > 0.0 && r == Peaking(a, cos, alpha) && g == a * a
    ensures GainAt(r, cos, sin, g) && GainAt(r, 1.0, 0.0, 1.0) && GainAt(r, -1.0, 0.0, 1.0)
  {
    var k := alpha / a;
    assert k * a == alpha;
    assert g * ((2.0 * k) * sin) == (2.0 * alpha * a) * sin by {
      assert (a * a) * (2.0 * k) == 2.0 * alpha * a;
    }
    assert (r.b0 + r.b2) * cos == 2.0 * cos && (r.a0 + r.a2) * cos == 2.0 * cos;
  }

  lemma ShelfLeads(a: real, cos: real, t: real)
    requires a > 0.0 && -1.0 < cos < 1.0 && t > 0.0
    ensures LowShelf(a, cos, t).a0 > 0.0 && LowShelf(a, cos, t).b0 > 0.0
    ensures HighShelf(a, cos, t).a0 > 0.0 && HighShelf(a, cos, t).b0 > 0.0
  {
    assert a * (1.0 + cos) > 0.0 && a * (1.0 - cos) > 0.0;
    var low, high := (a + 1.0) + (a - 1.0) * cos + t, (a + 1.0) - (a - 1.0) * cos + t;
    assert low == a * (1.0 + cos) + (1.0 - cos) + t;
    assert high == a * (1.0 - cos) + (1.0 + cos) + t;
    assert a * low > 0.0 && a * high > 0.0;
  }

  lemma LowShelfGain(r: Raw, a: real, cos: real, t: real, g: real)
    requires r == LowShelf(a, cos, t) && g == a * a
    ensures GainAt(r, 1.0, 0.0, g) && GainAt(r, -1.0, 0.0, 1.0)
  {
    assert r.b0 + r.b2 == 2.0 * a * ((a + 1.0) - (a - 1.0) * cos);
    assert r.b1 + (r.b0 + r.b2) == 2.0 * a * (2.0 * a - 2.0 * a * cos);
    assert r.a1 + (r.a0 + r.a2) == 4.0 - 4.0 * cos;
    assert r.b1 - (r.b0 + r.b2) == 2.0 * a * (-2.0 - 2.0 * cos);
    assert r.a1 - (r.a0 + r.a2) == -4.0 * a - 4.0 * a * cos;
    assert 2.0 * a * (2.0 * a - 2.0 * a * cos) == (a * a) * (4.0 - 4.0 * cos);
  }

  lemma HighShelfGain(r: Raw, a: real, cos: real, t: real, g: real)
    requires r == HighShelf(a, cos, t) && g == a * a
    ensures GainAt(r, 1.0, 0.0, 1.0) && GainAt(r, -1.0, 0.0, g)
  {
    assert r.b0 + r.b2 == 2.0 * a * ((a + 1.0) + (a - 1.0) * cos);
    assert r.b1 + (r.b0 + r.b2) == 2.0 * a * (2.0 - 2.0 * cos);
    assert r.a1 + (r.a0 + r.a2) == 4.0 * a - 4.0 * a * cos;
    assert r.b1 - (r.b0 + r.b2) == -2.0 * a * (2.0 * a + 2.0 * a * cos);
    assert r.a1 - (r.a0 + r.a2) == -4.0 - 4.0 * cos;
    assert -2.0 * a * (2.0 * a + 2.0 * a * cos) == (a * a) * (-4.0 - 4.0 * cos);
  }

  // ---- The formulas below half the sample rate --------------------------------------

  lemma AngleInside(m: Maths, fs: real, f0: real)
    requires Lawful(m) && f0 > 0.0 && 2.0 * f0 < fs
    ensures var w := Angle(m, fs, f0); m.sin(w) > 0.0 && -1.0 < m.cos(w) < 1.0
  {
    assert 0.0 < m.pi * f0;
    assert m.pi * (2.0 * f0) < m.pi * fs;
    Quotient(2.0 * m.pi * f0, fs, m.pi);
    assert 0.0 < Angle(m, fs, f0) < m.pi;
  }

  lemma Quotient(x: real, y: real, limit: real)
    requires 0.0 < x < limit * y && y > 0.0
    ensures 0.0 < x / y < limit
  {
  }

  lemma RootPositive(m: Maths, x: real)
    requires Lawful(m) && x > 0.0
    ensures m.root(x) > 0.0
  {
    assert SquareRoot(m, x);
  }

  lemma TermPositive(m: Maths, a: real, sin: real)
    requires Lawful(m) && a > 0.0 && sin > 0.0
    ensures ShelfTerm(m, a, sin) > 0.0
  {
    RootPositive(m, a);
    RootPositive(m, 2.0);
    assert sin / 2.0 * m.root(2.0) > 0.0;
  }

  lemma AlphaPositive(sin: real, q: real)
    requires sin > 0.0 && q > 0.0
    ensures Alpha(sin, q) > 0.0
  {
    assert Alpha(sin, q) * (2.0 * q) == sin;
  }

  /** Twice half the decibels of a band. */
  lemma Decibels(m: Maths, gain: real)
    requires Lawful(m)
    ensures m.power(gain / 40.0) > 0.0 && m.power(gain / 40.0) * m.power(gain / 40.0) == m.power(gain / 20.0)
  {
    assert PowersMultiply(m, gain / 40.0, gain / 40.0);
    assert gain / 40.0 + gain / 40.0 == gain / 20.0;
  }

  /** A filter that was made for this band at this rate. */
  ghost predicate MadeFor(m: Maths, rate: nat, band: Band, filter: Biquad)
    requires forall x :: m.power(x) > 0.0
  {
    && PlayableBand(band) && 2.0 * band.freq < rate as real
    && FilterOf(Rbj(m), rate, band, filter)
  }

  /** The coefficients of a band before division. */
  ghost function RawOf(m: Maths, rate: nat, band: Band): Raw
    requires forall x :: m.power(x) > 0.0
  {
    var (a, w) := (m.power(band.gain / 40.0), Angle(m, rate as real, band.freq));
    if band.kind == "peaking" then Peaking(a, m.cos(w), Alpha(m.sin(w), band.q))
    else if band.kind == "lowshelf" then LowShelf(a, m.cos(w), ShelfTerm(m, a, m.sin(w)))
    else HighShelf(a, m.cos(w), ShelfTerm(m, a, m.sin(w)))
  }

  lemma Leads(m: Maths, rate: nat, band: Band, filter: Biquad)
    requires Lawful(m) && MadeFor(m, rate, band, filter)
    ensures filter.c == Normalised(RawOf(m, rate, band))
    ensures RawOf(m, rate, band).a0 > 0.0 && RawOf(m, rate, band).b0 > 0.0
  {
    var (a, w) := (m.power(band.gain / 40.0), Angle(m, rate as real, band.freq));
    AngleInside(m, rate as real, band.freq);
    AlphaPositive(m.sin(w), band.q);
    TermPositive(m, a, m.sin(w));
    PeakingLeads(a, m.cos(w), Alpha(m.sin(w), band.q));
    ShelfLeads(a, m.cos(w), ShelfTerm(m, a, m.sin(w)));
  }

  lemma LowShelfRaw(m: Maths, rate: nat, band: Band) returns (r: Raw, a: real, cos: real, t: real, g: real)
    requires Lawful(m) && band.kind == "lowshelf"
    ensures r == RawOf(m, rate, band) && r == LowShelf(a, cos, t) && g == m.power(band.gain / 20.0) == a * a
  {
    var w := Angle(m, rate as real, band.freq);
    a, cos, g := m.power(band.gain / 40.0), m.cos(w), m.power(band.gain / 20.0);
    r, t := RawOf(m, rate, band), ShelfTerm(m, a, m.sin(w));
    Decibels(m, band.gain);
  }

  lemma HighShelfRaw(m: Maths, rate: nat, band: Band) returns (r: Raw, a: real, cos: real, t: real, g: real)
    requires Lawful(m) && band.kind == "highshelf"
    ensures r == RawOf(m, rate, band) && r == HighShelf(a, cos, t) && g == m.power(band.gain / 20.0) == a * a
  {
    var w := Angle(m, rate as real, band.freq);
    a, cos, g := m.power(band.gain / 40.0), m.cos(w), m.power(band.gain / 20.0);
    r, t := RawOf(m, rate, band), ShelfTerm(m, a, m.sin(w));
    Decibels(m, band.gain);
  }

  lemma PeakingRaw(m: Maths, rate: nat, band: Band)
    returns (r: Raw, a: real, cos: real, sin: real, alpha: real, g: real)
    requires Lawful(m) && PlayableBand(band) && 2.0 * band.freq < rate as real && band.kind == "peaking"
    ensures a > 0.0 && alpha > 0.0 && r == RawOf(m, rate, band) && r == Peaking(a, cos, alpha)
    ensures cos == m.cos(Angle(m, rate as real, band.freq)) && sin == m.sin(Angle(m, rate as real, band.freq))
    ensures g == m.power(band.gain / 20.0) == a * a
  {
    var w := Angle(m, rate as real, band.freq);
    a, cos, sin, g := m.power(band.gain / 40.0), m.cos(w), m.sin(w), m.power(band.gain / 20.0);
    r, alpha := RawOf(m, rate, band), Alpha(m.sin(w), band.q);
    AngleInside(m, rate as real, band.freq);
    AlphaPositive(m.sin(w), band.q);
    Decibels(m, band.gain);
  }

  lemma PeakingBand(m: Maths, rate: nat, band: Band, filter: Biquad)
    requires Lawful(m) && MadeFor(m, rate, band, filter) && band.kind == "peaking"
    ensures var (w, g) := (Angle(m, rate as real, band.freq), m.power(band.gain / 20.0));
            && HasGain(filter.c, m.cos(w), m.sin(w), g)
            && HasGain(filter.c, 1.0, 0.0, 1.0) && HasGain(filter.c, -1.0, 0.0, 1.0)
  {
    var r, a, cos, sin, alpha, g := PeakingRaw(m, rate, band);
    PeakingGain(r, a, cos, sin, alpha, g);
    Leads(m, rate, band, filter);
    assert Pythagoras(m, Angle(m, rate as real, band.freq));
    RawGain(r, cos, sin, g);
    EndGains(r, 1.0, 1.0);
  }

  lemma LowShelfBand(m: Maths, rate: nat, band: Band, filter: Biquad)
    requires Lawful(m) && MadeFor(m, rate, band, filter) && band.kind == "lowshelf"
    ensures HasGain(filter.c, 1.0, 0.0, m.power(band.gain / 20.0)) && HasGain(filter.c, -1.0, 0.0, 1.0)
  {
    var r, a, cos, t, g := LowShelfRaw(m, rate, band);
    LowShelfGain(r, a, cos, t, g);
    Leads(m, rate, band, filter);
    EndGains(r, g, 1.0);
  }

  lemma HighShelfBand(m: Maths, rate: nat, band: Band, filter: Biquad)
    requires Lawful(m) && MadeFor(m, rate, band, filter) && band.kind == "highshelf"
    ensures HasGain(filter.c, 1.0, 0.0, 1.0) && HasGain(filter.c, -1.0, 0.0, m.power(band.gain / 20.0))
  {
    var r, a, cos, t, g := HighShelfRaw(m, rate, band);
    HighShelfGain(r, a, cos, t, g);
    Leads(m, rate, band, filter);
    EndGains(r, 1.0, g);
  }

  /** What a band is for. A peaking band plays a tone of its own frequency at its decibels and leaves
      the two ends of the spectrum alone. A low shelf plays a constant signal at its decibels and leaves
      an alternating one alone, and a high shelf the other way round. */
  lemma BandGain(m: Maths, rate: nat, band: Band, filter: Biquad)
    requires Lawful(m) && MadeFor(m, rate, band, filter)
    ensures var (w, g) := (Angle(m, rate as real, band.freq), m.power(band.gain / 20.0));
            && (band.kind == "peaking" ==> HasGain(filter.c, m.cos(w), m.sin(w), g))
            && HasGain(filter.c, 1.0, 0.0, if band.kind == "lowshelf" then g else 1.0)
            && HasGain(filter.c, -1.0, 0.0, if band.kind == "highshelf" then g else 1.0)
  {
    if band.kind == "peaking" {
      PeakingBand(m, rate, band, filter);
    } else if band.kind == "lowshelf" {
      LowShelfBand(m, rate, band, filter);
    } else {
      HighShelfBand(m, rate, band, filter);
    }
  }
}
