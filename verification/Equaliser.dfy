/** Correction profiles, their composition, and the equaliser that plays them, over exact reals. */
module Equaliser {
  import opened Basics
  import opened Cascades
  import opened Mapping

  datatype Band = Band(kind: string, freq: real, gain: real, q: real)

  /** `roomIr` is the sample rate of a stored room impulse. */
  datatype Profile = Profile(id: string, name: string, preampDb: real, bands: seq<Band>, kind: Option<string>,
      roomIr: Option<nat>)

  datatype ProfileError =
    | Unnamed | BadPreampOrCount | UnsupportedType | BadFilter | ListeningRoom
    | AboveNyquist | RoomUnsupported

  /** The double-precision machine epsilon. */
  const EPSILON: real := 1.0 / 4503599627370496.0

  function Abs(x: real): real { if x < 0.0 then -x else x }

  predicate Blank(s: string) { forall c | c in s :: IsWhitespace(c) }

  predicate Supported(kind: string) { kind == "peaking" || kind == "lowshelf" || kind == "highshelf" }

  predicate InRange(b: Band) {
    1.0 <= b.freq <= 384000.0 && 0.01 <= b.q <= 100.0 && Abs(b.gain) <= 60.0
  }

  /** The first band that is refused decides the error. */
  function BandsError(bands: seq<Band>): Option<ProfileError> {
    if bands == [] then None
    else if !Supported(bands[0].kind) then Some(UnsupportedType)
    else if !InRange(bands[0]) then Some(BadFilter)
    else BandsError(bands[1..])
  }

  function Validate(p: Profile): Option<ProfileError> {
    if Blank(p.id) || Blank(p.name) then Some(Unnamed)
    else if Abs(p.preampDb) > 60.0 || |p.bands| > 128 then Some(BadPreampOrCount)
    else if BandsError(p.bands).Some? then BandsError(p.bands)
    else if p.kind == Some("listening") && p.roomIr.Some? then Some(ListeningRoom)
    else None
  }

  /** The profile every renderer plays for a correction and a listening adjustment. */
  function Compose(correction: Option<Profile>, listening: Option<Profile>): Result<Option<Profile>, ProfileError> {
    if correction.Some? && Validate(correction.value).Some? then Err(Validate(correction.value).value)
    else if listening.Some? && Validate(listening.value).Some? then Err(Validate(listening.value).value)
    else if listening.Some? && listening.value.roomIr.Some? then Err(ListeningRoom)
    else if correction.None? && listening.None? then Ok(None)
    else
      var base := if correction.Some? then correction.value else listening.value.(roomIr := None);
      var effective :=
        if correction.Some? && listening.Some? then
          base.(preampDb := base.preampDb + listening.value.preampDb, bands := base.bands + listening.value.bands)
        else base;
      if Validate(effective).Some? then Err(Validate(effective).value) else Ok(Some(effective))
  }

  // ---- The filters ------------------------------------------------------------------

  datatype Coefficients = Coefficients(b0: real, b1: real, b2: real, a1: real, a2: real)

  datatype Biquad = Biquad(c: Coefficients, x1: real, x2: real, y1: real, y2: real)

  /** The formulas with sines, roots and powers: `amplitude` turns decibels into a factor, and each
      builder takes sample rate, frequency, Q and gain. */
  datatype Formulas = Formulas(
    amplitude: real -> real,
    peaking: (real, real, real, real) -> Coefficients,
    lowShelf: (real, real, real, real) -> Coefficients,
    highShelf: (real, real, real, real) -> Coefficients)

  ghost predicate Exponential(f: Formulas) {
    && (forall x, y :: Multiplies(f, x, y))
    && (forall x :: f.amplitude(x) == 1.0 <==> x == 0.0)
  }

  ghost predicate Multiplies(f: Formulas, x: real, y: real) {
    f.amplitude(x + y) == f.amplitude(x) * f.amplitude(y)
  }

  function Design(f: Formulas, rate: nat, b: Band): seq<Biquad> {
    var fs := rate as real;
    var q := if b.q < 0.01 then 0.01 else b.q;
    if b.kind == "peaking" then [Rest(f.peaking(fs, b.freq, q, b.gain))]
    else if b.kind == "lowshelf" then [Rest(f.lowShelf(fs, b.freq, q, b.gain))]
    else if b.kind == "highshelf" then [Rest(f.highShelf(fs, b.freq, q, b.gain))]
    else []
  }

  function Rest(c: Coefficients): Biquad { Biquad(c, 0.0, 0.0, 0.0, 0.0) }

  function Build(f: Formulas, rate: nat, bands: seq<Band>): seq<Biquad> {
    if bands == [] then [] else Design(f, rate, bands[0]) + Build(f, rate, bands[1..])
  }

  /** The contents of an equaliser. */
  datatype Eq = Eq(preamp: real, left: seq<Biquad>, right: seq<Biquad>)

  predicate BelowNyquist(p: Profile, rate: nat) {
    rate != 0 && forall b | b in p.bands :: b.freq < rate as real / 2.0
  }

  predicate NoOp(p: Profile) { p.bands == [] && Abs(p.preampDb) < EPSILON }

  /** Why a profile cannot be played at a sample rate. */
  function Refusal(p: Profile, rate: nat): Option<ProfileError> {
    if Validate(p).Some? then Validate(p)
    else if !BelowNyquist(p, rate) then Some(AboveNyquist)
    else if p.roomIr.Some? then Some(RoomUnsupported)
    else None
  }

  function FromProfile(f: Formulas, p: Profile, rate: nat): Result<Option<Eq>, ProfileError> {
    if Refusal(p, rate).Some? then Err(Refusal(p, rate).value)
    else if NoOp(p) then Ok(None)
    else Ok(Some(Eq(f.amplitude(p.preampDb), Build(f, rate, p.bands), Build(f, rate, p.bands))))
  }

  // ---- What the equaliser does to a signal ------------------------------------------

  function Output(b: Biquad, x: real): real {
    b.c.b0 * x + b.c.b1 * b.x1 + b.c.b2 * b.x2 - b.c.a1 * b.y1 - b.c.a2 * b.y2
  }

  function Process(b: Biquad, x: real): (Biquad, real) {
    (Biquad(b.c, x, b.x1, Output(b, x), b.y1), Output(b, x))
  }

  function Preamp(factor: real): real -> real { x => x * factor }

  function ChainOf(eq: Eq): Chain<Biquad> { Chain(Preamp(eq.preamp), eq.left, eq.right) }

  /** The frames heard; no equaliser leaves the signal alone. */
  function Heard(eq: Option<Eq>, frames: seq<(real, real)>): seq<(real, real)> {
    match eq
    case None => frames
    case Some(e) => Play(Process, ChainOf(e), frames)
  }

  function Rested(b: Biquad): Biquad { Rest(b.c) }

  class StereoEq {
    const preamp: real
    const left: array<Biquad>
    const right: array<Biquad>

    ghost predicate Valid() reads this { left != right }

    ghost function Contents(): Eq
      reads this, left, right
    {
      Eq(preamp, left[..], right[..])
    }

    constructor (eq: Eq)
      ensures Valid() && fresh(left) && fresh(right) && Contents() == eq
    {
      preamp := eq.preamp;
      left := new Biquad[|eq.left|](i requires 0 <= i < |eq.left| => eq.left[i]);
      right := new Biquad[|eq.right|](i requires 0 <= i < |eq.right| => eq.right[i]);
      new;
      assert left[..] == eq.left && right[..] == eq.right;
    }

    /** The biquads of one channel, one after the other, each updated in place. */
    static method RunCascade(bs: array<Biquad>, x: real) returns (y: real)
      modifies bs
      ensures y == Through(Process, old(bs[..]), x) && bs[..] == Fed(Process, old(bs[..]), x)
    {
      ghost var was := bs[..];
      y := x;
      var i := 0;
      while i < bs.Length
        invariant 0 <= i <= bs.Length && bs[i..] == was[i..]
        invariant Through(Process, was[i..], y) == Through(Process, was, x)
        invariant bs[..i] + Fed(Process, was[i..], y) == Fed(Process, was, x)
      {
        var input := y;
        ghost var done := bs[..i];
        assert was[i..] == [was[i]] + was[i + 1..];
        assert bs[i] == bs[i..][0] == was[i];
        var b := bs[i];
        y := b.c.b0 * y + b.c.b1 * b.x1 + b.c.b2 * b.x2 - b.c.a1 * b.y1 - b.c.a2 * b.y2;
        bs[i] := b.(x2 := b.x1, x1 := input, y2 := b.y1, y1 := y);
        assert y == Output(b, input);
        assert Process(b, input) == (bs[i], y);
        assert bs[..i + 1] == done + [bs[i]];
        assert bs[..i + 1] + Fed(Process, was[i + 1..], y) == done + ([bs[i]] + Fed(Process, was[i + 1..], y));
        i := i + 1;
      }
      assert bs[..] == bs[..i];
    }

    method ProcessFrame(l: real, r: real) returns (out: (real, real))
      requires Valid()
      modifies left, right
      ensures Valid() && (ChainOf(Contents()), out) == Frame(Process, ChainOf(old(Contents())), (l, r))
    {
      assert Preamp(preamp)(l) == l * preamp && Preamp(preamp)(r) == r * preamp;
      var x := RunCascade(left, l * preamp);
      var y := RunCascade(right, r * preamp);
      out := (x, y);
    }

    static method ResetAll(bs: array<Biquad>)
      modifies bs
      ensures bs[..] == Map(Rested, old(bs[..]))
    {
      var i := 0;
      while i < bs.Length
        invariant 0 <= i <= bs.Length
        invariant forall k :: 0 <= k < i ==> bs[k] == Rested(old(bs[k]))
        invariant forall k :: i <= k < bs.Length ==> bs[k] == old(bs[k])
      {
        bs[i] := bs[i].(x1 := 0.0, x2 := 0.0, y1 := 0.0, y2 := 0.0);
        i := i + 1;
      }
    }

    method Reset()
      requires Valid()
      modifies left, right
      ensures Valid()
      ensures Contents() == old(Eq(preamp, Map(Rested, left[..]), Map(Rested, right[..])))
    {
      ResetAll(left);
      ResetAll(right);
    }
  }

  // ---- Biquads are their difference equation ----------------------------------------

  /** Sample `k` of a signal, with the two samples before its start. */
  function Sample(xs: seq<real>, before: (real, real), k: int): real
    requires -2 <= k < |xs|
  {
    if k >= 0 then xs[k] else if k == -1 then before.0 else before.1
  }

  lemma SampleTail(xs: seq<real>, before: (real, real), k: int)
    requires -2 <= k < |xs| - 1 && xs != []
    ensures Sample(xs[1..], (xs[0], before.0), k) == Sample(xs, before, k + 1)
  {
  }

  /** The samples a single biquad gives are those of the direct-form difference equation: each is made
      of the current and two earlier inputs and the two earlier outputs. */
  lemma {:induction false} DifferenceEquation(b: Biquad, xs: seq<real>, n: nat)
    requires n < |xs|
    ensures var ys, c, xb, yb := Filter(Process, [b], xs), b.c, (b.x1, b.x2), (b.y1, b.y2);
            ys[n] == c.b0 * Sample(xs, xb, n) + c.b1 * Sample(xs, xb, n - 1) + c.b2 * Sample(xs, xb, n - 2)
                     - c.a1 * Sample(ys, yb, n - 1) - c.a2 * Sample(ys, yb, n - 2)
    decreases n
  {
    var next := Process(b, xs[0]).0;
    var ys, zs := Filter(Process, [b], xs), Filter(Process, [next], xs[1..]);
    OneStage(b, xs);
    if n > 0 {
      DifferenceEquation(next, xs[1..], n - 1);
      SampleTail(xs, (b.x1, b.x2), n - 1);
      SampleTail(xs, (b.x1, b.x2), n - 2);
      SampleTail(xs, (b.x1, b.x2), n - 3);
      SampleTail(ys, (b.y1, b.y2), n - 2);
      SampleTail(ys, (b.y1, b.y2), n - 3);
    }
  }

  lemma OneStage(b: Biquad, xs: seq<real>)
    requires xs != []
    ensures Filter(Process, [b], xs) == [Output(b, xs[0])] + Filter(Process, [Process(b, xs[0]).0], xs[1..])
    ensures Filter(Process, [b], xs)[1..] == Filter(Process, [Process(b, xs[0]).0], xs[1..])
  {
    assert [b][1..] == [];
    assert Through(Process, [b], xs[0]) == Through(Process, [], Output(b, xs[0]));
    assert Fed(Process, [b], xs[0]) == [Process(b, xs[0]).0] + Fed(Process, [], Output(b, xs[0]));
    assert [Process(b, xs[0]).0] + [] == [Process(b, xs[0]).0];
  }

  // ---- Biquads are homogeneous ------------------------------------------------------

  function Amplify(k: real): Biquad -> Biquad {
    (b: Biquad) => Biquad(b.c, b.x1 * k, b.x2 * k, b.y1 * k, b.y2 * k)
  }

  lemma OutputScales(b: Biquad, k: real, x: real)
    ensures Output(Amplify(k)(b), x * k) == Output(b, x) * k
  {
    var p, q, r, s, t := b.c.b0 * x, b.c.b1 * b.x1, b.c.b2 * b.x2, b.c.a1 * b.y1, b.c.a2 * b.y2;
    assert b.c.b0 * (x * k) == p * k && b.c.b1 * (b.x1 * k) == q * k && b.c.b2 * (b.x2 * k) == r * k;
    assert b.c.a1 * (b.y1 * k) == s * k && b.c.a2 * (b.y2 * k) == t * k;
    assert (p + q + r - s - t) * k == p * k + q * k + r * k - s * k - t * k;
  }

  lemma ProcessScales(b: Biquad, k: real, x: real)
    ensures Process(Amplify(k)(b), Preamp(k)(x)) == (Amplify(k)(Process(b, x).0), Preamp(k)(Process(b, x).1))
  {
    OutputScales(b, k, x);
    var scaled := Amplify(k)(b);
    assert scaled.x1 == b.x1 * k && scaled.y1 == b.y1 * k && scaled.c == b.c;
    assert Preamp(k)(x) == x * k;
    var next := Process(b, x).0;
    assert Amplify(k)(next) == Biquad(b.c, x * k, b.x1 * k, Output(b, x) * k, b.y1 * k);
    assert Process(scaled, x * k).0 == Biquad(b.c, x * k, scaled.x1, Output(scaled, x * k), scaled.y1);
    assert Preamp(k)(Process(b, x).1) == Output(b, x) * k;
  }

  lemma BiquadsHomogeneous(k: real)
    ensures Homogeneous(Process, Amplify(k), Preamp(k))
  {
    forall b, x
      ensures Process(Amplify(k)(b), Preamp(k)(x)) == (Amplify(k)(Process(b, x).0), Preamp(k)(Process(b, x).1))
    {
      ProcessScales(b, k, x);
    }
  }

  ghost predicate Resting(bs: seq<Biquad>) { forall i :: 0 <= i < |bs| ==> bs[i] == Rested(bs[i]) }

  lemma RestingFixed(bs: seq<Biquad>, k: real)
    requires Resting(bs)
    ensures Fixed(Amplify(k), bs)
  {
  }

  /** The gain and the cascades that playing amounts to; no equaliser is gain one and nothing else. */
  ghost function Effect(eq: Option<Eq>): Eq {
    match eq
    case None => Eq(1.0, [], [])
    case Some(e) => e
  }

  lemma HeardEffect(eq: Option<Eq>, frames: seq<(real, real)>)
    ensures Heard(eq, frames) == Play(Process, ChainOf(Effect(eq)), frames)
  {
    if eq == None { PlayNothing(Process, Preamp(1.0), frames); }
  }

  /** One equaliser with the effect of two in a row. */
  ghost predicate Joins(e: Eq, c: Eq, l: Eq) {
    e.preamp == c.preamp * l.preamp && e.left == c.left + l.left && e.right == c.right + l.right
  }

  lemma GainsMultiply(x: real, g: real, h: real, both: real)
    requires both == g * h
    ensures x * both == (x * g) * h
  {
  }

  lemma HeardInSequence(c: Option<Eq>, l: Option<Eq>, e: Eq, frames: seq<(real, real)>)
    requires Resting(Effect(c).left) && Resting(Effect(c).right) && Joins(e, Effect(c), Effect(l))
    ensures Heard(l, Heard(c, frames)) == Play(Process, ChainOf(e), frames)
  {
    var ec, el := Effect(c), Effect(l);
    HeardEffect(c, frames);
    HeardEffect(l, Heard(c, frames));
    BiquadsHomogeneous(el.preamp);
    RestingFixed(ec.left, el.preamp);
    RestingFixed(ec.right, el.preamp);
    forall x ensures Preamp(e.preamp)(x) == Preamp(el.preamp)(Preamp(ec.preamp)(x)) {
      GainsMultiply(x, ec.preamp, el.preamp, e.preamp);
    }
    PlayInSequence(Process, Amplify(el.preamp), ChainOf(ec), ChainOf(el), Preamp(e.preamp), frames);
  }

  /** What a renderer plays for an optional profile. */
  function Renderer(f: Formulas, p: Option<Profile>, rate: nat): Result<Option<Eq>, ProfileError> {
    match p
    case None => Ok(None)
    case Some(profile) => FromProfile(f, profile, rate)
  }

  // ---- Composition ------------------------------------------------------------------

  lemma {:induction false} BandsErrorJoin(a: seq<Band>, b: seq<Band>)
    ensures BandsError(a + b) == if BandsError(a).Some? then BandsError(a) else BandsError(b)
  {
    if a == [] {
      assert a + b == b;
    } else {
      BandsErrorJoin(a[1..], b);
      assert (a + b)[1..] == a[1..] + b;
    }
  }

  ghost predicate Acceptable(p: Option<Profile>) { p.Some? ==> Validate(p.value) == None }

  /** Composition refuses for no other reason than a bad part, too much preamp or too many bands. */
  lemma ComposeAccepts(correction: Option<Profile>, listening: Option<Profile>)
    ensures Compose(correction, listening).Ok? <==>
              && Acceptable(correction) && Acceptable(listening)
              && (listening.Some? ==> listening.value.roomIr.None?)
              && (correction.Some? && listening.Some? ==>
                    && Abs(correction.value.preampDb + listening.value.preampDb) <= 60.0
                    && |correction.value.bands| + |listening.value.bands| <= 128)
  {
    if correction.Some? && listening.Some? { BandsErrorJoin(correction.value.bands, listening.value.bands); }
  }

  lemma {:induction false} BuildJoin(f: Formulas, rate: nat, a: seq<Band>, b: seq<Band>)
    ensures Build(f, rate, a + b) == Build(f, rate, a) + Build(f, rate, b)
  {
    if a == [] {
      assert a + b == b;
    } else {
      BuildJoin(f, rate, a[1..], b);
      assert (a + b)[1..] == a[1..] + b && (a + b)[0] == a[0];
      var first, second, third := Design(f, rate, a[0]), Build(f, rate, a[1..]), Build(f, rate, b);
      assert first + (second + third) == first + second + third;
    }
  }

  /** A valid profile gets one filter a band, in order; none is skipped. */
  lemma {:induction false} OneFilterEach(f: Formulas, rate: nat, bands: seq<Band>, i: nat)
    requires BandsError(bands) == None
    ensures |Build(f, rate, bands)| == |bands|
    ensures i < |bands| ==> Design(f, rate, bands[i]) == [Build(f, rate, bands)[i]]
  {
    if bands != [] { OneFilterEach(f, rate, bands[1..], if i > 0 then i - 1 else 0); }
  }

  lemma {:induction false} BuildRests(f: Formulas, rate: nat, bands: seq<Band>)
    ensures Resting(Build(f, rate, bands))
  {
    if bands != [] {
      BuildRests(f, rate, bands[1..]);
      assert forall i :: 0 <= i < |Design(f, rate, bands[0])| ==>
                Design(f, rate, bands[0])[i] == Rested(Design(f, rate, bands[0])[i]);
    }
  }

  lemma PartsRender(f: Formulas, correction: Option<Profile>, listening: Option<Profile>, rate: nat)
    requires Compose(correction, listening).Ok? && Renderer(f, Compose(correction, listening).value, rate).Ok?
    ensures Renderer(f, correction, rate).Ok? && Renderer(f, listening, rate).Ok?
  {
    var effective := Compose(correction, listening).value;
    if correction.Some? {
      forall b | b in correction.value.bands ensures b.freq < rate as real / 2.0 { assert b in effective.value.bands; }
    }
    if listening.Some? {
      forall b | b in listening.value.bands ensures b.freq < rate as real / 2.0 { assert b in effective.value.bands; }
    }
  }

  /** Decibels a profile names but does not play, because it counts as doing nothing. */
  function Dropped(p: Option<Profile>): real {
    if p.Some? && NoOp(p.value) then p.value.preampDb else 0.0
  }

  ghost predicate SameSound(f: Formulas, correction: Option<Profile>, listening: Option<Profile>, rate: nat,
        frames: seq<(real, real)>)
    requires Compose(correction, listening).Ok? && Renderer(f, Compose(correction, listening).value, rate).Ok?
    requires Renderer(f, correction, rate).Ok? && Renderer(f, listening, rate).Ok?
  {
    Heard(Renderer(f, Compose(correction, listening).value, rate).value, frames) ==
    Heard(Renderer(f, listening, rate).value, Heard(Renderer(f, correction, rate).value, frames))
  }

  function Bands(p: Option<Profile>): seq<Band> { if p.Some? then p.value.bands else [] }

  /** The decibels a profile is played with. */
  function Played(p: Option<Profile>): real { (if p.Some? then p.value.preampDb else 0.0) - Dropped(p) }

  lemma RendererEffect(f: Formulas, p: Option<Profile>, rate: nat)
    requires Exponential(f) && Renderer(f, p, rate).Ok?
    ensures var cascade := Build(f, rate, Bands(p));
            Effect(Renderer(f, p, rate).value) == Eq(f.amplitude(Played(p)), cascade, cascade) && Resting(cascade)
  {
    BuildRests(f, rate, Bands(p));
    assert f.amplitude(0.0) == 1.0;
  }

  lemma ComposedParts(correction: Option<Profile>, listening: Option<Profile>)
    requires Compose(correction, listening).Ok?
    ensures var effective := Compose(correction, listening).value;
            && Bands(effective) == Bands(correction) + Bands(listening)
            && Played(effective) + Dropped(effective) ==
                Played(correction) + Dropped(correction) + Played(listening) + Dropped(listening)
  {
  }

  /** Gains and cascades alone. */
  lemma EffectsJoin(f: Formulas, bc: seq<Biquad>, bl: seq<Biquad>, c: real, l: real, e: real)
    requires Exponential(f) && Resting(bc) && Resting(bl)
    ensures Resting(bc + bl)
    ensures Joins(Eq(f.amplitude(e), bc + bl, bc + bl), Eq(f.amplitude(c), bc, bc), Eq(f.amplitude(l), bl, bl)) <==>
              e == c + l
  {
    GainCondition(f, e, c, l);
  }

  /** The composed cascade is the two in a row; its gain is their product exactly when the dropped decibels agree. */
  lemma ComposedEffect(f: Formulas, correction: Option<Profile>, listening: Option<Profile>,
        effective: Option<Profile>, rate: nat)
    requires Exponential(f) && Compose(correction, listening) == Ok(effective)
    requires Renderer(f, correction, rate).Ok? && Renderer(f, listening, rate).Ok? && Renderer(f, effective, rate).Ok?
    ensures var (c, l, e) :=
              (Effect(Renderer(f, correction, rate).value), Effect(Renderer(f, listening, rate).value),
              Effect(Renderer(f, effective, rate).value));
            && Resting(c.left) && Resting(c.right) && Resting(e.left)
            && e.left == c.left + l.left && e.right == c.right + l.right
            && (Joins(e, c, l) <==> Dropped(effective) == Dropped(correction) + Dropped(listening))
  {
    ComposedParts(correction, listening);
    RendererEffect(f, correction, rate);
    RendererEffect(f, listening, rate);
    RendererEffect(f, effective, rate);
    BuildJoin(f, rate, Bands(correction), Bands(listening));
    EffectsJoin(f, Build(f, rate, Bands(correction)), Build(f, rate, Bands(listening)), Played(correction),
        Played(listening), Played(effective));
  }

  lemma GainCondition(f: Formulas, e: real, c: real, l: real)
    requires Exponential(f)
    ensures f.amplitude(e) == f.amplitude(c) * f.amplitude(l) <==> e == c + l
  {
    assert Multiplies(f, c, l);
    AmplitudeInjective(f, e, c + l);
  }

  lemma AmplitudeInjective(f: Formulas, x: real, y: real)
    requires Exponential(f)
    ensures f.amplitude(x) == f.amplitude(y) <==> x == y
  {
    assert Multiplies(f, x - y, y) && (x - y) + y == x;
    assert Multiplies(f, y, -y) && f.amplitude(y + -y) == 1.0;
    if f.amplitude(x) == f.amplitude(y) {
      var a, b := f.amplitude(x - y), f.amplitude(y);
      assert b != 0.0 && a * b == b;
      assert (a - 1.0) * b == 0.0;
      assert a == 1.0;
    }
  }

  /** No filter swallows a lone first sample. */
  ghost predicate Prompt(bs: seq<Biquad>) { forall i :: 0 <= i < |bs| ==> bs[i].c.b0 != 0.0 }

  lemma {:induction false} ImpulsePasses(bs: seq<Biquad>, x: real)
    requires Resting(bs) && Prompt(bs)
    ensures Through(Process, bs, x) == 0.0 ==> x == 0.0
  {
    if bs != [] {
      assert bs[0] == Rested(bs[0]);
      var y := bs[0].c.b0 * x;
      assert Output(bs[0], x) == y;
      ImpulsePasses(bs[1..], y);
    }
  }

  /** From reset, on any signal and whichever of the two profiles is there: the composed equaliser
      sounds like the correction followed by the listening adjustment if the decibels that the three
      profiles drop as negligible agree. */
  lemma ComposedPlaysInSequence(f: Formulas, correction: Option<Profile>, listening: Option<Profile>, rate: nat,
        frames: seq<(real, real)>)
    requires Exponential(f)
    requires Compose(correction, listening).Ok? && Renderer(f, Compose(correction, listening).value, rate).Ok?
    requires Dropped(Compose(correction, listening).value) == Dropped(correction) + Dropped(listening)
    ensures Renderer(f, correction, rate).Ok? && Renderer(f, listening, rate).Ok?
    ensures SameSound(f, correction, listening, rate, frames)
  {
    PartsRender(f, correction, listening, rate);
    var effective := Compose(correction, listening).value;
    ComposedEffect(f, correction, listening, effective, rate);
    InSequence(Renderer(f, correction, rate).value, Renderer(f, listening, rate).value,
        Renderer(f, effective, rate).value, frames);
  }

  lemma InSequence(c: Option<Eq>, l: Option<Eq>, e: Option<Eq>, frames: seq<(real, real)>)
    requires Resting(Effect(c).left) && Resting(Effect(c).right) && Joins(Effect(e), Effect(c), Effect(l))
    ensures Heard(e, frames) == Heard(l, Heard(c, frames))
  {
    HeardInSequence(c, l, Effect(e), frames);
    HeardEffect(e, frames);
  }

  lemma RestingThrough(bs: seq<Biquad>, k: real)
    requires Resting(bs)
    ensures Through(Process, bs, Preamp(k)(1.0)) == Preamp(k)(Through(Process, bs, 1.0))
  {
    BiquadsHomogeneous(k);
    FedScales(Process, Amplify(k), Preamp(k), bs, 1.0);
    RestingFixed(bs, k);
    MapFixed(Amplify(k), bs);
  }

  lemma ImpulseHeard(e: Eq)
    requires Resting(e.left)
    ensures |Play(Process, ChainOf(e), [(1.0, 0.0)])| == 1
    ensures Play(Process, ChainOf(e), [(1.0, 0.0)])[0].0 == Preamp(e.preamp)(Through(Process, e.left, 1.0))
  {
    RestingThrough(e.left, e.preamp);
    assert Frame(Process, ChainOf(e), (1.0, 0.0)).1.0 == Through(Process, e.left, Preamp(e.preamp)(1.0));
  }

  /** A single impulse tells two gains in front of the same resting cascades apart. */
  lemma ImpulseTellsApart(c: Option<Eq>, l: Option<Eq>, e: Option<Eq>)
    requires Resting(Effect(c).left) && Resting(Effect(c).right) && Resting(Effect(e).left) && Prompt(Effect(e).left)
    requires Effect(e).left == Effect(c).left + Effect(l).left && Effect(e).right == Effect(c).right + Effect(l).right
    requires Heard(e, [(1.0, 0.0)]) == Heard(l, Heard(c, [(1.0, 0.0)]))
    ensures Joins(Effect(e), Effect(c), Effect(l))
  {
    var joined := Eq(Effect(c).preamp * Effect(l).preamp, Effect(e).left, Effect(e).right);
    HeardInSequence(c, l, joined, [(1.0, 0.0)]);
    HeardEffect(e, [(1.0, 0.0)]);
    ImpulseHeard(Effect(e));
    ImpulseHeard(joined);
    ImpulsePasses(Effect(e).left, 1.0);
    var t := Through(Process, Effect(e).left, 1.0);
    assert Preamp(Effect(e).preamp)(t) == Preamp(joined.preamp)(t);
    Cancel(Effect(e).preamp, joined.preamp, t);
  }

  lemma Cancel(a: real, b: real, t: real)
    requires Preamp(a)(t) == Preamp(b)(t) && t != 0.0
    ensures a == b
  {
    assert t * a == t * b;
    assert t * (a - b) == 0.0;
  }

  /** The exact condition: composing is playing in sequence, for every signal, if and only if the
      dropped decibels agree. */
  lemma CompositionCondition(f: Formulas, correction: Option<Profile>, listening: Option<Profile>, rate: nat)
    requires Exponential(f)
    requires Compose(correction, listening).Ok? && Renderer(f, Compose(correction, listening).value, rate).Ok?
    requires Prompt(Effect(Renderer(f, Compose(correction, listening).value, rate).value).left)
    ensures Renderer(f, correction, rate).Ok? && Renderer(f, listening, rate).Ok?
    ensures (forall frames :: SameSound(f, correction, listening, rate, frames)) <==>
              Dropped(Compose(correction, listening).value) == Dropped(correction) + Dropped(listening)
  {
    PartsRender(f, correction, listening, rate);
    var effective := Compose(correction, listening).value;
    if Dropped(effective) == Dropped(correction) + Dropped(listening) {
      forall frames ensures SameSound(f, correction, listening, rate, frames) {
        ComposedPlaysInSequence(f, correction, listening, rate, frames);
      }
    } else {
      assert SameSound(f, correction, listening, rate, [(1.0, 0.0)]) ==>
          Dropped(effective) == Dropped(correction) + Dropped(listening) by {
        if SameSound(f, correction, listening, rate, [(1.0, 0.0)]) {
          ComposedEffect(f, correction, listening, effective, rate);
          ImpulseTellsApart(Renderer(f, correction, rate).value, Renderer(f, listening, rate).value,
              Renderer(f, effective, rate).value);
        }
      }
    }
  }

  /** The corner in numbers: two negligible preamps, each dropped alone, are played when composed. */
  lemma TwoNegligiblePreamps(f: Formulas, rate: nat)
    requires Exponential(f) && rate > 0
    ensures var p := Some(Profile("a", "a", 0.6 * EPSILON, [], None, None));
            && Compose(p, p).Ok? && Renderer(f, Compose(p, p).value, rate).Ok? && Renderer(f, p, rate) == Ok(None)
            && !forall frames :: SameSound(f, p, p, rate, frames)
  {
    var p := Some(Profile("a", "a", 0.6 * EPSILON, [], None, None));
    assert 'a' in "a" && !IsWhitespace('a');
    assert Validate(p.value) == None;
    ComposeAccepts(p, p);
    assert Compose(p, p).value.value.preampDb == 1.2 * EPSILON;
    assert Build(f, rate, []) == [];
    CompositionCondition(f, p, p, rate);
  }

  // ---- Reset ------------------------------------------------------------------------

  /** Whatever was played before, a reset equaliser is the one that was built: no track bleeds into the next. */
  lemma ResetForgets(eq: Eq, frames: seq<(real, real)>)
    requires Resting(eq.left) && Resting(eq.right)
    ensures var played := After(Process, ChainOf(eq), frames);
            Chain(played.gain, Map(Rested, played.left), Map(Rested, played.right)) == ChainOf(eq)
  {
    PlayForgotten(Process, Rested, ChainOf(eq), frames);
    assert Map(Rested, eq.left) == eq.left && Map(Rested, eq.right) == eq.right;
  }
}
