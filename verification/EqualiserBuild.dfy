/** Which profiles are played, and by which filters: the acceptance, the composition and the building
    of `Equaliser` in terms of the profile alone. */
module EqualiserBuild {
  import opened Basics
  import opened Equaliser

  ghost predicate Named(s: string) { exists i :: 0 <= i < |s| && !IsWhitespace(s[i]) }

  ghost predicate PlayableBand(b: Band) {
    && b.kind in {"peaking", "lowshelf", "highshelf"}
    && 1.0 <= b.freq <= 384000.0 && 0.01 <= b.q <= 100.0 && -60.0 <= b.gain <= 60.0
  }

  /** What every profile has to satisfy. */
  ghost predicate Sound(p: Profile) {
    && Named(p.id) && Named(p.name) && -60.0 <= p.preampDb <= 60.0 && |p.bands| <= 128
    && (forall i :: 0 <= i < |p.bands| ==> PlayableBand(p.bands[i]))
    && (p.kind == Some("listening") ==> p.roomIr.None?)
  }

  lemma {:induction false} BandsErrorMeaning(bands: seq<Band>)
    ensures BandsError(bands) == None <==> forall i :: 0 <= i < |bands| ==> PlayableBand(bands[i])
  {
    if bands != [] {
      BandsErrorMeaning(bands[1..]);
      assert forall i :: 0 < i < |bands| ==> bands[i] == bands[1..][i - 1];
      assert forall i :: 0 <= i < |bands[1..]| ==> bands[1..][i] == bands[i + 1];
    }
  }

  lemma BlankMeaning(s: string)
    ensures Blank(s) <==> !Named(s)
  {
  }

  lemma ValidateMeaning(p: Profile)
    ensures Validate(p) == None <==> Sound(p)
  {
    BlankMeaning(p.id);
    BlankMeaning(p.name);
    BandsErrorMeaning(p.bands);
  }

  /** Composition succeeds exactly for sound parts, a listening part without a room, and a sum within the limits. */
  lemma ComposeMeaning(correction: Option<Profile>, listening: Option<Profile>)
    ensures Compose(correction, listening).Ok? <==>
              && (correction.Some? ==> Sound(correction.value))
              && (listening.Some? ==> Sound(listening.value) && listening.value.roomIr.None?)
              && (correction.Some? && listening.Some? ==>
                    && -60.0 <= correction.value.preampDb + listening.value.preampDb <= 60.0
                    && |correction.value.bands| + |listening.value.bands| <= 128)
    ensures Compose(correction, listening).Ok? ==>
              Compose(correction, listening).value == Layered(correction, listening)
  {
    ComposeAccepts(correction, listening);
    if correction.Some? { ValidateMeaning(correction.value); }
    if listening.Some? { ValidateMeaning(listening.value); }
  }

  /** The correction, with the decibels and the bands of the listening part added after its own. */
  ghost function Layered(correction: Option<Profile>, listening: Option<Profile>): Option<Profile> {
    if correction.None? then listening
    else if listening.None? then correction
    else
      var c, l := correction.value, listening.value;
      Some(Profile(c.id, c.name, c.preampDb + l.preampDb, c.bands + l.bands, c.kind, c.roomIr))
  }

  /** A filter at rest with the coefficients of the band's own kind. */
  ghost predicate FilterOf(f: Formulas, rate: nat, band: Band, filter: Biquad) {
    && filter.x1 == filter.x2 == filter.y1 == filter.y2 == 0.0
    && var q := if band.q < 0.01 then 0.01 else band.q;
       filter.c == if band.kind == "peaking" then f.peaking(rate as real, band.freq, q, band.gain)
                   else if band.kind == "lowshelf" then f.lowShelf(rate as real, band.freq, q, band.gain)
                   else f.highShelf(rate as real, band.freq, q, band.gain)
  }

  ghost predicate FiltersOf(f: Formulas, rate: nat, bands: seq<Band>, filters: seq<Biquad>) {
    |filters| == |bands| && forall i :: 0 <= i < |bands| ==> FilterOf(f, rate, bands[i], filters[i])
  }

  lemma {:induction false} BuiltFilters(f: Formulas, rate: nat, bands: seq<Band>)
    requires BandsError(bands) == None
    ensures FiltersOf(f, rate, bands, Build(f, rate, bands))
  {
    if bands != [] {
      BuiltFilters(f, rate, bands[1..]);
      var first, rest := Design(f, rate, bands[0]), Build(f, rate, bands[1..]);
      forall i | 0 <= i < |bands| ensures FilterOf(f, rate, bands[i], Build(f, rate, bands)[i]) {
        if i > 0 { assert bands[i] == bands[1..][i - 1] && Build(f, rate, bands)[i] == rest[i - 1]; }
      }
    }
  }

  /** A sound profile without a room, all of whose bands are below half the sample rate. */
  ghost predicate Playable(p: Profile, rate: nat) {
    && Sound(p) && p.roomIr.None? && rate > 0
    && forall i :: 0 <= i < |p.bands| ==> 2.0 * p.bands[i].freq < rate as real
  }

  lemma RefusalMeaning(p: Profile, rate: nat)
    ensures Refusal(p, rate) == None <==> Playable(p, rate)
  {
    ValidateMeaning(p);
    assert BelowNyquist(p, rate) <==>
              rate > 0 && forall i :: 0 <= i < |p.bands| ==> 2.0 * p.bands[i].freq < rate as real by {
      forall i | 0 <= i < |p.bands| ensures p.bands[i] in p.bands {}
    }
  }

  /** A profile is played exactly when it is sound, has no room and every band is below half the sample
      rate. It is left out as doing nothing exactly when it has no bands and less than the machine
      epsilon of gain; otherwise each channel gets the gain and one filter a band, of the band's kind. */
  lemma FromProfileMeaning(f: Formulas, p: Profile, rate: nat)
    ensures FromProfile(f, p, rate).Ok? <==> Playable(p, rate)
    ensures FromProfile(f, p, rate).Ok? ==>
              (FromProfile(f, p, rate).value.None? <==>
                p.bands == [] && -1.0 < p.preampDb * 4503599627370496.0 < 1.0)
    ensures FromProfile(f, p, rate).Ok? && FromProfile(f, p, rate).value.Some? ==>
              var eq := FromProfile(f, p, rate).value.value;
              && eq.preamp == f.amplitude(p.preampDb)
              && FiltersOf(f, rate, p.bands, eq.left) && FiltersOf(f, rate, p.bands, eq.right)
  {
    RefusalMeaning(p, rate);
    if Validate(p) == None { BuiltFilters(f, rate, p.bands); }
  }
}
