/** What the confirmation test means, and what a processor that passes it plays. */
module CorrectionShown {
  import opened Basics
  import opened CorrectionPatch
  import Decimal
  import Equaliser
  import opened EqualiserBuild

  datatype Place = Member(key: string) | Item(index: nat)

  /** What stands at a path of keys and indices. */
  function Follow(v: Json, path: seq<Place>): Option<Json> {
    if path == [] then Some(v)
    else
      match path[0]
      case Member(key) => if v.Obj? && key in v.members then Follow(v.members[key], path[1..]) else None
      case Item(i) => if v.Arr? && i < |v.items| then Follow(v.items[i], path[1..]) else None
  }

  ghost predicate SaysNumber(v: Json, x: real) {
    v.Num? && match v.n
              case Integer(i) => i as real == x
              case Float(r) => r == x
  }

  /** The same kind of thing: an object, an array of that length, that number however it is written, or
      that very value. */
  ghost predicate Alike(actual: Json, expected: Json) {
    match expected
    case Obj(_) => actual.Obj?
    case Arr(items) => actual.Arr? && |actual.items| == |items|
    case Num(Integer(i)) => SaysNumber(actual, i as real)
    case Num(Float(r)) => SaysNumber(actual, r)
    case _ => actual == expected
  }

  ghost predicate AlikeAt(actual: Json, expected: Json, path: seq<Place>) {
    Follow(expected, path).Some? ==>
      Follow(actual, path).Some? && Alike(Follow(actual, path).value, Follow(expected, path).value)
  }

  lemma OnePlace(v: Json, place: Place)
    ensures place.Member? ==> Follow(v, [place]) == if v.Obj? && place.key in v.members
                                                      then Some(v.members[place.key]) else None
    ensures place.Item? ==> Follow(v, [place]) == if v.Arr? && place.index < |v.items| then Some(v.items[place.index])
                                                    else None
  {
    assert [place][1..] == [];
  }

  lemma {:induction false} MatchesAlong(actual: Json, expected: Json, path: seq<Place>)
    requires Matches(actual, expected)
    ensures AlikeAt(actual, expected, path)
    decreases |path|
  {
    if path != [] && Follow(expected, path).Some? {
      match path[0]
      case Member(key) => MatchesAlong(actual.members[key], expected.members[key], path[1..]);
      case Item(i) => MatchesAlong(actual.items[i], expected.items[i], path[1..]);
    }
  }

  lemma AlikeBelow(actual: Json, expected: Json, place: Place)
    requires forall path :: AlikeAt(actual, expected, path)
    requires Follow(actual, [place]).Some? && Follow(expected, [place]).Some?
    ensures forall path :: AlikeAt(Follow(actual, [place]).value, Follow(expected, [place]).value, path)
  {
    forall path ensures AlikeAt(Follow(actual, [place]).value, Follow(expected, [place]).value, path) {
      assert ([place] + path)[1..] == path && [place][1..] == [];
      assert AlikeAt(actual, expected, [place] + path);
    }
  }

  lemma {:induction false} AlikeEverywhere(actual: Json, expected: Json)
    requires forall path :: AlikeAt(actual, expected, path)
    ensures Matches(actual, expected)
    decreases expected
  {
    assert AlikeAt(actual, expected, []);
    if expected.Obj? {
      forall key | key in expected.members
        ensures key in actual.members && Matches(actual.members[key], expected.members[key])
      {
        OnePlace(expected, Member(key));
        OnePlace(actual, Member(key));
        assert Follow(expected, [Member(key)]) == Some(expected.members[key]);
        assert AlikeAt(actual, expected, [Member(key)]);
        AlikeBelow(actual, expected, Member(key));
        AlikeEverywhere(actual.members[key], expected.members[key]);
      }
    } else if expected.Arr? {
      forall i | 0 <= i < |expected.items| ensures Matches(actual.items[i], expected.items[i]) {
        OnePlace(expected, Item(i));
        OnePlace(actual, Item(i));
        AlikeBelow(actual, expected, Item(i));
        AlikeEverywhere(actual.items[i], expected.items[i]);
      }
    }
  }

  /** The test accepts exactly what has, at every path of the expected value, the same thing. */
  lemma MatchesMeaning(actual: Json, expected: Json)
    ensures Matches(actual, expected) <==> forall path :: AlikeAt(actual, expected, path)
  {
    if Matches(actual, expected) {
      forall path ensures AlikeAt(actual, expected, path) { MatchesAlong(actual, expected, path); }
    }
    if forall path :: AlikeAt(actual, expected, path) { AlikeEverywhere(actual, expected); }
  }

  // ---- What is played ---------------------------------------------------------------

  ghost predicate Says(v: Json, path: seq<Place>, expected: Json) { Follow(v, path) == Some(expected) }

  ghost predicate SaysNumberAt(v: Json, path: seq<Place>, x: real) {
    Follow(v, path).Some? && SaysNumber(Follow(v, path).value, x)
  }

  ghost function KindName(kind: string): string {
    if kind == "peaking" then "Peaking" else if kind == "lowshelf" then "Lowshelf" else "Highshelf"
  }

  ghost function BandPath(i: nat): seq<Place> { [Member("filters"), Member("musicata_band_" + Decimal.ToString(i))] }

  /** A biquad of the band's kind, frequency and gain, with its own Q or the fixed slope of a shelf. */
  ghost predicate PlaysBand(v: Json, i: nat, band: Equaliser.Band, rootHalf: real) {
    var parameters := BandPath(i) + [Member("parameters")];
    && Says(v, BandPath(i) + [Member("type")], Str("Biquad"))
    && Says(v, parameters + [Member("type")], Str(KindName(band.kind)))
    && SaysNumberAt(v, parameters + [Member("freq")], band.freq)
    && SaysNumberAt(v, parameters + [Member("gain")], band.gain)
    && SaysNumberAt(v, parameters + [Member("q")], if band.kind == "peaking" then band.q else rootHalf)
  }

  ghost predicate PlaysGain(v: Json, db: real) {
    && Says(v, [Member("filters"), Member("musicata_preamp"), Member("type")], Str("Gain"))
    && SaysNumberAt(v, [Member("filters"), Member("musicata_preamp"), Member("parameters"), Member("gain")], db)
  }

  /** The stage at `at` is the last, on both channels, and runs the gain and then `n` bands in order. */
  ghost predicate RunsStage(v: Json, at: nat, n: nat) {
    var stage := [Member("pipeline"), Item(at)];
    && Follow(v, [Member("pipeline")]).Some? && Follow(v, [Member("pipeline")]).value.Arr?
    && |Follow(v, [Member("pipeline")]).value.items| == at + 1
    && Says(v, stage + [Member("type")], Str("Filter"))
    && SaysNumberAt(v, stage + [Member("channels"), Item(0)], 0.0)
    && SaysNumberAt(v, stage + [Member("channels"), Item(1)], 1.0)
    && Follow(v, stage + [Member("names")]).Some? && Follow(v, stage + [Member("names")]).value.Arr?
    && |Follow(v, stage + [Member("names")]).value.items| == n + 1
    && Says(v, stage + [Member("names"), Item(0)], Str("musicata_preamp"))
    && forall i :: 0 <= i < n ==>
         Says(v, stage + [Member("names"), Item(i + 1)], Str("musicata_band_" + Decimal.ToString(i)))
  }

  /** The configuration plays the profile, after whatever stages others have put before it. */
  ghost predicate Plays(v: Json, profile: Option<Equaliser.Profile>, rootHalf: real) {
    var bands := if profile.Some? then profile.value.bands else [];
    && PlaysGain(v, if profile.Some? then profile.value.preampDb else 0.0)
    && (forall i :: 0 <= i < |bands| ==> PlaysBand(v, i, bands[i], rootHalf))
    && exists at: nat :: RunsStage(v, at, |bands|)
  }

  lemma FollowMember(v: Json, key: string, rest: seq<Place>)
    ensures Follow(v, [Member(key)] + rest) == if v.Obj? && key in v.members then Follow(v.members[key], rest) else None
  {
    assert ([Member(key)] + rest)[1..] == rest;
  }

  lemma FollowItem(v: Json, i: nat, rest: seq<Place>)
    ensures Follow(v, [Item(i)] + rest) == if v.Arr? && i < |v.items| then Follow(v.items[i], rest) else None
  {
    assert ([Item(i)] + rest)[1..] == rest;
  }

  /** A confirmed part of a configuration is alike in both at every path. */
  lemma AlikeUnder(actual: Json, candidate: Json, key: string, rest: seq<Place>)
    requires Matches(At(actual, key), At(candidate, key)) && At(candidate, key) != Null
    ensures AlikeAt(actual, candidate, [Member(key)] + rest)
  {
    FollowMember(actual, key, rest);
    FollowMember(candidate, key, rest);
    MatchesMeaning(At(actual, key), At(candidate, key));
    assert AlikeAt(At(actual, key), At(candidate, key), rest);
  }

  lemma SaysAlike(actual: Json, candidate: Json, key: string, rest: seq<Place>, path: seq<Place>)
    requires Matches(At(actual, key), At(candidate, key)) && At(candidate, key) != Null && path == [Member(key)] + rest
    ensures forall s :: Says(candidate, path, Str(s)) ==> Says(actual, path, Str(s))
    ensures forall x :: SaysNumberAt(candidate, path, x) ==> SaysNumberAt(actual, path, x)
  {
    AlikeUnder(actual, candidate, key, rest);
  }

  lemma BandConfirmed(actual: Json, candidate: Json, i: nat, band: Equaliser.Band, rootHalf: real)
    requires Matches(At(actual, "filters"), At(candidate, "filters")) && At(candidate, "filters") != Null
    requires PlaysBand(candidate, i, band, rootHalf)
    ensures PlaysBand(actual, i, band, rootHalf)
  {
    var name := Member("musicata_band_" + Decimal.ToString(i));
    SaysAlike(actual, candidate, "filters", [name, Member("type")], BandPath(i) + [Member("type")]);
    forall key
      ensures forall s :: Says(candidate, BandPath(i) + [Member("parameters")] + [Member(key)], Str(s)) ==>
                Says(actual, BandPath(i) + [Member("parameters")] + [Member(key)], Str(s))
      ensures forall x :: SaysNumberAt(candidate, BandPath(i) + [Member("parameters")] + [Member(key)], x) ==>
                SaysNumberAt(actual, BandPath(i) + [Member("parameters")] + [Member(key)], x)
    {
      SaysAlike(actual, candidate, "filters", [name, Member("parameters"), Member(key)],
                BandPath(i) + [Member("parameters")] + [Member(key)]);
    }
  }

  lemma GainConfirmed(actual: Json, candidate: Json, db: real)
    requires Matches(At(actual, "filters"), At(candidate, "filters")) && At(candidate, "filters") != Null
    requires PlaysGain(candidate, db)
    ensures PlaysGain(actual, db)
  {
    var name := Member("musicata_preamp");
    SaysAlike(actual, candidate, "filters", [name, Member("type")], [Member("filters"), name, Member("type")]);
    SaysAlike(actual, candidate, "filters", [name, Member("parameters"), Member("gain")],
              [Member("filters"), name, Member("parameters"), Member("gain")]);
  }

  lemma StageConfirmed(actual: Json, candidate: Json, at: nat, n: nat)
    requires Matches(At(actual, "pipeline"), At(candidate, "pipeline")) && At(candidate, "pipeline") != Null
    requires RunsStage(candidate, at, n)
    ensures RunsStage(actual, at, n)
  {
    var stage := [Member("pipeline"), Item(at)];
    assert [Member("pipeline")] == [Member("pipeline")] + [];
    AlikeUnder(actual, candidate, "pipeline", []);
    assert stage + [Member("names")] == [Member("pipeline")] + [Item(at), Member("names")];
    AlikeUnder(actual, candidate, "pipeline", [Item(at), Member("names")]);
    SaysAlike(actual, candidate, "pipeline", [Item(at), Member("type")], stage + [Member("type")]);
    SaysAlike(actual, candidate, "pipeline", [Item(at), Member("channels"), Item(0)],
        stage + [Member("channels"), Item(0)]);
    SaysAlike(actual, candidate, "pipeline", [Item(at), Member("channels"), Item(1)],
        stage + [Member("channels"), Item(1)]);
    forall i: nat
      ensures forall s :: Says(candidate, stage + [Member("names"), Item(i)], Str(s)) ==>
                Says(actual, stage + [Member("names"), Item(i)], Str(s))
    {
      SaysAlike(actual, candidate, "pipeline", [Item(at), Member("names"), Item(i)],
          stage + [Member("names"), Item(i)]);
    }
  }

  // ---- The candidate itself ---------------------------------------------------------

  lemma TwoDown(v: Json, a: string, b: string, found: Json, rest: seq<Place>)
    requires At(At(v, a), b) == found && found != Null
    ensures Follow(v, [Member(a), Member(b)] + rest) == Follow(found, rest)
  {
    assert [Member(a), Member(b)] + rest == [Member(a)] + ([Member(b)] + rest);
    FollowMember(v, a, [Member(b)] + rest);
    FollowMember(At(v, a), b, rest);
  }

  lemma BandSaid(v: Json, i: nat, band: Equaliser.Band, rootHalf: real)
    requires At(At(v, "filters"), BandName(i)) == BandFilter(band, rootHalf) && KindOf(band.kind).Some?
    ensures PlaysBand(v, i, band, rootHalf)
  {
    var filter := BandFilter(band, rootHalf);
    forall rest ensures Follow(v, BandPath(i) + rest) == Follow(filter, rest) {
      TwoDown(v, "filters", BandName(i), filter, rest);
    }
    OnePlace(filter, Member("type"));
    forall key
      ensures Follow(v, BandPath(i) + [Member("parameters")] + [Member(key)]) ==
                Follow(filter.members["parameters"], [Member(key)])
    {
      assert BandPath(i) + [Member("parameters")] + [Member(key)] == BandPath(i) + [Member("parameters"), Member(key)];
      FollowMember(filter, "parameters", [Member(key)]);
      assert [Member("parameters")] + [Member(key)] == [Member("parameters"), Member(key)];
    }
    forall key { OnePlace(filter.members["parameters"], Member(key)); }
  }

  lemma GainSaid(v: Json, db: real)
    requires At(At(v, "filters"), "musicata_preamp") == Gain(db)
    ensures PlaysGain(v, db)
  {
    var path := [Member("filters"), Member("musicata_preamp")];
    assert path + [Member("type")] == [Member("filters"), Member("musicata_preamp"), Member("type")];
    TwoDown(v, "filters", "musicata_preamp", Gain(db), [Member("type")]);
    OnePlace(Gain(db), Member("type"));
    assert path + [Member("parameters"), Member("gain")] ==
           [Member("filters"), Member("musicata_preamp"), Member("parameters"), Member("gain")];
    TwoDown(v, "filters", "musicata_preamp", Gain(db), [Member("parameters"), Member("gain")]);
    assert [Member("parameters")] + [Member("gain")] == [Member("parameters"), Member("gain")];
    FollowMember(Gain(db), "parameters", [Member("gain")]);
    OnePlace(Gain(db).members["parameters"], Member("gain"));
  }

  lemma InStage(v: Json, others: seq<Json>, stage: Json, rest: seq<Place>)
    requires At(v, "pipeline") == Arr(others + [stage])
    ensures Follow(v, [Member("pipeline"), Item(|others|)] + rest) == Follow(stage, rest)
  {
    assert [Member("pipeline"), Item(|others|)] + rest == [Member("pipeline")] + ([Item(|others|)] + rest);
    FollowMember(v, "pipeline", [Item(|others|)] + rest);
    FollowItem(At(v, "pipeline"), |others|, rest);
  }

  lemma ItemOf(stage: Json, key: string, items: seq<Json>, i: nat)
    requires At(stage, key) == Arr(items) && i < |items|
    ensures Follow(stage, [Member(key), Item(i)]) == Some(items[i])
  {
    assert [Member(key)] + [Item(i)] == [Member(key), Item(i)];
    FollowMember(stage, key, [Item(i)]);
    OnePlace(Arr(items), Item(i));
  }

  lemma StageSaid(v: Json, others: seq<Json>, n: nat)
    requires At(v, "pipeline") == Arr(others + [NewStage(n)])
    ensures RunsStage(v, |others|, n)
  {
    var stage, names := NewStage(n), StrArray(NewNames(n));
    OnePlace(v, Member("pipeline"));
    InStage(v, others, stage, [Member("type")]);
    InStage(v, others, stage, [Member("names")]);
    OnePlace(stage, Member("type"));
    OnePlace(stage, Member("names"));
    var channels := [Num(Integer(0)), Num(Integer(1))];
    InStage(v, others, stage, [Member("channels"), Item(0)]);
    InStage(v, others, stage, [Member("channels"), Item(1)]);
    ItemOf(stage, "channels", channels, 0);
    ItemOf(stage, "channels", channels, 1);
    NamesInOrder(n);
    NameSaid(v, others, n, 0);
    forall i | 0 <= i < n
      ensures Says(v, [Member("pipeline"), Item(|others|)] + [Member("names"), Item(i + 1)],
                Str("musicata_band_" + Decimal.ToString(i)))
    {
      NameSaid(v, others, n, i + 1);
      assert NewNames(n)[i + 1] == BandName(i);
    }
  }

  lemma NameSaid(v: Json, others: seq<Json>, n: nat, i: nat)
    requires At(v, "pipeline") == Arr(others + [NewStage(n)]) && i <= n
    ensures Says(v, [Member("pipeline"), Item(|others|)] + [Member("names"), Item(i)], Str(NewNames(n)[i]))
  {
    InStage(v, others, NewStage(n), [Member("names"), Item(i)]);
    ItemOf(NewStage(n), "names", StrArray(NewNames(n)), i);
  }

  lemma CandidatePlays(active: Json, profile: Option<Equaliser.Profile>, rootHalf: real)
    requires PatchRefusal(active, profile) == None
    ensures Plays(Candidate(active, profile, rootHalf), profile, rootHalf)
  {
    var candidate, bands := Candidate(active, profile, rootHalf), Equaliser.Bands(profile);
    CandidateAt(active, profile, rootHalf);
    NewFiltersMeaning(Preamp(profile), bands, rootHalf);
    GainSaid(candidate, Preamp(profile));
    forall i | 0 <= i < |bands| ensures PlaysBand(candidate, i, bands[i], rootHalf) {
      KnownKinds(active, profile, i);
      BandSaid(candidate, i, bands[i], rootHalf);
    }
    StageSaid(candidate, Foreign(At(active, "pipeline").items), |bands|);
  }

  lemma KnownKinds(active: Json, profile: Option<Equaliser.Profile>, i: nat)
    requires PatchRefusal(active, profile) == None && i < |Equaliser.Bands(profile)|
    ensures KindOf(Equaliser.Bands(profile)[i].kind).Some?
  {
    SupportedBands(Equaliser.Bands(profile), i);
  }

  /** A configuration that passes the test plays the profile. */
  lemma ConfirmedPlays(active: Json, profile: Option<Equaliser.Profile>, rootHalf: real, actual: Json)
    requires PatchRefusal(active, profile) == None && Confirms(actual, Candidate(active, profile, rootHalf))
    ensures Plays(actual, profile, rootHalf)
  {
    var candidate, bands := Candidate(active, profile, rootHalf), Equaliser.Bands(profile);
    CandidatePlays(active, profile, rootHalf);
    CandidateAt(active, profile, rootHalf);
    GainConfirmed(actual, candidate, Preamp(profile));
    forall i | 0 <= i < |bands| ensures PlaysBand(actual, i, bands[i], rootHalf) {
      BandConfirmed(actual, candidate, i, bands[i], rootHalf);
    }
    var at: nat :| RunsStage(candidate, at, |bands|);
    StageConfirmed(actual, candidate, at, |bands|);
  }

  // ---- What is left alone -----------------------------------------------------------

  ghost predicate Names(stage: Json, name: string) {
    exists k: nat :: Says(stage, [Member("names"), Item(k)], Str(name))
  }

  ghost predicate MarkedOurs(stage: Json) { Says(stage, [Member("description")], Str("Musicata output correction")) }

  lemma MarkedMeaning(stage: Json)
    ensures Marked(stage) <==> MarkedOurs(stage)
  {
    OnePlace(stage, Member("description"));
  }

  lemma {:induction false} StringsMeaning(items: seq<Json>, name: string)
    ensures name in Strings(items) <==> Str(name) in items
  {
    if items != [] {
      StringsMeaning(items[1..], name);
      assert items == [items[0]] + items[1..];
    }
  }

  lemma NamesMeaning(stage: Json, name: string)
    ensures name in NamesOf(stage) <==> Names(stage, name)
  {
    var names := At(stage, "names");
    forall k: nat ensures Follow(stage, [Member("names"), Item(k)]) == Follow(names, [Item(k)]) {
      assert [Member("names")] + [Item(k)] == [Member("names"), Item(k)];
      FollowMember(stage, "names", [Item(k)]);
      OnePlace(Null, Item(k));
    }
    forall k: nat { OnePlace(names, Item(k)); }
    if names.Arr? {
      StringsMeaning(names.items, name);
      if Str(name) in names.items {
        var k: nat :| k < |names.items| && names.items[k] == Str(name);
        assert Says(stage, [Member("names"), Item(k)], Str(name));
      }
    }
  }

  /** The owned names are those named in a stage that carries our description. */
  lemma {:induction false} OwnedMeaning(pipeline: seq<Json>, name: string)
    ensures name in Owned(pipeline) <==>
              exists i :: 0 <= i < |pipeline| && MarkedOurs(pipeline[i]) && Names(pipeline[i], name)
  {
    if pipeline != [] {
      OwnedMeaning(pipeline[1..], name);
      MarkedMeaning(pipeline[0]);
      NamesMeaning(pipeline[0], name);
      assert forall i :: 0 < i < |pipeline| ==> pipeline[i] == pipeline[1..][i - 1];
      assert forall i :: 0 <= i < |pipeline[1..]| ==> pipeline[1..][i] == pipeline[i + 1];
    }
  }

  /** How many stages before `i` do not carry our description. */
  ghost function OthersBefore(pipeline: seq<Json>, i: nat): nat
    requires i <= |pipeline|
  {
    if i == 0 then 0 else OthersBefore(pipeline, i - 1) + if MarkedOurs(pipeline[i - 1]) then 0 else 1
  }

  lemma {:induction false} OthersBeforeTail(pipeline: seq<Json>, i: nat)
    requires 0 < i <= |pipeline|
    ensures OthersBefore(pipeline, i) == OthersBefore(pipeline[1..], i - 1) + if MarkedOurs(pipeline[0]) then 0 else 1
  {
    if i > 1 { OthersBeforeTail(pipeline, i - 1); }
  }

  ghost predicate InPlace(pipeline: seq<Json>, others: seq<Json>, i: nat)
    requires i < |pipeline|
  {
    OthersBefore(pipeline, i) < |others| && others[OthersBefore(pipeline, i)] == pipeline[i]
  }

  /** The stages of others are exactly those without our description, in their order. */
  lemma {:induction false} ForeignMeaning(pipeline: seq<Json>)
    ensures |Foreign(pipeline)| == OthersBefore(pipeline, |pipeline|)
    ensures forall i :: 0 <= i < |pipeline| && !MarkedOurs(pipeline[i]) ==> InPlace(pipeline, Foreign(pipeline), i)
  {
    if pipeline != [] {
      var rest := pipeline[1..];
      ForeignMeaning(rest);
      MarkedMeaning(pipeline[0]);
      OthersBeforeTail(pipeline, |pipeline|);
      var first := if MarkedOurs(pipeline[0]) then [] else [pipeline[0]];
      assert Foreign(pipeline) == first + Foreign(rest);
      forall i | 0 <= i < |pipeline| && !MarkedOurs(pipeline[i]) ensures InPlace(pipeline, Foreign(pipeline), i) {
        if i > 0 {
          assert !MarkedOurs(rest[i - 1]);
          InPlaceBehind(pipeline, Foreign(rest), i);
        }
      }
    }
  }

  lemma InPlaceBehind(pipeline: seq<Json>, others: seq<Json>, i: nat)
    requires 0 < i < |pipeline| && InPlace(pipeline[1..], others, i - 1)
    ensures InPlace(pipeline, (if MarkedOurs(pipeline[0]) then [] else [pipeline[0]]) + others, i)
  {
    OthersBeforeTail(pipeline, i);
  }

  /** A stage that names something that begins like ours. */
  ghost predicate NamesReserved(stage: Json, name: string) {
    |name| >= 9 && name[..9] == "musicata_" && Names(stage, name)
  }

  lemma UsesReservedMeaning(pipeline: seq<Json>)
    ensures UsesReserved(pipeline) <==> exists i, name :: 0 <= i < |pipeline| && NamesReserved(pipeline[i], name)
  {
    if UsesReserved(pipeline) {
      var i :| 0 <= i < |pipeline| && exists name :: name in NamesOf(pipeline[i]) && Reserved(name);
      var name :| name in NamesOf(pipeline[i]) && Reserved(name);
      ReservedMeaning(pipeline[i], name);
    }
    if i, name :| 0 <= i < |pipeline| && NamesReserved(pipeline[i], name) {
      ReservedMeaning(pipeline[i], name);
    }
  }

  lemma ReservedMeaning(stage: Json, name: string)
    ensures name in NamesOf(stage) && Reserved(name) <==> NamesReserved(stage, name)
  {
    NamesMeaning(stage, name);
    assert |RESERVED| == 9;
    if |name| >= 9 { assert RESERVED <= name <==> name[..9] == "musicata_"; }
  }

  ghost predicate Generated(n: nat, name: string) {
    name == "musicata_preamp" || exists i :: 0 <= i < n && name == "musicata_band_" + Decimal.ToString(i)
  }

  ghost predicate NoMarkedNames(pipeline: seq<Json>, name: string) {
    forall i :: 0 <= i < |pipeline| && MarkedOurs(pipeline[i]) ==> !Names(pipeline[i], name)
  }

  /** The filters of a confirmed configuration are those of before that no stage of ours named, and the
      generated ones; there are no others. */
  lemma ConfirmedFilters(active: Json, profile: Option<Equaliser.Profile>, rootHalf: real, actual: Json, name: string)
    requires PatchRefusal(active, profile) == None && Confirms(actual, Candidate(active, profile, rootHalf))
    ensures At(actual, "filters").Obj?
    ensures name in At(actual, "filters").members <==>
              || Generated(|Equaliser.Bands(profile)|, name)
              || (&& name in At(active, "filters").members
                  && NoMarkedNames(At(active, "pipeline").items, name))
  {
    var candidate := Candidate(active, profile, rootHalf);
    CandidateAt(active, profile, rootHalf);
    var have, want := At(actual, "filters").members, At(candidate, "filters").members;
    assert want.Keys <= have.Keys;
    assert |want.Keys| == |want| == |have| == |have.Keys|;
    SubsetOfSize(want.Keys, have.Keys);
    NewFilterNames(Preamp(profile), Equaliser.Bands(profile), rootHalf);
    NamesAreNew(|Equaliser.Bands(profile)|);
    assert IsNewName(|Equaliser.Bands(profile)|, name) <==> Generated(|Equaliser.Bands(profile)|, name) by {
      forall i: nat ensures BandName(i) == "musicata_band_" + Decimal.ToString(i) {}
    }
    OwnedMeaning(At(active, "pipeline").items, name);
  }

  lemma {:induction false} SubsetOfSize(a: set<string>, b: set<string>)
    requires a <= b && |a| == |b|
    ensures a == b
  {
    if a != {} {
      var x :| x in a;
      SubsetOfSize(a - {x}, b - {x});
    }
  }

  // ---- When there is a patch --------------------------------------------------------

  ghost predicate RateOf(active: Json, rate: nat) {
    rate < 0x1_0000_0000_0000_0000 && Says(active, [Member("devices"), Member("samplerate")], Num(Integer(rate)))
  }

  /** A stereo processor with a sample rate, at which the profile can be played, with stages and filters,
      and no stage of others that names a filter the way ours are named. */
  ghost predicate Patchable(active: Json, profile: Option<Equaliser.Profile>, rate: nat) {
    && RateOf(active, rate)
    && Says(active, [Member("devices"), Member("playback"), Member("channels")], Num(Integer(2)))
    && (profile.Some? ==> Playable(profile.value, rate % 0x1_0000_0000))
    && Follow(active, [Member("pipeline")]).Some? && Follow(active, [Member("pipeline")]).value.Arr?
    && Follow(active, [Member("filters")]).Some? && Follow(active, [Member("filters")]).value.Obj?
    && OthersUnreserved(Follow(active, [Member("pipeline")]).value.items)
  }

  lemma TwoMembers(v: Json, a: string, b: string)
    ensures forall w :: w != Null ==> (Says(v, [Member(a), Member(b)], w) <==> At(At(v, a), b) == w)
  {
    assert [Member(a)] + [Member(b)] == [Member(a), Member(b)];
    FollowMember(v, a, [Member(b)]);
    OnePlace(At(v, a), Member(b));
  }

  lemma ThreeMembers(v: Json, a: string, b: string, c: string, w: Json)
    requires w != Null
    ensures Says(v, [Member(a), Member(b), Member(c)], w) <==> At(At(At(v, a), b), c) == w
  {
    assert [Member(a)] + [Member(b), Member(c)] == [Member(a), Member(b), Member(c)];
    FollowMember(v, a, [Member(b), Member(c)]);
    TwoMembers(At(v, a), b, c);
    assert Says(At(v, a), [Member(b), Member(c)], w) <==> At(At(At(v, a), b), c) == w;
  }

  lemma {:induction false} ForeignStages(pipeline: seq<Json>)
    ensures forall s :: s in Foreign(pipeline) <==> s in pipeline && !MarkedOurs(s)
  {
    if pipeline != [] {
      ForeignStages(pipeline[1..]);
      MarkedMeaning(pipeline[0]);
      assert pipeline == [pipeline[0]] + pipeline[1..];
    }
  }

  lemma ReservedByOthers(pipeline: seq<Json>)
    ensures UsesReserved(Foreign(pipeline)) <==>
              exists i, name :: 0 <= i < |pipeline| && NamesReserved(pipeline[i], name) && !MarkedOurs(pipeline[i])
  {
    var others := Foreign(pipeline);
    UsesReservedMeaning(others);
    ForeignStages(pipeline);
    if i, name :| 0 <= i < |others| && NamesReserved(others[i], name) {
      assert others[i] in pipeline;
      var j :| 0 <= j < |pipeline| && pipeline[j] == others[i];
    }
    if i, name :| 0 <= i < |pipeline| && NamesReserved(pipeline[i], name) && !MarkedOurs(pipeline[i]) {
      assert pipeline[i] in others;
      var j :| 0 <= j < |others| && others[j] == pipeline[i];
    }
  }

  lemma RateMeaning(active: Json, rate: nat)
    ensures AsU64(At(At(active, "devices"), "samplerate")) == Some(rate) <==> RateOf(active, rate)
  {
    TwoMembers(active, "devices", "samplerate");
    assert RateOf(active, rate) <==> rate < U64 && At(At(active, "devices"), "samplerate") == Num(Integer(rate));
  }

  lemma StereoMeaning(active: Json)
    ensures AsU64(At(At(At(active, "devices"), "playback"), "channels")) == Some(2) <==>
              Says(active, [Member("devices"), Member("playback"), Member("channels")], Num(Integer(2)))
  {
    ThreeMembers(active, "devices", "playback", "channels", Num(Integer(2)));
  }

  ghost predicate OthersUnreserved(pipeline: seq<Json>) {
    forall i, name :: 0 <= i < |pipeline| && NamesReserved(pipeline[i], name) ==>
      MarkedOurs(pipeline[i])
  }

  /** A patch is made exactly for such a processor. */
  lemma PatchableMeaning(active: Json, profile: Option<Equaliser.Profile>)
    ensures PatchRefusal(active, profile) == None <==> exists rate: nat :: Patchable(active, profile, rate)
  {
    var rate := AsU64(At(At(active, "devices"), "samplerate"));
    if rate.Some? { PatchableAt(active, profile, rate.value); }
    forall other: nat | Patchable(active, profile, other) ensures rate == Some(other) { RateMeaning(active, other); }
  }

  lemma PatchableAt(active: Json, profile: Option<Equaliser.Profile>, rate: nat)
    requires AsU64(At(At(active, "devices"), "samplerate")) == Some(rate)
    ensures PatchRefusal(active, profile) == None <==> Patchable(active, profile, rate)
  {
    RateMeaning(active, rate);
    StereoMeaning(active);
    OnePlace(active, Member("pipeline"));
    OnePlace(active, Member("filters"));
    if profile.Some? { RefusalMeaning(profile.value, rate % U32); }
    var pipeline := At(active, "pipeline");
    if pipeline.Arr? {
      ReservedByOthers(pipeline.items);
      assert OthersUnreserved(pipeline.items) <==> !UsesReserved(Foreign(pipeline.items));
    }
  }
}
