/** The patch that gives a CamillaDSP processor the output correction, and the test that confirms it. */
module CorrectionPatch {
  import opened Basics
  import Decimal
  import Equaliser

  datatype Number = Integer(i: int) | Float(r: real) {
    /** `as_f64`, without its rounding. */
    function Real(): real { if Integer? then i as real else r }
  }

  datatype Json = Null | Bool(b: bool) | Num(n: Number) | Str(s: string) | Arr(items: seq<Json>)
      | Obj(members: map<string, Json>)

  const STAGE: string := "Musicata output correction"
  const RESERVED: string := "musicata_"
  const PREAMP: string := "musicata_preamp"
  const U32: nat := 0x1_0000_0000
  const U64: nat := 0x1_0000_0000_0000_0000

  /** A member of an object; anything else has none. */
  function At(v: Json, key: string): Json {
    if v.Obj? && key in v.members then v.members[key] else Null
  }

  function AsU64(v: Json): Option<nat> {
    if v.Num? && v.n.Integer? && 0 <= v.n.i < U64 then Some(v.n.i) else None
  }

  // ---- JSON Merge Patch, section 2 of RFC 7396 --------------------------------------

  function Merge(target: Json, patch: Json): Json
    decreases patch
  {
    if patch.Obj? then
      var was := if target.Obj? then target.members else map[];
      Obj(map key | key in was.Keys + patch.members.Keys && !(key in patch.members && patch.members[key] == Null) ::
            if key in patch.members then Merge(if key in was then was[key] else Null, patch.members[key]) else was[key])
    else patch
  }

  // ---- The confirmation test --------------------------------------------------------

  /** Every requested value is there; objects may have more members. */
  predicate Matches(actual: Json, expected: Json)
    decreases expected
  {
    if actual.Obj? && expected.Obj? then
      forall key | key in expected.members :: key in actual.members &&
          Matches(actual.members[key], expected.members[key])
    else if actual.Arr? && expected.Arr? then
      |actual.items| == |expected.items| && forall i | 0 <= i < |expected.items| ::
                                              Matches(actual.items[i], expected.items[i])
    else if actual.Num? && expected.Num? then actual.n.Real() == expected.n.Real()
    else actual == expected
  }

  function Size(v: Json): Option<nat> { if v.Obj? then Some(|v.members|) else None }

  predicate Confirms(actual: Json, candidate: Json) {
    && Matches(At(actual, "pipeline"), At(candidate, "pipeline"))
    && Matches(At(actual, "filters"), At(candidate, "filters"))
    && Size(At(actual, "filters")) == Size(At(candidate, "filters"))
  }

  lemma {:induction false} MatchesItself(v: Json)
    ensures Matches(v, v)
    decreases v
  {
    match v
    case Obj(members) =>
      forall key | key in members ensures Matches(members[key], members[key]) { MatchesItself(members[key]); }
    case Arr(items) =>
      forall i | 0 <= i < |items| ensures Matches(items[i], items[i]) { MatchesItself(items[i]); }
    case _ =>
  }

  /** No member of an object, at any depth of objects, asks for a removal. */
  ghost predicate Adds(patch: Json)
    decreases patch
  {
    patch != Null && (patch.Obj? ==> forall key | key in patch.members :: Adds(patch.members[key]))
  }

  /** A merged patch that removes nothing is found in the result, whatever it was merged into. */
  lemma {:induction false} MergedMatches(target: Json, patch: Json)
    requires Adds(patch)
    ensures Matches(Merge(target, patch), patch)
    decreases patch
  {
    if patch.Obj? {
      forall key | key in patch.members
        ensures key in Merge(target, patch).members && Matches(Merge(target, patch).members[key], patch.members[key])
      {
        assert Adds(patch.members[key]);
        MergedMatches(if target.Obj? && key in target.members then target.members[key] else Null, patch.members[key]);
      }
    } else {
      MatchesItself(patch);
    }
  }

  // ---- The correction ---------------------------------------------------------------

  predicate Marked(stage: Json) { At(stage, "description") == Str(STAGE) }

  function Strings(items: seq<Json>): seq<string> {
    if items == [] then [] else (if items[0].Str? then [items[0].s] else []) + Strings(items[1..])
  }

  function NamesOf(stage: Json): seq<string> {
    if At(stage, "names").Arr? then Strings(At(stage, "names").items) else []
  }

  /** The names the marked stages own. */
  function Owned(pipeline: seq<Json>): seq<string> {
    if pipeline == [] then [] else (if Marked(pipeline[0]) then NamesOf(pipeline[0]) else []) + Owned(pipeline[1..])
  }

  function Foreign(pipeline: seq<Json>): seq<Json> {
    if pipeline == [] then [] else (if Marked(pipeline[0]) then [] else [pipeline[0]]) + Foreign(pipeline[1..])
  }

  predicate Reserved(name: string) { RESERVED <= name }

  predicate UsesReserved(pipeline: seq<Json>) {
    exists i | 0 <= i < |pipeline| :: exists name | name in NamesOf(pipeline[i]) :: Reserved(name)
  }

  function BandName(i: nat): string { "musicata_band_" + Decimal.ToString(i) }

  function KindOf(kind: string): Option<string> {
    if kind == "peaking" then Some("Peaking") else if kind == "lowshelf" then Some("Lowshelf")
    else if kind == "highshelf" then Some("Highshelf") else None
  }

  function Gain(db: real): Json {
    Obj(map["type" := Str("Gain"), "parameters" := Obj(map["gain" := Num(Float(db))])])
  }

  /** Shelves get Q one over the square root of two, the fixed slope of Web Audio. */
  function BandFilter(b: Equaliser.Band, rootHalf: real): Json {
    var q := if b.kind == "peaking" then b.q else rootHalf;
    Obj(map["type" := Str("Biquad"),
            "parameters" := Obj(map["type" := Str(KindOf(b.kind).GetOr("")), "freq" := Num(Float(b.freq)),
                "gain" := Num(Float(b.gain)), "q" := Num(Float(q))])])
  }

  function Preamp(p: Option<Equaliser.Profile>): real { if p.Some? then p.value.preampDb else 0.0 }

  /** The generated filters for the first `n` bands. */
  function NewFilters(db: real, bands: seq<Equaliser.Band>, rootHalf: real): map<string, Json> {
    if bands == [] then map[PREAMP := Gain(db)]
    else
      var n := |bands| - 1;
      NewFilters(db, bands[..n], rootHalf)[BandName(n) := BandFilter(bands[n], rootHalf)]
  }

  function NewNames(n: nat): (r: seq<string>)
    ensures |r| == n + 1
  {
    if n == 0 then [PREAMP] else NewNames(n - 1) + [BandName(n - 1)]
  }

  function StrArray(names: seq<string>): seq<Json> { seq(|names|, i requires 0 <= i < |names| => Str(names[i])) }

  function NewStage(n: nat): Json {
    Obj(map["type" := Str("Filter"), "channels" := Arr([Num(Integer(0)), Num(Integer(1))]),
            "names" := Arr(StrArray(NewNames(n))), "description" := Str(STAGE)])
  }

  function CandidateFilters(filters: map<string, Json>, owned: seq<string>,
        added: map<string, Json>): map<string, Json> {
    Without(filters, owned) + added
  }

  function PatchFilters(owned: seq<string>, added: map<string, Json>): map<string, Json> {
    added + Removals(owned, added)
  }

  datatype PatchError = NoSampleRate | NotStereo | BadProfile(error: Equaliser.ProfileError) | NoPipeline
      | ReservedInUse | NoFilterMap

  /** Why no patch is made; nothing is changed then. */
  function PatchRefusal(active: Json, profile: Option<Equaliser.Profile>): Option<PatchError> {
    var rate := AsU64(At(At(active, "devices"), "samplerate"));
    if rate == None then Some(NoSampleRate)
    else if AsU64(At(At(At(active, "devices"), "playback"), "channels")) != Some(2) then Some(NotStereo)
    else if profile.Some? && Equaliser.Refusal(profile.value, rate.value % U32).Some? then
      Some(BadProfile(Equaliser.Refusal(profile.value, rate.value % U32).value))
    else if !At(active, "pipeline").Arr? then Some(NoPipeline)
    else if UsesReserved(Foreign(At(active, "pipeline").items)) then Some(ReservedInUse)
    else if !At(active, "filters").Obj? then Some(NoFilterMap)
    else None
  }

  function NewPipeline(active: Json, profile: Option<Equaliser.Profile>): seq<Json>
    requires PatchRefusal(active, profile) == None
  {
    Foreign(At(active, "pipeline").items) + [NewStage(|Equaliser.Bands(profile)|)]
  }

  /** What the whole configuration should become. */
  function Candidate(active: Json, profile: Option<Equaliser.Profile>, rootHalf: real): Json
    requires PatchRefusal(active, profile) == None
  {
    var filters := CandidateFilters(At(active, "filters").members, Owned(At(active, "pipeline").items),
        NewFilters(Preamp(profile), Equaliser.Bands(profile), rootHalf));
    Obj(active.members["pipeline" := Arr(NewPipeline(active, profile))]["filters" := Obj(filters)])
  }

  function Patch(active: Json, profile: Option<Equaliser.Profile>, rootHalf: real): Json
    requires PatchRefusal(active, profile) == None
  {
    var filters := PatchFilters(Owned(At(active, "pipeline").items),
        NewFilters(Preamp(profile), Equaliser.Bands(profile), rootHalf));
    Obj(map["filters" := Obj(filters), "pipeline" := Arr(NewPipeline(active, profile))])
  }

  lemma {:induction false} SupportedBands(bands: seq<Equaliser.Band>, i: nat)
    requires Equaliser.BandsError(bands) == None && i < |bands|
    ensures KindOf(bands[i].kind).Some?
  {
    if i > 0 { SupportedBands(bands[1..], i - 1); }
  }

  /** The generated filters and names, band by band; a profile that can be played has no other kinds. */
  method GenerateFilters(profile: Option<Equaliser.Profile>, rootHalf: real) returns (filters: map<string, Json>,
        names: seq<string>)
    requires Equaliser.BandsError(Equaliser.Bands(profile)) == None
    ensures filters == NewFilters(Preamp(profile), Equaliser.Bands(profile), rootHalf) &&
              names == NewNames(|Equaliser.Bands(profile)|)
  {
    filters := map[PREAMP := Gain(if profile.Some? then profile.value.preampDb else 0.0)];
    names := [PREAMP];
    var bands := Equaliser.Bands(profile);
    assert bands[..0] == [];
    for index := 0 to |bands|
      invariant filters == NewFilters(Preamp(profile), bands[..index], rootHalf) && names == NewNames(index)
    {
      var name := "musicata_band_" + Decimal.ToString(index);
      var band := bands[index];
      SupportedBands(bands, index);
      var kind := KindOf(band.kind).value;
      var q := if band.kind == "peaking" then band.q else rootHalf;
      filters := filters[name := Obj(map["type" := Str("Biquad"),
        "parameters" := Obj(map["type" := Str(kind), "freq" := Num(Float(band.freq)), "gain" := Num(Float(band.gain)),
            "q" := Num(Float(q))])])];
      names := names + [name];
      assert bands[..index + 1][..index] == bands[..index];
    }
    assert bands[..|bands|] == bands;
  }

  function Without(filters: map<string, Json>, owned: seq<string>): map<string, Json> {
    filters - (set name | name in owned)
  }

  function Removals(owned: seq<string>, added: map<string, Json>): map<string, Json> {
    map name | name in owned && name !in added :: Null
  }

  lemma OneMoreOwned(filters: map<string, Json>, owned: seq<string>, name: string, added: map<string, Json>)
    ensures Without(filters, owned) - {name} == Without(filters, owned + [name])
    ensures added + Removals(owned + [name], added) == if name in added then added + Removals(owned, added)
                                                         else (added + Removals(owned, added))[name := Null]
  {
  }

  /** Owned filters are removed from the map, and the patch removes those not generated again. */
  method RemoveOwned(existing: map<string, Json>, owned: seq<string>,
        added: map<string, Json>) returns (filters: map<string, Json>, patch: map<string, Json>)
    ensures filters == Without(existing, owned) && patch == PatchFilters(owned, added)
  {
    filters, patch := existing, added;
    assert Removals([], added) == map[];
    for i := 0 to |owned|
      invariant filters == Without(existing, owned[..i]) && patch == added + Removals(owned[..i], added)
    {
      OneMoreOwned(existing, owned[..i], owned[i], added);
      assert owned[..i + 1] == owned[..i] + [owned[i]];
      filters := filters - {owned[i]};
      if owned[i] !in added { patch := patch[owned[i] := Null]; }
    }
    assert owned[..|owned|] == owned;
  }

  lemma OneMoreAdded(kept: map<string, Json>, added: map<string, Json>, left: set<string>, name: string)
    requires name in left && left <= added.Keys
    ensures (kept + (added - left))[name := added[name]] == kept + (added - (left - {name}))
  {
  }

  method InsertAll(kept: map<string, Json>, added: map<string, Json>) returns (filters: map<string, Json>)
    ensures filters == kept + added
  {
    filters := kept;
    var left := added.Keys;
    NoneAdded(kept, added);
    while left != {}
      invariant left <= added.Keys
      invariant filters == kept + (added - left)
      decreases |left|
    {
      var name :| name in left;
      OneMoreAdded(kept, added, left, name);
      filters := filters[name := added[name]];
      left := left - {name};
    }
    assert added - {} == added;
  }

  lemma NoneAdded(kept: map<string, Json>, added: map<string, Json>)
    ensures kept + (added - added.Keys) == kept
  {
    assert added - added.Keys == map[];
  }

  method BuildPatch(active: Json, profile: Option<Equaliser.Profile>,
        rootHalf: real) returns (r: Result<(Json, Json), PatchError>)
    ensures PatchRefusal(active, profile).Some? ==> r == Err(PatchRefusal(active, profile).value)
    ensures PatchRefusal(active, profile) == None ==>
              r == Ok((Candidate(active, profile, rootHalf), Patch(active, profile, rootHalf)))
  {
    var rate := AsU64(At(At(active, "devices"), "samplerate"));
    if rate == None { return Err(NoSampleRate); }
    if AsU64(At(At(At(active, "devices"), "playback"), "channels")) != Some(2) { return Err(NotStereo); }
    if profile.Some? {
      var refusal := Equaliser.Refusal(profile.value, rate.value % U32);
      if refusal.Some? { return Err(BadProfile(refusal.value)); }
    }
    var candidate := active.members;
    if !At(active, "pipeline").Arr? { return Err(NoPipeline); }
    var pipeline := At(active, "pipeline").items;
    var removed := Owned(pipeline);
    pipeline := Foreign(pipeline);
    if UsesReserved(pipeline) { return Err(ReservedInUse); }
    if !At(active, "filters").Obj? { return Err(NoFilterMap); }
    var added, names := GenerateFilters(profile, rootHalf);
    pipeline := pipeline + [Obj(map["type" := Str("Filter"), "channels" := Arr([Num(Integer(0)), Num(Integer(1))]),
      "names" := Arr(StrArray(names)), "description" := Str(STAGE)])];
    candidate := candidate["pipeline" := Arr(pipeline)];
    var filters, patch := RemoveOwned(At(active, "filters").members, removed, added);
    filters := InsertAll(filters, added);
    candidate := candidate["filters" := Obj(filters)];
    return Ok((Obj(candidate), Obj(map["filters" := Obj(patch), "pipeline" := Arr(pipeline)])));
  }

  // ---- What the candidate is --------------------------------------------------------

  ghost predicate IsNewName(n: nat, name: string) { name == PREAMP || exists i :: 0 <= i < n && name == BandName(i) }

  lemma {:induction false} NamesAreNew(n: nat)
    ensures forall name :: name in NewNames(n) <==> IsNewName(n, name)
    ensures forall name :: name in NewNames(n) ==> Reserved(name)
  {
    if n == 0 {
      assert PREAMP[..9] == RESERVED;
    } else {
      NamesAreNew(n - 1);
      BandNameReserved(n - 1);
      forall name ensures name in NewNames(n) <==> IsNewName(n, name) {
        assert name in NewNames(n) <==> name in NewNames(n - 1) || name == BandName(n - 1);
        assert IsNewName(n, name) <==> IsNewName(n - 1, name) || name == BandName(n - 1);
      }
    }
  }

  lemma BandNameReserved(i: nat)
    ensures Reserved(BandName(i))
  {
    assert BandName(i)[..9] == RESERVED;
  }

  lemma BandNamesDiffer(i: nat, j: nat)
    ensures BandName(i) == BandName(j) ==> i == j
    ensures BandName(i) != PREAMP
  {
    assert BandName(i)[9] == 'b' && PREAMP[9] == 'p';
    if BandName(i) == BandName(j) {
      assert BandName(i)[14..] == Decimal.ToString(i) && BandName(j)[14..] == Decimal.ToString(j);
      Decimal.Injective(i, j);
    }
  }

  lemma {:induction false} NewFilterNames(db: real, bands: seq<Equaliser.Band>, rootHalf: real)
    ensures forall name :: name in NewFilters(db, bands, rootHalf) <==> name in NewNames(|bands|)
    ensures |NewFilters(db, bands, rootHalf)| == |bands| + 1
  {
    if bands != [] {
      var n := |bands| - 1;
      var before := NewFilters(db, bands[..n], rootHalf);
      NewFilterNames(db, bands[..n], rootHalf);
      NamesAreNew(n);
      forall i | 0 <= i < n ensures BandName(i) != BandName(n) { BandNamesDiffer(i, n); }
      BandNamesDiffer(n, n);
      assert BandName(n) !in before;
      assert NewFilters(db, bands, rootHalf).Keys == before.Keys + {BandName(n)};
    }
  }

  /** The generated filters are the gain and one filter a band, each under its own name. */
  lemma {:induction false} NewFiltersMeaning(db: real, bands: seq<Equaliser.Band>, rootHalf: real)
    ensures var filters := NewFilters(db, bands, rootHalf);
            && |filters| == |bands| + 1
            && PREAMP in filters && filters[PREAMP] == Gain(db)
            && forall i :: 0 <= i < |bands| ==>
                 BandName(i) in filters && filters[BandName(i)] == BandFilter(bands[i], rootHalf)
  {
    NewFilterNames(db, bands, rootHalf);
    if bands != [] {
      var n := |bands| - 1;
      NewFiltersMeaning(db, bands[..n], rootHalf);
      BandNamesDiffer(n, n);
      var filters := NewFilters(db, bands, rootHalf);
      forall i | 0 <= i < |bands|
        ensures BandName(i) in filters && filters[BandName(i)] == BandFilter(bands[i], rootHalf)
      {
        BandNamesDiffer(i, n);
        if i < n { assert bands[..n][i] == bands[i]; }
      }
    }
  }

  lemma {:induction false} OwnedAndForeign(pipeline: seq<Json>, stage: Json)
    requires Marked(stage)
    ensures Foreign(Foreign(pipeline) + [stage]) == Foreign(pipeline)
    ensures Owned(Foreign(pipeline) + [stage]) == NamesOf(stage)
    ensures forall s :: s in Foreign(pipeline) <==> s in pipeline && !Marked(s)
  {
    if pipeline == [] {
      assert [] + [stage] == [stage];
      assert Owned([stage]) == NamesOf(stage) + Owned([]);
      assert Foreign([stage]) == [] + Foreign([]);
    } else {
      OwnedAndForeign(pipeline[1..], stage);
      assert pipeline == [pipeline[0]] + pipeline[1..];
      if !Marked(pipeline[0]) {
        var rest := Foreign(pipeline[1..]) + [stage];
        assert Foreign(pipeline) + [stage] == [pipeline[0]] + rest;
        assert ([pipeline[0]] + rest)[1..] == rest;
        assert Foreign([pipeline[0]] + rest) == [pipeline[0]] + Foreign(rest);
      } else {
        assert Foreign(pipeline) == Foreign(pipeline[1..]);
      }
    }
  }

  lemma {:induction false} StringsOf(names: seq<string>)
    ensures Strings(StrArray(names)) == names
  {
    if names != [] {
      StringsOf(names[1..]);
      assert StrArray(names)[1..] == StrArray(names[1..]);
      assert names == [names[0]] + names[1..];
    }
  }

  lemma NewStageNames(n: nat)
    ensures Marked(NewStage(n)) && NamesOf(NewStage(n)) == NewNames(n)
  {
    StringsOf(NewNames(n));
  }

  lemma {:induction false} NamesInOrder(n: nat)
    ensures NewNames(n)[0] == PREAMP && forall i :: 0 <= i < n ==> NewNames(n)[i + 1] == BandName(i)
  {
    if n > 0 { NamesInOrder(n - 1); }
  }

  /** The stages of others in their order, then one marked stage, on both channels, that runs the gain
      and then `n` bands in the order of the profile. */
  ghost predicate RunsProfile(stages: seq<Json>, others: seq<Json>, n: nat) {
    && |stages| > 0
    && var last := stages[|stages| - 1];
       && stages[..|stages| - 1] == others == Foreign(stages)
       && Marked(last) && At(last, "channels") == Arr([Num(Integer(0)), Num(Integer(1))])
       && |NamesOf(last)| == n + 1 && NamesOf(last)[0] == PREAMP && forall i :: 0 <= i < n ==>
                                                                      NamesOf(last)[i + 1] == BandName(i)
  }

  lemma NewStageLast(pipeline: seq<Json>, n: nat)
    ensures RunsProfile(Foreign(pipeline) + [NewStage(n)], Foreign(pipeline), n)
  {
    NewStageNames(n);
    NamesInOrder(n);
    OwnedAndForeign(pipeline, NewStage(n));
    var stages := Foreign(pipeline) + [NewStage(n)];
    assert stages[..|stages| - 1] == Foreign(pipeline);
  }

  lemma CandidatePipeline(active: Json, profile: Option<Equaliser.Profile>, rootHalf: real)
    requires PatchRefusal(active, profile) == None
    ensures At(Candidate(active, profile, rootHalf), "pipeline").Arr?
    ensures RunsProfile(At(Candidate(active, profile, rootHalf), "pipeline").items,
              Foreign(At(active, "pipeline").items), |Equaliser.Bands(profile)|)
  {
    assert At(Candidate(active, profile, rootHalf), "pipeline") == Arr(NewPipeline(active, profile));
    NewStageLast(At(active, "pipeline").items, |Equaliser.Bands(profile)|);
  }

  // ---- The patch achieves the candidate ---------------------------------------------

  lemma {:induction false} GeneratedAdds(db: real, bands: seq<Equaliser.Band>, rootHalf: real)
    ensures forall name :: name in NewFilters(db, bands, rootHalf) ==> Adds(NewFilters(db, bands, rootHalf)[name])
  {
    var filters := NewFilters(db, bands, rootHalf);
    NewFiltersMeaning(db, bands, rootHalf);
    NewFilterNames(db, bands, rootHalf);
    NamesAreNew(|bands|);
    GainAdds(db);
    forall name | name in filters ensures Adds(filters[name]) {
      if name != PREAMP {
        var i :| 0 <= i < |bands| && name == BandName(i);
        BandAdds(bands[i], rootHalf);
      }
    }
  }

  lemma GainAdds(db: real)
    ensures Adds(Gain(db))
  {
    var parameters := Gain(db).members["parameters"];
    assert Adds(parameters);
  }

  lemma BandAdds(b: Equaliser.Band, rootHalf: real)
    ensures Adds(BandFilter(b, rootHalf))
  {
    var parameters := BandFilter(b, rootHalf).members["parameters"];
    assert Adds(parameters);
  }

  /** Merging the filter patch gives the candidate's names, each with the candidate's filter in it. */
  lemma FiltersConfirmed(filters: map<string, Json>, owned: seq<string>, added: map<string, Json>)
    requires forall name :: name in added ==> Adds(added[name])
    ensures var merged := Merge(Obj(filters), Obj(PatchFilters(owned, added)));
            && merged.Obj? && merged.members.Keys == CandidateFilters(filters, owned, added).Keys
            && Matches(merged, Obj(CandidateFilters(filters, owned, added)))
            && forall name :: name in merged.members && name !in added ==>
                 name in filters && merged.members[name] == filters[name]
  {
    var patch, candidate := PatchFilters(owned, added), CandidateFilters(filters, owned, added);
    var merged := Merge(Obj(filters), Obj(patch));
    forall name ensures name in merged.members <==> name in candidate {
      if name in added { assert Adds(added[name]); }
    }
    forall name | name in candidate ensures Matches(merged.members[name], candidate[name]) {
      if name in added {
        MergedMatches(if name in filters then filters[name] else Null, added[name]);
      } else {
        MatchesItself(filters[name]);
      }
    }
  }

  ghost function Patched(active: Json, profile: Option<Equaliser.Profile>, rootHalf: real): Json
    requires PatchRefusal(active, profile) == None
  {
    Merge(active, Patch(active, profile, rootHalf))
  }

  lemma MergedMember(target: Json, patch: Json, key: string)
    requires target.Obj? && patch.Obj? && key in patch.members && patch.members[key] != Null
    ensures At(Merge(target, patch), key) == Merge(At(target, key), patch.members[key])
  {
  }

  lemma PatchedMembers(active: Json, profile: Option<Equaliser.Profile>, rootHalf: real)
    requires PatchRefusal(active, profile) == None
    ensures var actual, patch := Patched(active, profile, rootHalf), Patch(active, profile, rootHalf);
            && active.Obj? && actual.Obj?
            && At(actual, "pipeline") == Arr(NewPipeline(active, profile))
            && At(actual, "filters") == Merge(At(active, "filters"), At(patch, "filters"))
            && actual.members.Keys == active.members.Keys
            && forall key :: key in active.members && key != "pipeline" && key != "filters" ==>
                 actual.members[key] == active.members[key]
  {
    var patch := Patch(active, profile, rootHalf);
    assert patch.members.Keys == {"filters", "pipeline"};
    MergedMember(active, patch, "pipeline");
    MergedMember(active, patch, "filters");
  }

  /** The candidate's names and filters, the filters not generated being those there before. */
  ghost predicate FiltersShown(actual: Json, candidate: Json, was: Json, added: map<string, Json>) {
    && actual.Obj? && candidate.Obj? && was.Obj? && actual.members.Keys == candidate.members.Keys
    && Matches(actual, candidate) && Size(actual) == Size(candidate)
    && forall name :: name in actual.members && name !in added ==>
         name in was.members && actual.members[name] == was.members[name]
  }

  /** The filters a merging processor ends up with. */
  lemma PatchedFilters(active: Json, profile: Option<Equaliser.Profile>, rootHalf: real)
    requires PatchRefusal(active, profile) == None
    ensures FiltersShown(At(Patched(active, profile, rootHalf), "filters"),
              At(Candidate(active, profile, rootHalf), "filters"),
                         At(active, "filters"), NewFilters(Preamp(profile), Equaliser.Bands(profile), rootHalf))
  {
    PatchedMembers(active, profile, rootHalf);
    GeneratedAdds(Preamp(profile), Equaliser.Bands(profile), rootHalf);
    FiltersConfirmed(At(active, "filters").members, Owned(At(active, "pipeline").items),
        NewFilters(Preamp(profile), Equaliser.Bands(profile), rootHalf));
    SameKeysSameSize(At(Patched(active, profile, rootHalf), "filters"),
        At(Candidate(active, profile, rootHalf), "filters"));
  }

  lemma SameKeysSameSize(a: Json, b: Json)
    requires a.Obj? && b.Obj? && a.members.Keys == b.members.Keys
    ensures Size(a) == Size(b)
  {
    assert |a.members| == |a.members.Keys| == |b.members.Keys| == |b.members|;
  }

  lemma PatchedPipeline(active: Json, profile: Option<Equaliser.Profile>, rootHalf: real)
    requires PatchRefusal(active, profile) == None
    ensures var actual := At(Patched(active, profile, rootHalf), "pipeline");
            && actual == At(Candidate(active, profile, rootHalf), "pipeline") && actual.Arr?
            && Foreign(actual.items) == Foreign(At(active, "pipeline").items)
            && Owned(actual.items) == NewNames(|Equaliser.Bands(profile)|)
  {
    PatchedMembers(active, profile, rootHalf);
    NewStageNames(|Equaliser.Bands(profile)|);
    OwnedAndForeign(At(active, "pipeline").items, NewStage(|Equaliser.Bands(profile)|));
  }

  /** The devices and every stage of others, in order, are what they were. */
  ghost predicate OthersUntouched(active: Json, actual: Json) {
    && At(actual, "devices") == At(active, "devices")
    && At(actual, "pipeline").Arr? && At(active, "pipeline").Arr?
    && Foreign(At(actual, "pipeline").items) == Foreign(At(active, "pipeline").items)
  }

  /** A processor that merges the patch passes the confirmation test: the requested pipeline, filters and
      filter count are there, and its devices and every stage of others, in order, are what they were. */
  lemma PatchIsConfirmed(active: Json, profile: Option<Equaliser.Profile>, rootHalf: real)
    requires PatchRefusal(active, profile) == None
    ensures Confirms(Patched(active, profile, rootHalf), Candidate(active, profile, rootHalf))
    ensures OthersUntouched(active, Patched(active, profile, rootHalf))
  {
    var actual, candidate := Patched(active, profile, rootHalf), Candidate(active, profile, rootHalf);
    assert At(actual, "devices") == At(active, "devices") by { PatchedMembers(active, profile, rootHalf); }
    PatchedPipeline(active, profile, rootHalf);
    MatchesItself(At(actual, "pipeline"));
    ConfirmedParts(actual, candidate) by { PatchedFilters(active, profile, rootHalf); }
  }

  lemma ConfirmedParts(actual: Json, candidate: Json)
    requires Matches(At(actual, "pipeline"), At(candidate, "pipeline"))
    requires Matches(At(actual, "filters"), At(candidate, "filters"))
    requires Size(At(actual, "filters")) == Size(At(candidate, "filters"))
    ensures Confirms(actual, candidate)
  {
  }

  // ---- Correcting twice -------------------------------------------------------------

  /** A generated name that was there before belongs to the marked stage, or is generated again. */
  ghost predicate Covered(active: Json, first: Option<Equaliser.Profile>, last: Option<Equaliser.Profile>)
    requires PatchRefusal(active, first) == None
  {
    forall name :: name in NewNames(|Equaliser.Bands(first)|) && name in At(active, "filters").members ==>
                     name in Owned(At(active, "pipeline").items) || name in NewNames(|Equaliser.Bands(last)|)
  }

  lemma RefusalUnchanged(active: Json, first: Option<Equaliser.Profile>, last: Option<Equaliser.Profile>,
        rootHalf: real)
    requires PatchRefusal(active, first) == None
    ensures PatchRefusal(Patched(active, first, rootHalf), last) == PatchRefusal(active, last)
  {
    var between := Patched(active, first, rootHalf);
    assert At(between, "devices") == At(active, "devices") by { PatchedMembers(active, first, rootHalf); }
    assert At(between, "filters").Obj? by { PatchedFilters(active, first, rootHalf); }
    PatchedPipeline(active, first, rootHalf);
    SameRefusal(active, between, last);
  }

  lemma SameRefusal(a: Json, b: Json, profile: Option<Equaliser.Profile>)
    requires At(a, "devices") == At(b, "devices") && At(a, "filters").Obj? && At(b, "filters").Obj?
    requires At(a, "pipeline").Arr? && At(b, "pipeline").Arr?
    requires Foreign(At(a, "pipeline").items) == Foreign(At(b, "pipeline").items)
    ensures PatchRefusal(a, profile) == PatchRefusal(b, profile)
  {
  }

  lemma CandidateAt(active: Json, profile: Option<Equaliser.Profile>, rootHalf: real)
    requires PatchRefusal(active, profile) == None
    ensures At(Candidate(active, profile, rootHalf), "filters") ==
            Obj(CandidateFilters(At(active, "filters").members, Owned(At(active, "pipeline").items),
                NewFilters(Preamp(profile), Equaliser.Bands(profile), rootHalf)))
  {
  }

  lemma FiltersDecide(active: Json, first: Option<Equaliser.Profile>, last: Option<Equaliser.Profile>, rootHalf: real)
    requires PatchRefusal(active, first) == None && PatchRefusal(active, last) == None
    requires PatchRefusal(Patched(active, first, rootHalf), last) == None
    ensures At(Candidate(Patched(active, first, rootHalf), last, rootHalf), "filters") ==
              At(Candidate(active, last, rootHalf), "filters")
            <==> Covered(active, first, last)
  {
    var filters, owned := At(active, "filters").members, Owned(At(active, "pipeline").items);
    var added, again := NewFilters(Preamp(first), Equaliser.Bands(first), rootHalf),
        NewFilters(Preamp(last), Equaliser.Bands(last), rootHalf);
    var between, names := Patched(active, first, rootHalf), NewNames(|Equaliser.Bands(first)|);
    var merged := At(between, "filters").members;
    assert Owned(At(between, "pipeline").items) == names by { PatchedPipeline(active, first, rootHalf); }
    CandidateAt(active, last, rootHalf);
    CandidateAt(between, last, rootHalf);
    assert CandidateFilters(merged, names, again) == CandidateFilters(filters, owned, again) <==>
        forall name :: name in names && name in filters ==> name in owned || name in again by {
      PatchedFilters(active, first, rootHalf);
      CandidateAt(active, first, rootHalf);
      NewFilterNames(Preamp(first), Equaliser.Bands(first), rootHalf);
      FiltersTwice(filters, merged, owned, names, added, again);
    }
    NewFilterNames(Preamp(last), Equaliser.Bands(last), rootHalf);
  }

  /** Correcting with one profile and then another asks for the same configuration as correcting with
      the last alone, exactly when no generated filter was already there without an owner. */
  lemma CorrectTwice(active: Json, first: Option<Equaliser.Profile>, last: Option<Equaliser.Profile>, rootHalf: real)
    requires PatchRefusal(active, first) == None && PatchRefusal(active, last) == None
    ensures PatchRefusal(Patched(active, first, rootHalf), last) == None
    ensures Candidate(Patched(active, first, rootHalf), last, rootHalf) == Candidate(active, last, rootHalf) <==>
              Covered(active, first, last)
  {
    RefusalUnchanged(active, first, last, rootHalf);
    FiltersDecide(active, first, last, rootHalf);
    PatchedMembers(active, first, rootHalf);
    PatchedPipeline(active, first, rootHalf);
    SameCandidate(active, Patched(active, first, rootHalf), last, rootHalf);
  }

  lemma FiltersTwice(filters: map<string, Json>, merged: map<string, Json>, owned: seq<string>, names: seq<string>,
        added: map<string, Json>, again: map<string, Json>)
    requires forall name :: name in names <==> name in added
    requires merged.Keys == CandidateFilters(filters, owned, added).Keys
    requires forall name :: name in merged && name !in added ==> name in filters && merged[name] == filters[name]
    ensures CandidateFilters(merged, names, again) == CandidateFilters(filters, owned, again) <==>
              forall name :: name in names && name in filters ==> name in owned || name in again
  {
    var a, b := CandidateFilters(merged, names, again), CandidateFilters(filters, owned, again);
    if forall name :: name in names && name in filters ==> name in owned || name in again {
      forall name ensures name in a <==> name in b {}
      forall name | name in a ensures a[name] == b[name] {}
    }
    if a == b {
      forall name | name in names && name in filters ensures name in owned || name in again {
        assert name in a <==> name in b;
      }
    }
  }

  lemma SameCandidate(active: Json, between: Json, last: Option<Equaliser.Profile>, rootHalf: real)
    requires PatchRefusal(active, last) == None && PatchRefusal(between, last) == None
    requires Foreign(At(between, "pipeline").items) == Foreign(At(active, "pipeline").items)
    requires active.Obj? && between.Obj? && between.members.Keys == active.members.Keys
    requires forall key :: key in active.members && key != "pipeline" && key != "filters" ==>
               between.members[key] == active.members[key]
    ensures Candidate(between, last, rootHalf) == Candidate(active, last, rootHalf) <==>
              At(Candidate(between, last, rootHalf), "filters") == At(Candidate(active, last, rootHalf), "filters")
  {
    var a, b := Candidate(between, last, rootHalf), Candidate(active, last, rootHalf);
    if At(a, "filters") == At(b, "filters") {
      assert a.members == b.members;
    }
  }

  /** In particular when every reserved filter is owned by the marked stage, whatever the two profiles are. */
  lemma OwnedReservedIsEnough(active: Json, first: Option<Equaliser.Profile>, last: Option<Equaliser.Profile>,
        rootHalf: real)
    requires PatchRefusal(active, first) == None && PatchRefusal(active, last) == None
    requires forall name :: name in At(active, "filters").members && Reserved(name) ==>
               name in Owned(At(active, "pipeline").items)
    ensures PatchRefusal(Patched(active, first, rootHalf), last) == None
    ensures Candidate(Patched(active, first, rootHalf), last, rootHalf) == Candidate(active, last, rootHalf)
  {
    NamesAreNew(|Equaliser.Bands(first)|);
    CorrectTwice(active, first, last, rootHalf);
  }

  const THEIRS: Json := Str("theirs")

  const ONE_BAND: Equaliser.Profile :=
    Equaliser.Profile("p", "p", 0.0, [Equaliser.Band("peaking", 1000.0, 3.0, 1.0)], None, None)

  /** A stereo configuration with the given stages and one filter. */
  function Active(stages: seq<Json>, name: string): Json {
    Obj(map["devices" := Obj(map["samplerate" := Num(Integer(48000)),
        "playback" := Obj(map["channels" := Num(Integer(2))])]),
            "pipeline" := Arr(stages), "filters" := Obj(map[name := THEIRS])])
  }

  lemma UnusedAccepted()
    ensures PatchRefusal(Active([], BandName(0)), Some(ONE_BAND)) == None
    ensures PatchRefusal(Active([], BandName(0)), None) == None
  {
    assert 'p' in "p" && !IsWhitespace('p');
    assert ONE_BAND.bands[1..] == [];
  }

  /** A reserved filter that no stage uses is replaced by a first correction. */
  lemma UnusedIsReplaced(rootHalf: real)
    ensures PatchRefusal(Active([], BandName(0)), Some(ONE_BAND)) == None
    ensures At(At(Candidate(Active([], BandName(0)), Some(ONE_BAND), rootHalf), "filters"), BandName(0))
         == BandFilter(ONE_BAND.bands[0], rootHalf) != THEIRS
  {
    UnusedAccepted();
    CandidateAt(Active([], BandName(0)), Some(ONE_BAND), rootHalf);
    NewFiltersMeaning(0.0, ONE_BAND.bands, rootHalf);
  }

  lemma NoBandKeeps(active: Json, rootHalf: real)
    requires PatchRefusal(active, None) == None && At(At(active, "filters"), BandName(0)) == THEIRS
    ensures At(At(Candidate(active, None, rootHalf), "filters"), BandName(0)) ==
              if BandName(0) in Owned(At(active, "pipeline").items) then Null else THEIRS
  {
    CandidateAt(active, None, rootHalf);
    NewFilterNames(0.0, [], rootHalf);
    BandNamesDiffer(0, 0);
  }

  /** And a second correction then removes what it alone would have kept. */
  lemma UnusedReservedFilter(rootHalf: real)
    ensures var active, first := Active([], BandName(0)), Some(ONE_BAND);
            && PatchRefusal(active, first) == None && PatchRefusal(active, None) == None
            && PatchRefusal(Patched(active, first, rootHalf), None) == None
            && At(At(Candidate(active, None, rootHalf), "filters"), BandName(0)) == THEIRS
            && Candidate(Patched(active, first, rootHalf), None, rootHalf) != Candidate(active, None, rootHalf)
  {
    UnusedAccepted();
    var active, first := Active([], BandName(0)), Some(ONE_BAND);
    NoBandKeeps(active, rootHalf);
    CorrectTwice(active, first, None, rootHalf);
    NotCovered(active);
  }

  lemma NotCovered(active: Json)
    requires active == Active([], BandName(0)) && PatchRefusal(active, Some(ONE_BAND)) == None
    ensures !Covered(active, Some(ONE_BAND), None)
  {
    NamesInOrder(1);
    BandNamesDiffer(0, 0);
    assert NewNames(1)[1] in NewNames(1) && BandName(0) in At(active, "filters").members;
  }

  // ---- The filters other stages use -------------------------------------------------

  lemma {:induction false} ForeignUnreserved(pipeline: seq<Json>, stage: Json, name: string)
    requires !UsesReserved(pipeline) && stage in pipeline && name in NamesOf(stage)
    ensures !Reserved(name)
  {
    var i :| 0 <= i < |pipeline| && pipeline[i] == stage;
    assert name in NamesOf(pipeline[i]);
  }

  ghost predicate KeptUnless(gone: bool, name: string, was: Json, now: Json) {
    && was.Obj? && name in was.members && now.Obj?
    && if gone then name !in now.members else name in now.members && now.members[name] == was.members[name]
  }

  /** A filter that a stage of others names is untouched exactly when no marked stage names it too. */
  lemma ForeignFilter(active: Json, profile: Option<Equaliser.Profile>, rootHalf: real, stage: Json, name: string)
    requires PatchRefusal(active, profile) == None
    requires stage in Foreign(At(active, "pipeline").items) && name in NamesOf(stage)
    requires name in At(active, "filters").members
    ensures KeptUnless(name in Owned(At(active, "pipeline").items), name, At(active, "filters"),
                       At(Candidate(active, profile, rootHalf), "filters"))
    ensures KeptUnless(name in Owned(At(active, "pipeline").items), name, At(active, "filters"),
                       At(Patched(active, profile, rootHalf), "filters"))
  {
    var n := |Equaliser.Bands(profile)|;
    ForeignUnreserved(Foreign(At(active, "pipeline").items), stage, name);
    NamesAreNew(n);
    NewFilterNames(Preamp(profile), Equaliser.Bands(profile), rootHalf);
    CandidateAt(active, profile, rootHalf);
    PatchedFilters(active, profile, rootHalf);
  }

  function Using(name: string, description: string): Json {
    Obj(map["names" := Arr([Str(name)]), "description" := Str(description)])
  }

  /** A filter named both by the marked stage and by another is removed, and the other stage stays. */
  lemma SharedFilterIsRemoved(rootHalf: real)
    ensures var active := Active([Using("room", "mine"), Using("room", STAGE)], "room");
            && PatchRefusal(active, None) == None
            && "room" !in At(Candidate(active, None, rootHalf), "filters").members
            && Using("room", "mine") in At(Candidate(active, None, rootHalf), "pipeline").items
  {
    var mine, marked := Using("room", "mine"), Using("room", STAGE);
    var active := Active([mine, marked], "room");
    assert !Marked(mine) && Marked(marked) && NamesOf(mine) == ["room"] && NamesOf(marked) == ["room"];
    assert [mine, marked][1..] == [marked] && [marked][1..] == [];
    assert Foreign([marked]) == [] && Owned([marked]) == ["room"] + [];
    assert Foreign([mine, marked]) == [mine] + [] && Owned([mine, marked]) == [] + ["room"];
    assert "room"[0] == 'r' && RESERVED[0] == 'm';
    assert PatchRefusal(active, None) == None;
    ForeignFilter(active, None, rootHalf, mine, "room");
  }
}
