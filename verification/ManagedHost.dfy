/** The root worker of a managed player: a journalled change of two files and a service, with
    recovery of an interrupted change before every request. */
module ManagedHost {
  import opened Basics
  import opened PlayerFiles
  import Soundcard

  const UNIT := "/etc/systemd/system/musicata-snapclient.service"
  const CONFIG := "/etc/musicata/player.json"
  const MAX_REVISION := 0xffff_ffff_ffff_ffff

  datatype Status = Idle | Applied | Failed

  datatype Problem = RecoveredChange | UnverifiedRollback | RestoredPrevious | Refused

  datatype Version = Version(unit: Content, config: Content)

  /** The journal record of a change that has been started. */
  datatype Pending = Pending(previous: Version, intended: Version, service: Service)

  datatype HostState = HostState(attempted: nat, applied: nat, status: Status, error: Option<Problem>,
      pending: Option<Pending>)

  datatype Device = Device(id: string, route: string, available: bool)

  /** The digest of the device mapping and the unit it was taken with. */
  datatype InventoryRevision = Unavailable | Inventory(devices: seq<Device>, unit: Digest)

  datatype Snapshot = Snapshot(devices: seq<Device>, supported: bool)

  /** A request; `None` stands for a value of the wrong type or shape. */
  datatype Request =
    | ReadInventory
    | Apply(revision: Option<int>, deviceId: Option<string>, inventory: Option<InventoryRevision>)
    | Unknown

  datatype Exit = Done | RuntimeFailure | ValueFailure | OtherFailure | HostDown

  /** Everything a request can observe or change, and the history the properties speak of:
      the pair installed at each applied revision and the revisions whose files were attempted. */
  datatype Host = Host(
    state: HostState,
    fs: Files,
    service: Service,
    damaged: bool,
    installed: map<nat, Version>,
    attempts: seq<nat>)

  // ---- Pure parts -------------------------------------------------------------------

  predicate HasPair(fs: Files) { UNIT in fs && CONFIG in fs }

  function Pair(fs: Files): Version
    requires HasPair(fs)
  {
    Version(fs[UNIT], fs[CONFIG])
  }

  /** The configuration records this unit's digest and its soundcard. */
  predicate Matching(v: Version) {
    && v.unit.Text? && v.config.Json?
    && v.config.cfg.unitDigest == Some(Digest(v.unit.s))
    && v.config.cfg.output.Some?
    && v.config.cfg.output == Soundcard.Current(v.unit.s)
  }

  /** Not the files a journal record knows: one is missing, or is neither what it was before the
      change nor what the change makes of it. */
  ghost predicate ForeignTo(p: Pending, fs: Files) {
    || UNIT !in fs || CONFIG !in fs
    || fs[UNIT] !in {p.previous.unit, p.intended.unit}
    || fs[CONFIG] !in {p.previous.config, p.intended.config}
  }

  function WithPair(fs: Files, v: Version): Files { fs[UNIT := v.unit][CONFIG := v.config] }

  function Cleared(s: HostState): HostState {
    s.(pending := None, status := Failed, error := Some(RecoveredChange))
  }

  function Unverified(s: HostState): HostState {
    s.(status := Failed, error := Some(UnverifiedRollback))
  }

  function Journalled(s: HostState, revision: nat, p: Pending): HostState {
    HostState(revision, s.applied, Idle, None, Some(p))
  }

  function Committed(s: HostState, revision: nat): HostState {
    HostState(revision, revision, Applied, None, None)
  }

  function Available(devices: seq<Device>, id: string): seq<Device> {
    if devices == [] then []
    else (if devices[0].id == id && devices[0].available then [devices[0]] else []) + Available(devices[1..], id)
  }

  /** The change a selection asks for, or none when the selection has to be refused. */
  function Plan(fs: Files, devices: seq<Device>, request: Request, service: Service): Option<Pending>
    requires HasPair(fs) && fs[UNIT].Text? && fs[CONFIG].Json? && request.Apply?
  {
    var unit, cfg := fs[UNIT].s, fs[CONFIG].cfg;
    if request.deviceId.None? || request.inventory != Some(Inventory(devices, Digest(unit))) then None
    else
      var selected := Available(devices, request.deviceId.value);
      if |selected| != 1 then None
      else
        match Soundcard.SetSoundcard(unit, cfg.output, selected[0].route)
        case None => None
        case Some(next) =>
          var nextCfg := cfg.(output := Some(selected[0].route), unitDigest := Some(Digest(next)));
          Some(Pending(Pair(fs), Version(Text(next), Json(0, nextCfg)), service))
  }

  predicate Valid(revision: Option<int>) {
    revision.Some? && 1 <= revision.value <= MAX_REVISION
  }

  predicate Managed(fs: Files) {
    && HasPair(fs) && fs[UNIT].Text? && fs[CONFIG].Json?
    && fs[CONFIG].cfg.backend == "snapclient"
    && fs[CONFIG].cfg.unitDigest == Some(Digest(fs[UNIT].s))
  }

  predicate Selectable(fs: Files, usb: bool) { Managed(fs) && !usb && !fs[CONFIG].cfg.dsp }

  /** Recovery has nothing to object to. */
  ghost predicate Recoverable(h: Host) {
    h.state.pending.None? || (!ForeignTo(h.state.pending.value, h.fs) && h.state.pending.value.previous.config.Json?)
  }

  /** A planned change keeps unit and configuration matched. */
  lemma PlanMatches(fs: Files, devices: seq<Device>, request: Request, service: Service)
    requires Managed(fs) && request.Apply? && Plan(fs, devices, request, service).Some?
    ensures Matching(Plan(fs, devices, request, service).value.intended)
  {
    var route := Available(devices, request.deviceId.value)[0].route;
    Soundcard.SetSoundcardRoundTrip(fs[UNIT].s, fs[CONFIG].cfg.output, route);
  }

  predicate Chosen(d: Device, id: string) { d.id == id && d.available }

  /** The one available device of an id, as the selection finds it. */
  ghost predicate OnlyChosen(devices: seq<Device>, id: string, i: nat) {
    && i < |devices| && Chosen(devices[i], id) && Available(devices, id) == [devices[i]]
    && forall j :: 0 <= j < |devices| && Chosen(devices[j], id) ==> j == i
  }

  lemma {:induction false} OneAvailable(devices: seq<Device>, id: string)
    ensures |Available(devices, id)| == 0 <==> forall j :: 0 <= j < |devices| ==> !Chosen(devices[j], id)
    ensures |Available(devices, id)| == 1 ==> exists i: nat :: OnlyChosen(devices, id, i)
  {
    if devices != [] {
      var rest := devices[1..];
      OneAvailable(rest, id);
      assert forall j :: 0 <= j < |rest| ==> rest[j] == devices[j + 1];
      assert forall j :: 0 < j < |devices| ==> devices[j] == rest[j - 1];
      if |Available(devices, id)| == 1 {
        if Chosen(devices[0], id) {
          assert OnlyChosen(devices, id, 0);
        } else {
          var i: nat :| OnlyChosen(rest, id, i);
          assert OnlyChosen(devices, id, i + 1);
        }
      }
    }
  }

  /** A planned change is for the one available device of the requested id, in the inventory the
      request was made for: its route becomes the unit's soundcard and the recorded output, and the
      configuration keeps everything else. */
  lemma PlanNamesDevice(fs: Files, devices: seq<Device>, request: Request, service: Service) returns (i: nat)
    requires Managed(fs) && request.Apply? && Plan(fs, devices, request, service).Some?
    ensures i < |devices| && request.deviceId.Some? && Chosen(devices[i], request.deviceId.value)
    ensures forall j :: 0 <= j < |devices| && Chosen(devices[j], request.deviceId.value) ==> j == i
    ensures var p := Plan(fs, devices, request, service).value;
            && p.previous == Pair(fs) && p.service == service &&
                request.inventory == Some(Inventory(devices, Digest(fs[UNIT].s)))
            && p.intended.unit.Text? && Soundcard.Current(p.intended.unit.s) == Some(devices[i].route)
            && p.intended.config.Json?
            && p.intended.config.cfg ==
                fs[CONFIG].cfg.(output := Some(devices[i].route), unitDigest := Some(Digest(p.intended.unit.s)))
  {
    var id := request.deviceId.value;
    OneAvailable(devices, id);
    i :| OnlyChosen(devices, id, i);
    Soundcard.SetSoundcardRoundTrip(fs[UNIT].s, fs[CONFIG].cfg.output, devices[i].route);
  }

  /** The request is for device `j` alone, in the inventory it was made for, and the unit's one
      soundcard value, at `i`, is the recorded output. */
  ghost predicate Selects(unit: string, cfg: Config, devices: seq<Device>, request: Request, j: nat, i: nat) {
    && request.Apply? && request.inventory == Some(Inventory(devices, Digest(unit)))
    && j < |devices| && request.deviceId == Some(devices[j].id) && devices[j].available
    && (forall k :: 0 <= k < |devices| && k != j ==> devices[k].id != devices[j].id || !devices[k].available)
    && (exists card, dev :: Soundcard.RouteOf(devices[j].route, card, dev))
    && cfg.output.Some? && Soundcard.OnlyValue(unit, i, cfg.output.value)
  }

  /** What such a request makes of the two files: the route replaces the value and is recorded. */
  ghost function Rerouted(unit: string, cfg: Config, route: string, i: nat): Version
    requires cfg.output.Some? && i + |cfg.output.value| <= |unit|
  {
    var text := unit[..i] + route + unit[i + |cfg.output.value|..];
    Version(Text(text), Json(0, Config(cfg.backend, cfg.dsp, Some(route), Some(Digest(text)), cfg.rest)))
  }

  lemma SelectsFinds(fs: Files, devices: seq<Device>, request: Request, service: Service, j: nat, i: nat)
    requires HasPair(fs) && fs[UNIT].Text? && fs[CONFIG].Json?
    requires Selects(fs[UNIT].s, fs[CONFIG].cfg, devices, request, j, i)
    ensures Plan(fs, devices, request, service) ==
              Some(Pending(Pair(fs), Rerouted(fs[UNIT].s, fs[CONFIG].cfg, devices[j].route, i), service))
  {
    var id := devices[j].id;
    OneAvailable(devices, id);
    AllAvailable(devices, id, j);
    Soundcard.RouteMeaning(devices[j].route);
    Soundcard.CurrentMeaning(fs[UNIT].s, fs[CONFIG].cfg.output.value);
  }

  /** One available device of an id is what the selection finds. */
  lemma {:induction false} AllAvailable(devices: seq<Device>, id: string, j: nat)
    requires j < |devices| && Chosen(devices[j], id)
    requires forall k :: 0 <= k < |devices| && k != j ==> !Chosen(devices[k], id)
    ensures Available(devices, id) == [devices[j]]
  {
    var rest := devices[1..];
    assert forall k :: 0 <= k < |rest| ==> rest[k] == devices[k + 1];
    if j == 0 { OneAvailable(rest, id); } else { AllAvailable(rest, id, j - 1); }
  }

  /** A plan is made exactly for a request that selects one device, and then it is the one change meant. */
  lemma PlanMeaning(fs: Files, devices: seq<Device>, request: Request, service: Service)
    requires HasPair(fs) && fs[UNIT].Text? && fs[CONFIG].Json? && request.Apply?
    ensures Plan(fs, devices, request, service).Some? <==>
              exists j: nat, i: nat :: Selects(fs[UNIT].s, fs[CONFIG].cfg, devices, request, j, i)
    ensures forall j: nat, i: nat :: Selects(fs[UNIT].s, fs[CONFIG].cfg, devices, request, j, i) ==>
              Plan(fs, devices, request, service) ==
                Some(Pending(Pair(fs), Rerouted(fs[UNIT].s, fs[CONFIG].cfg, devices[j].route, i), service))
  {
    if Plan(fs, devices, request, service).Some? {
      var id := request.deviceId.value;
      OneAvailable(devices, id);
      var j: nat :| OnlyChosen(devices, id, j);
      Soundcard.RouteMeaning(devices[j].route);
      Soundcard.CurrentMeaning(fs[UNIT].s, fs[CONFIG].cfg.output.value);
      var i: nat :| Soundcard.OnlyValue(fs[UNIT].s, i, fs[CONFIG].cfg.output.value);
      OthersUnavailable(devices, id, j);
      assert Selects(fs[UNIT].s, fs[CONFIG].cfg, devices, request, j, i);
    }
    forall j: nat, i: nat | Selects(fs[UNIT].s, fs[CONFIG].cfg, devices, request, j, i)
      ensures Plan(fs, devices, request, service) ==
                Some(Pending(Pair(fs), Rerouted(fs[UNIT].s, fs[CONFIG].cfg, devices[j].route, i), service))
    {
      SelectsFinds(fs, devices, request, service, j, i);
    }
  }

  lemma OthersUnavailable(devices: seq<Device>, id: string, j: nat)
    requires OnlyChosen(devices, id, j)
    ensures forall k :: 0 <= k < |devices| && k != j ==> devices[k].id != devices[j].id || !devices[k].available
  {
    forall k | 0 <= k < |devices| && k != j ensures devices[k].id != devices[j].id || !devices[k].available {
      assert Chosen(devices[k], id) ==> k == j;
    }
  }

  /** The host has a managed Snapclient whose device may be chosen here. */
  ghost predicate OpenToSelection(fs: Files, usb: bool) {
    && UNIT in fs && CONFIG in fs && fs[UNIT].Text? && fs[CONFIG].Json?
    && fs[CONFIG].cfg.backend == "snapclient" && fs[CONFIG].cfg.unitDigest == Some(Digest(fs[UNIT].s))
    && !fs[CONFIG].cfg.dsp && !usb
  }

  /** A new revision that selects device `j` on such a host. */
  ghost predicate Requests(h: Host, devices: seq<Device>, usb: bool, request: Request, j: nat, i: nat) {
    && OpenToSelection(h.fs, usb) && Selects(h.fs[UNIT].s, h.fs[CONFIG].cfg, devices, request, j, i)
    && request.revision.Some? && h.state.attempted < request.revision.value
    && 1 <= request.revision.value <= 0xffff_ffff_ffff_ffff
  }

  // ---- What each operation may do ---------------------------------------------------

  /** Recovery: refuse without touching the files, or put the previous pair back and clear the journal. */
  ghost predicate RecoverSpec(h: Host, h': Host, exit: Exit) {
    && h'.attempts == h.attempts && h'.installed == h.installed
    && match h.state.pending
       case None => h' == h && exit == Done
       case Some(p) =>
         && (h'.fs == h.fs || (!ForeignTo(p, h.fs) &&
             (h'.fs == h.fs[UNIT := p.previous.unit] || h'.fs == WithPair(h.fs, p.previous))))
         && (h'.damaged ==> h.damaged)
         && (h'.damaged != h.damaged ==> h'.fs == WithPair(h.fs, p.previous))
         && h'.state in {h.state, Unverified(h.state), Cleared(h.state)}
         && (h'.state.pending.None? ==>
             !ForeignTo(p, h.fs) && h'.fs == WithPair(h.fs, p.previous) && h'.service == p.service && !h'.damaged)
         && (exit == Done ==> h'.state == Cleared(h.state))
         && (exit == RuntimeFailure ==> h'.state == Unverified(h.state))
         && (exit == OtherFailure ==> h'.state == h.state)
         && exit != ValueFailure
  }

  /** A refusal before anything is touched is recorded under its revision, once. */
  ghost predicate RefuseSpec(h: Host, revision: Option<int>, h': Host) {
    || h' == h
    || (&& Valid(revision) && revision.value > h.state.attempted
        && h' == h.(state := h.state.(attempted := revision.value, status := Failed, error := Some(Refused))))
  }

  /** A started change may fill the journal record of revision `revision` with `p`. */
  ghost predicate Plannable(h: Host, revision: nat, p: Pending) {
    && h.state.pending.None? && !h.damaged && revision > h.state.attempted
    && Managed(h.fs) && p.previous == Pair(h.fs) && Matching(p.intended)
    && (p.service.active ==> h.service.active) && (p.service.enabled ==> h.service.enabled)
  }

  ghost predicate SameElsewhere(a: Files, b: Files) {
    forall path :: path != UNIT && path != CONFIG ==> Lookup(a, path) == Lookup(b, path)
  }

  lemma RestoredElsewhere(before: Files, now: Files)
    requires HasPair(before) && SameElsewhere(before, now)
    ensures WithPair(now, Pair(before)) == before
  {
    forall path ensures Lookup(WithPair(now, Pair(before)), path) == Lookup(before, path) {
      assert path != UNIT && path != CONFIG ==> Lookup(before, path) == Lookup(now, path);
    }
    SameLookups(WithPair(now, Pair(before)), before);
  }

  /** Interrupted: the files hold the old or the new pair unless a rollback copy was cut short. */
  ghost predicate StillJournalled(h: Host, revision: nat, p: Pending, h': Host) {
    && h'.state in {Journalled(h.state, revision, p), Unverified(Journalled(h.state, revision, p))}
    && h'.installed == h.installed
    && (h'.damaged || !ForeignTo(p, h'.fs))
    && SameElsewhere(h.fs, h'.fs)
  }

  ghost predicate RolledBack(h: Host, revision: nat, p: Pending, h': Host) {
    && h'.state in {Cleared(Journalled(h.state, revision, p)),
                    Cleared(Journalled(h.state, revision, p)).(error := Some(RestoredPrevious))}
    && h'.installed == h.installed
    && h'.fs == h.fs && h'.service == p.service && !h'.damaged
  }

  ghost predicate IsCommitted(h: Host, revision: nat, p: Pending, h': Host) {
    && h'.state == Committed(h.state, revision)
    && h'.fs == WithPair(h.fs, p.intended) && h'.service == p.service && !h'.damaged
    && h'.installed == h.installed[revision := p.intended]
  }

  /** A change with plan `p`: journalled first, then files and service, then committed or recovered. */
  ghost predicate AttemptSpec(h: Host, revision: nat, p: Pending, h': Host, exit: Exit) {
    && Plannable(h, revision, p)
    && h'.attempts == h.attempts + [revision]
    && (|| (StillJournalled(h, revision, p, h') && exit != Done)
        || (RolledBack(h, revision, p, h') && exit != Done)
        || (IsCommitted(h, revision, p, h') && exit in {Done, HostDown}))
  }

  /** A selection does nothing, or starts a change under its own revision. */
  ghost predicate SelectionSpec(h: Host, request: Request, h': Host, exit: Exit)
    requires request.Apply?
  {
    || (h' == h && exit != RuntimeFailure
        && (exit == Done ==> Valid(request.revision) && request.revision.value <= h.state.attempted))
    || (Valid(request.revision) && exit != ValueFailure
        && exists p :: AttemptSpec(h, request.revision.value, p, h', exit))
  }

  /** What follows recovery within one request. */
  ghost predicate ActSpec(h: Host, request: Request, h': Host, exit: Exit) {
    || (h' == h && (exit == Done && request.Apply? ==>
        Valid(request.revision) && request.revision.value <= h.state.attempted))
    || (request.Apply? && exit in {ValueFailure, HostDown} && RefuseSpec(h, request.revision, h'))
    || (request.Apply? && Valid(request.revision) && exists p :: AttemptSpec(h, request.revision.value, p, h', exit))
  }

  ghost predicate LocalSpec(h: Host, request: Request, h': Host, exit: Exit) {
    exists m: Host, r: Exit ::
      && RecoverSpec(h, m, r)
      && if r == Done then ActSpec(m, request, h', exit)
         else h' == m && exit == if r == RuntimeFailure && request == ReadInventory then Done else r
  }

  /** The host after a recovery that met no failure. */
  ghost function Recovered(h: Host): Host {
    match h.state.pending
    case None => h
    case Some(p) =>
      h.(state := HostState(h.state.attempted, h.state.applied, Failed, Some(RecoveredChange), None),
         fs := h.fs[UNIT := p.previous.unit][CONFIG := p.previous.config], service := p.service, damaged := false)
  }

  /** The host after the selection of device `j` has been applied: the new pair, and everything else as before. */
  ghost function Selected(h: Host, devices: seq<Device>, usb: bool, request: Request, j: nat, i: nat): Host
    requires Requests(h, devices, usb, request, j, i)
  {
    var revision: nat := request.revision.value;
    var next := Rerouted(h.fs[UNIT].s, h.fs[CONFIG].cfg, devices[j].route, i);
    Host(HostState(revision, revision, Applied, None, None), h.fs[UNIT := next.unit][CONFIG := next.config],
         h.service, false, h.installed[revision := next], h.attempts + [revision])
  }

  /** The host after a refusal, which a valid new revision leaves a record of. */
  ghost function Refusing(h: Host, revision: Option<int>): Host {
    if revision.Some? && 1 <= revision.value <= 0xffff_ffff_ffff_ffff && revision.value > h.state.attempted
    then h.(state := HostState(revision.value, h.state.applied, Failed, Some(Refused), h.state.pending))
    else h
  }

  /** An old revision of a complete request, which is answered without doing anything. */
  ghost predicate Repeats(h: Host, usb: bool, request: Request) {
    && OpenToSelection(h.fs, usb) && request.Apply? && request.deviceId.Some? && request.inventory.Some?
    && request.revision.Some? && 1 <= request.revision.value <= h.state.attempted
    && request.revision.value <= 0xffff_ffff_ffff_ffff
  }

  ghost predicate Requested(h: Host, devices: seq<Device>, usb: bool, request: Request) {
    exists j: nat, i: nat :: Requests(h, devices, usb, request, j, i)
  }

  /** The change that was requested, whole. */
  ghost predicate IsSelected(h: Host, devices: seq<Device>, usb: bool, request: Request, h': Host) {
    forall j: nat, i: nat :: Requests(h, devices, usb, request, j, i) ==> h' == Selected(h, devices, usb, request, j, i)
  }

  /** What a request does to a host without a journal record when nothing fails: it is applied, or it
      is a repetition, or it is refused. */
  ghost predicate FaultFree(h: Host, devices: seq<Device>, usb: bool, request: Request, h': Host, exit: Exit) {
    match request
    case ReadInventory => h' == h && exit == Done
    case Unknown => h' == h && exit == ValueFailure
    case Apply(revision, _, _) =>
      if Requested(h, devices, usb, request) then IsSelected(h, devices, usb, request, h') && exit == Done
      else if Repeats(h, usb, request) then h' == h && exit == Done
      else h' == Refusing(h, revision) && exit == ValueFailure
  }

  /** The same before a refusal has been recorded. */
  ghost predicate Chooses(h: Host, devices: seq<Device>, usb: bool, request: Request, h': Host, exit: Exit) {
    if Requested(h, devices, usb, request) then IsSelected(h, devices, usb, request, h') && exit == Done
    else h' == h && exit == if Repeats(h, usb, request) then Done else ValueFailure
  }

  lemma NotOpenNotRequested(h: Host, devices: seq<Device>, usb: bool, request: Request)
    requires !OpenToSelection(h.fs, usb)
    ensures !Requested(h, devices, usb, request) && !Repeats(h, usb, request)
  {
  }

  /** Whatever fails, the change that was started is the one that was requested. */
  ghost predicate StartedAsRequested(h: Host, devices: seq<Device>, usb: bool, request: Request, h': Host, exit: Exit) {
    h'.attempts != h.attempts ==>
      exists p, j: nat, i: nat ::
        && Requests(h, devices, usb, request, j, i) && AttemptSpec(h, request.revision.value, p, h', exit)
        && p.previous == Version(h.fs[UNIT], h.fs[CONFIG])
        && p.intended == Rerouted(h.fs[UNIT].s, h.fs[CONFIG].cfg, devices[j].route, i)
  }

  lemma ChosenIsFaultFree(h: Host, devices: seq<Device>, usb: bool, request: Request, h': Host, exit: Exit)
    requires request.Apply? && Chooses(h, devices, usb, request, h', exit)
    ensures exit != ValueFailure ==> FaultFree(h, devices, usb, request, h', exit)
    ensures exit == ValueFailure ==>
              h' == h && FaultFree(h, devices, usb, request, Refusing(h, request.revision), ValueFailure)
  {
  }

  lemma NewAndOpenOnly(h: Host, devices: seq<Device>, usb: bool, request: Request)
    requires Requested(h, devices, usb, request)
    ensures OpenToSelection(h.fs, usb) && request.Apply? && Valid(request.revision)
    ensures request.revision.value > h.state.attempted && request.deviceId.Some? && request.inventory.Some?
  {
  }

  /** Only requests that can be planned are requested, and those are planned as requested. */
  lemma PlannedIsRequested(h: Host, devices: seq<Device>, usb: bool, request: Request, service: Service)
    requires OpenToSelection(h.fs, usb) && request.Apply? && Valid(request.revision)
    requires request.revision.value > h.state.attempted
    ensures Requested(h, devices, usb, request) <==> Plan(h.fs, devices, request, service).Some?
    ensures forall j: nat, i: nat :: Requests(h, devices, usb, request, j, i) ==>
              Plan(h.fs, devices, request, service) ==
                Some(Pending(Pair(h.fs), Rerouted(h.fs[UNIT].s, h.fs[CONFIG].cfg, devices[j].route, i), service))
  {
    PlanMeaning(h.fs, devices, request, service);
    if Plan(h.fs, devices, request, service).Some? {
      var j: nat, i: nat :| Selects(h.fs[UNIT].s, h.fs[CONFIG].cfg, devices, request, j, i);
      assert Requests(h, devices, usb, request, j, i);
    }
    if Requested(h, devices, usb, request) {
      var j: nat, i: nat :| Requests(h, devices, usb, request, j, i);
      assert Selects(h.fs[UNIT].s, h.fs[CONFIG].cfg, devices, request, j, i);
    }
  }

  lemma CommittedIsSelected(h: Host, devices: seq<Device>, usb: bool, request: Request, p: Pending, h': Host)
    requires OpenToSelection(h.fs, usb) && request.Apply? && Valid(request.revision)
    requires request.revision.value > h.state.attempted && Plan(h.fs, devices, request, h.service) == Some(p)
    requires IsCommitted(h, request.revision.value, p, h') &&
              h'.attempts == h.attempts + [request.revision.value as nat]
    ensures IsSelected(h, devices, usb, request, h')
  {
    PlannedIsRequested(h, devices, usb, request, h.service);
    forall j: nat, i: nat | Requests(h, devices, usb, request, j, i)
      ensures h' == Selected(h, devices, usb, request, j, i)
    {
    }
  }

  lemma AttemptIsRequested(h: Host, devices: seq<Device>, usb: bool, request: Request, p: Pending, h': Host, exit: Exit)
    requires OpenToSelection(h.fs, usb) && request.Apply? && Valid(request.revision)
    requires request.revision.value > h.state.attempted && Plan(h.fs, devices, request, p.service) == Some(p)
    requires h' == h || AttemptSpec(h, request.revision.value, p, h', exit)
    ensures StartedAsRequested(h, devices, usb, request, h', exit)
  {
    PlannedIsRequested(h, devices, usb, request, p.service);
    var j: nat, i: nat :| Requests(h, devices, usb, request, j, i);
  }

  lemma SelectionActs(h: Host, request: Request, h': Host, exit: Exit)
    requires request.Apply? && SelectionSpec(h, request, h', exit)
    ensures if exit == ValueFailure then h' == h else ActSpec(h, request, h', exit)
  {
  }

  lemma RefusalActs(h: Host, request: Request, h': Host, exit: Exit)
    requires request.Apply? && RefuseSpec(h, request.revision, h')
    requires exit in {ValueFailure, HostDown} || (exit == OtherFailure && h' == h)
    ensures ActSpec(h, request, h', exit)
    ensures h'.attempts == h.attempts
  {
  }

  // ---- The worker -------------------------------------------------------------------

  class Manager {
    const machine: Machine
    /** What the sound system reports, and whether USB wake control owns the output. */
    var devices: seq<Device>
    var usb: bool
    var state: HostState
    ghost var installed: map<nat, Version>
    ghost var attempts: seq<nat>

    constructor (machine: Machine, state: HostState)
      ensures this.machine == machine && this.state == state
      ensures attempts == [] && installed == if HasPair(machine.fs) then map[state.applied := Pair(machine.fs)]
                                               else map[]
    {
      this.machine, this.state, devices, usb := machine, state, [], false;
      attempts, installed := [], if HasPair(machine.fs) then map[state.applied := Pair(machine.fs)] else map[];
    }

    ghost function Model(): Host
      reads this, machine
    {
      Host(state, machine.fs, machine.service, machine.damaged, installed, attempts)
    }

    /** Replace the state file; a crash may fall on either side of the rename. */
    method WriteState(value: HostState) returns (exit: Exit)
      modifies this`state, machine`faulted
      ensures machine.faulted == (old(machine.faulted) || exit != Done)
      ensures state == old(state) || state == value
      ensures exit == Done ==> state == value
      ensures exit == OtherFailure ==> state == old(state)
      ensures exit in {Done, OtherFailure, HostDown}
    {
      if {
        case true => exit := HostDown;
        case true => exit := OtherFailure;
        case true => state := value; exit := HostDown;
        case true => state := value; exit := Done;
      }
      machine.faulted := machine.faulted || exit != Done;
    }

    /** The service as it was before the change. */
    method BringBack(service: Service) returns (exit: Exit)
      modifies machine
      ensures machine.fs == old(machine.fs) && machine.damaged == old(machine.damaged)
      ensures exit == Done ==> machine.service == service
      ensures exit in {Done, OtherFailure, HostDown}
      ensures old(machine.faulted) ==> machine.faulted
      ensures exit != Done ==> machine.faulted
    {
      var o := machine.Systemctl(Reload);
      if !o.Returned? { return if o.Crashed? then HostDown else OtherFailure; }
      o := machine.Systemctl(if service.enabled then Enable else Disable);
      if !o.Returned? { return if o.Crashed? then HostDown else OtherFailure; }
      o := machine.Systemctl(if service.active then Restart else Stop);
      if !o.Returned? { return if o.Crashed? then HostDown else OtherFailure; }
      if service.active {
        o := machine.Attempt();
        if !o.Returned? { return if o.Crashed? then HostDown else OtherFailure; }
      }
      return Done;
    }

    /** Put the journalled pair and service back; `exit` is Done, any exception, or HostDown. */
    method RestoreJournalled(p: Pending) returns (exit: Exit)
      modifies machine
      ensures var fs0, fs := old(machine.fs), machine.fs;
              fs == fs0 || (!ForeignTo(p, fs0) &&
                  (fs == fs0[UNIT := p.previous.unit] || fs == WithPair(fs0, p.previous)))
      ensures machine.damaged ==> old(machine.damaged)
      ensures machine.damaged != old(machine.damaged) ==> machine.fs == WithPair(old(machine.fs), p.previous)
      ensures exit == Done ==> !ForeignTo(p, old(machine.fs)) && machine.fs == WithPair(old(machine.fs), p.previous)
                               && machine.service == p.service && !machine.damaged
      ensures exit in {Done, OtherFailure, HostDown}
      ensures old(machine.faulted) ==> machine.faulted
      ensures exit != Done ==> machine.faulted || ForeignTo(p, old(machine.fs)) || !p.previous.config.Json?
    {
      var o := machine.Attempt();
      if !o.Returned? { return if o.Crashed? then HostDown else OtherFailure; }
      if !HasPair(machine.fs) { return OtherFailure; }
      if machine.fs[UNIT] != p.previous.unit && machine.fs[UNIT] != p.intended.unit { return OtherFailure; }
      if machine.fs[CONFIG] != p.previous.config && machine.fs[CONFIG] != p.intended.config { return OtherFailure; }
      o := machine.AtomicWrite(UNIT, p.previous.unit);
      if !o.Returned? { return if o.Crashed? then HostDown else OtherFailure; }
      o := machine.AtomicWrite(CONFIG, p.previous.config);
      if !o.Returned? { return if o.Crashed? then HostDown else OtherFailure; }
      machine.damaged := false;
      if !p.previous.config.Json? { return OtherFailure; }
      exit := BringBack(p.service);
    }

    method RecoverInterruptedApply() returns (exit: Exit)
      modifies this`state, machine
      ensures RecoverSpec(old(Model()), Model(), exit)
      ensures old(machine.faulted) ==> machine.faulted
      ensures exit != Done ==> machine.faulted || !Recoverable(old(Model()))
      ensures old(state.pending).None? ==> machine.faulted == old(machine.faulted)
    {
      if state.pending.None? { return Done; }
      exit := RestoreJournalled(state.pending.value);
      if exit == HostDown { return; }
      if exit == OtherFailure {
        exit := WriteState(state.(status := Failed, error := Some(UnverifiedRollback)));
        if exit == Done { exit := RuntimeFailure; }
        return;
      }
      exit := WriteState(state.(pending := None, status := Failed, error := Some(RecoveredChange)));
    }

    method Inventory() returns (snapshot: Snapshot)
      modifies machine`faulted
      ensures snapshot.supported ==> Selectable(machine.fs, usb) && snapshot.devices == devices
      ensures old(machine.faulted) ==> machine.faulted
      ensures !machine.faulted ==> snapshot.supported == Selectable(machine.fs, usb)
    {
      var o := machine.Attempt();
      if !o.Returned? || !Managed(machine.fs) { return Snapshot([], false); }
      return Snapshot(devices, Selectable(machine.fs, usb));
    }

    method RecordPreflightFailure(revision: Option<int>) returns (exit: Exit)
      modifies this`state, machine`faulted
      ensures old(machine.faulted) ==> machine.faulted
      ensures RefuseSpec(old(Model()), revision, Model())
      ensures exit in {Done, OtherFailure, HostDown}
      ensures exit == OtherFailure ==> Model() == old(Model())
      ensures exit == Done && Valid(revision) ==> state.attempted >= revision.value
      ensures !machine.faulted ==> exit == Done && Model() == Refusing(old(Model()), revision)
    {
      if !Valid(revision) || revision.value <= state.attempted { return Done; }
      exit := WriteState(state.(attempted := revision.value, status := Failed, error := Some(Refused)));
    }

    method RestoreServiceState(service: Service) returns (o: Outcome)
      modifies machine`service, machine`faulted
      ensures o.Returned? ==> machine.service == service
      ensures machine.faulted == (old(machine.faulted) || !o.Returned?)
    {
      o := machine.Systemctl(if service.enabled then Enable else Disable);
      if !o.Returned? { return; }
      o := machine.Systemctl(if service.active then Start else Stop);
    }

    /** Apply a selection that is newer than every attempt so far. */
    method ApplySelection(request: Request, devices: seq<Device>) returns (exit: Exit)
      requires request.Apply? && state.pending.None? && !machine.damaged
      modifies this`state, this`installed, this`attempts, machine
      ensures old(machine.faulted) ==> machine.faulted
      ensures !machine.faulted && OpenToSelection(old(machine.fs), usb) ==>
                Chooses(old(Model()), devices, usb, request, Model(), exit)
      ensures StartedAsRequested(old(Model()), devices, usb, request, Model(), exit)
      ensures SelectionSpec(old(Model()), request, Model(), exit)
    {
      ghost var h := Model();
      if Requested(h, devices, usb, request) { NewAndOpenOnly(h, devices, usb, request); }
      if !Valid(request.revision) || request.deviceId.None? || request.inventory.None? { return ValueFailure; }
      if request.revision.value <= state.attempted { return Done; }
      var o := machine.Attempt();
      if !o.Returned? { return if o.Crashed? then HostDown else ValueFailure; }
      if !Selectable(machine.fs, usb) { return ValueFailure; }
      exit := ApplyNew(request, devices);
    }

    /** Plan the change, and carry it out if there is a plan. */
    method ApplyNew(request: Request, devices: seq<Device>) returns (exit: Exit)
      requires request.Apply? && state.pending.None? && !machine.damaged && Selectable(machine.fs, usb)
      requires Valid(request.revision) && request.revision.value > state.attempted
      requires request.deviceId.Some? && request.inventory.Some?
      modifies this`state, this`installed, this`attempts, machine
      ensures old(machine.faulted) ==> machine.faulted
      ensures !machine.faulted ==> Chooses(old(Model()), devices, usb, request, Model(), exit)
      ensures StartedAsRequested(old(Model()), devices, usb, request, Model(), exit)
      ensures SelectionSpec(old(Model()), request, Model(), exit)
    {
      ghost var h := Model();
      var active := machine.Query(machine.service.active);
      var enabled := machine.Query(machine.service.enabled);
      var service := Service(active, enabled);
      var plan := Plan(machine.fs, devices, request, service);
      PlannedIsRequested(h, devices, usb, request, service);
      if plan.None? { return ValueFailure; }
      PlanMatches(machine.fs, devices, request, service);
      exit := AttemptPlanned(request.revision.value, plan.value);
      AttemptIsRequested(h, devices, usb, request, plan.value, Model(), exit);
      if !machine.faulted { CommittedIsSelected(h, devices, usb, request, plan.value, Model()); }
    }

    /** The journal write and everything after it. */
    method AttemptPlanned(revision: nat, p: Pending) returns (exit: Exit)
      requires Plannable(Model(), revision, p)
      modifies this`state, this`installed, this`attempts, machine
      ensures old(machine.faulted) ==> machine.faulted
      ensures !machine.faulted ==> exit == Done && IsCommitted(old(Model()), revision, p, Model())
      ensures || (Model() == old(Model()) && exit in {OtherFailure, HostDown})
              || (exit != ValueFailure && AttemptSpec(old(Model()), revision, p, Model(), exit))
    {
      ghost var h := Model();
      var journalled := state.(attempted := revision, status := Idle, error := None, pending := Some(p));
      exit := WriteState(journalled);
      if state == journalled { attempts := attempts + [revision]; }
      if exit != Done { return; }
      var o := InstallPlanned(h, revision, p);
      if o.Crashed? { return HostDown; }
      if o.Returned? {
        exit := Commit(h, revision, p);
      } else {
        exit := RecoverFailedAttempt(h, revision, p);
      }
    }

    /** Install the intended pair and put the service flags back as they were. */
    method InstallPlanned(ghost h: Host, revision: nat, p: Pending) returns (o: Outcome)
      requires Plannable(h, revision, p)
      requires Model() == h.(state := Journalled(h.state, revision, p), attempts := h.attempts + [revision])
      modifies machine
      ensures old(machine.faulted) ==> machine.faulted
      ensures !o.Returned? ==> machine.faulted
      ensures StillJournalled(h, revision, p, Model())
      ensures o.Returned? ==>
                machine.fs == WithPair(h.fs, p.intended) && machine.service == p.service && !machine.damaged
    {
      var files := [(UNIT, p.intended.unit), (CONFIG, p.intended.config)];
      PairInstall(machine.fs, files);
      var was: Service;
      var retained: bool;
      o, was, retained := machine.ApplyFiles(files, false);
      MixtureAccepted(h.fs, p, files, machine.fs, machine.damaged);
      if o.Returned? { o := RestoreServiceState(p.service); }
    }

    method Commit(ghost h: Host, revision: nat, p: Pending) returns (exit: Exit)
      requires StillJournalled(h, revision, p, Model()) && state == Journalled(h.state, revision, p)
      requires machine.fs == WithPair(h.fs, p.intended) && machine.service == p.service && !machine.damaged
      modifies this`state, this`installed, machine`faulted
      ensures machine.faulted == (old(machine.faulted) || exit != Done)
      ensures exit == Done ==> IsCommitted(h, revision, p, Model())
      ensures StillJournalled(h, revision, p, Model()) ||
                (IsCommitted(h, revision, p, Model()) && exit in {Done, HostDown})
      ensures exit in {Done, OtherFailure, HostDown}
    {
      var committed := state.(attempted := revision, applied := revision, status := Applied, error := None,
                              pending := None);
      exit := WriteState(committed);
      if state == committed { installed := installed[revision := p.intended]; }
    }

    method RecoverFailedAttempt(ghost h: Host, revision: nat, p: Pending) returns (exit: Exit)
      requires StillJournalled(h, revision, p, Model()) && state == Journalled(h.state, revision, p)
      requires HasPair(h.fs) && p.previous == Pair(h.fs)
      modifies this`state, machine
      ensures old(machine.faulted) ==> machine.faulted
      ensures StillJournalled(h, revision, p, Model()) || RolledBack(h, revision, p, Model())
      ensures attempts == old(attempts) && exit in {RuntimeFailure, OtherFailure, HostDown}
    {
      RestoredElsewhere(h.fs, machine.fs);
      exit := RecoverInterruptedApply();
      if exit == HostDown { return; }
      if exit != Done { return RuntimeFailure; }
      exit := WriteState(state.(attempted := revision, status := Failed, error := Some(RestoredPrevious)));
      if exit == Done { exit := RuntimeFailure; }
    }

    /** The request itself, once nothing is journalled. */
    method Act(request: Request) returns (exit: Exit)
      requires state.pending.None? && !machine.damaged
      modifies this`state, this`installed, this`attempts, machine
      ensures ActSpec(old(Model()), request, Model(), exit)
      ensures old(machine.faulted) ==> machine.faulted
      ensures request == ReadInventory ==> Model() == old(Model()) && exit == Done
      ensures !machine.faulted ==> FaultFree(old(Model()), devices, usb, request, Model(), exit)
      ensures StartedAsRequested(old(Model()), devices, usb, request, Model(), exit)
    {
      if request == ReadInventory {
        var _ := Inventory();
        return Done;
      }
      if !request.Apply? { return ValueFailure; }
      exit := ApplyOrRefuse(request);
    }

    /** A selection, and the record of its refusal. */
    method ApplyOrRefuse(request: Request) returns (exit: Exit)
      requires request.Apply? && state.pending.None? && !machine.damaged
      modifies this`state, this`installed, this`attempts, machine
      ensures ActSpec(old(Model()), request, Model(), exit)
      ensures old(machine.faulted) ==> machine.faulted
      ensures !machine.faulted ==> FaultFree(old(Model()), devices, usb, request, Model(), exit)
      ensures StartedAsRequested(old(Model()), devices, usb, request, Model(), exit)
    {
      ghost var h := Model();
      var snapshot := Inventory();
      exit := ValueFailure;
      if !OpenToSelection(h.fs, usb) { NotOpenNotRequested(h, devices, usb, request); }
      if snapshot.supported { exit := ApplySelection(request, snapshot.devices); }
      SelectionActs(h, request, Model(), exit);
      if !machine.faulted { ChosenIsFaultFree(h, devices, usb, request, Model(), exit); }
      if exit != ValueFailure { return; }
      exit := RecordPreflightFailure(request.revision);
      if exit == Done { exit := ValueFailure; }
      RefusalActs(h, request, Model(), exit);
    }

    /** One request: recover first, then answer or apply. */
    method LocalRequest(request: Request) returns (exit: Exit)
      requires state.pending.None? ==> !machine.damaged
      modifies this`state, this`installed, this`attempts, machine
      ensures LocalSpec(old(Model()), request, Model(), exit)
      ensures old(machine.faulted) ==> machine.faulted
      ensures !machine.faulted && Recoverable(old(Model())) ==>
                FaultFree(Recovered(old(Model())), devices, usb, request, Model(), exit)
      ensures StartedAsRequested(Recovered(old(Model())), devices, usb, request, Model(), exit)
    {
      exit := RecoverInterruptedApply();
      if exit == RuntimeFailure && request == ReadInventory { return Done; }
      if exit != Done { return; }
      exit := Act(request);
    }
  }

  lemma PairInstall(fs: Files, files: Bundle)
    requires |files| == 2 && files[0].0 == UNIT && files[1].0 == CONFIG
    ensures DistinctPaths(files)
    ensures Install(fs, files) == WithPair(fs, Version(files[0].1, files[1].1))
  {
    assert files[..1][..0] == [];
    assert Install(fs, files[..1]) == fs[UNIT := files[0].1];
  }

  lemma MixtureAccepted(before: Files, p: Pending, files: Bundle, now: Files, damaged: bool)
    requires HasPair(before) && p.previous == Pair(before)
    requires files == [(UNIT, p.intended.unit), (CONFIG, p.intended.config)]
    requires OthersKept(before, files, now) && (!damaged ==> Mixture(before, files, now))
    ensures !damaged ==> !ForeignTo(p, now)
    ensures SameElsewhere(before, now)
  {
    PairInstall(before, files);
    if !damaged {
      assert forall path :: Lookup(now, path) == Lookup(before, path) ||
                Lookup(now, path) == Lookup(Install(before, files), path);
      assert Lookup(now, UNIT).Some? && Lookup(now, CONFIG).Some?;
    }
    forall path | path != UNIT && path != CONFIG ensures Lookup(before, path) == Lookup(now, path) {
      assert !InBundle(files, path);
    }
  }
}
