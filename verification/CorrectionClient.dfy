/** The client that sends the correction to a processor and waits until it is confirmed. */
module CorrectionClient {
  import opened Basics
  import opened CorrectionPatch
  import opened CorrectionShown
  import Equaliser

  datatype ApplyError = RequestFailed | Refused(error: PatchError) | DevicesChanged | Unconfirmed

  class Processor {
    var config: Json
    var state: string
    /** It merges what it is sent, keeps running, and changes nothing else. */
    const merges: bool
    /** Every configuration and state it answered with, every candidate it found valid, every patch it
        was sent, and how many requests failed. */
    ghost var readbacks: seq<Json>
    ghost var states: seq<string>
    ghost var validated: seq<Json>
    ghost var patches: seq<Json>
    ghost var faults: nat

    constructor (config: Json, state: string, merges: bool)
      ensures this.config == config && this.state == state && this.merges == merges
      ensures readbacks == [] && states == [] && validated == [] && patches == [] && faults == 0
    {
      this.config, this.state, this.merges := config, state, merges;
      readbacks, states, validated, patches, faults := [], [], [], [], 0;
    }

    method Drift()
      modifies this`config, this`state
      ensures merges ==> config == old(config) && state == old(state)
    {
      if !merges {
        var other: Json, word: string := *, *;
        config, state := other, word;
      }
    }

    method GetConfig() returns (r: Result<Json, ApplyError>)
      modifies this
      ensures merges ==> config == old(config) && state == old(state)
      ensures patches == old(patches) && states == old(states) && validated == old(validated)
      ensures r.Ok? ==> readbacks == old(readbacks) + [r.value] && faults == old(faults) && r.value == config
      ensures r.Err? ==> readbacks == old(readbacks) && faults > old(faults) && r.error == RequestFailed
    {
      Drift();
      var lost: bool := *;
      if lost { faults := faults + 1; return Err(RequestFailed); }
      readbacks := readbacks + [config];
      return Ok(config);
    }

    method GetState() returns (r: Result<string, ApplyError>)
      modifies this
      ensures merges ==> config == old(config) && state == old(state)
      ensures patches == old(patches) && readbacks == old(readbacks) && validated == old(validated)
      ensures r.Ok? ==> faults == old(faults) && r.value == state && states == old(states) + [r.value]
      ensures r.Err? ==> states == old(states) && faults > old(faults) && r.error == RequestFailed
    {
      Drift();
      var lost: bool := *;
      if lost { faults := faults + 1; return Err(RequestFailed); }
      states := states + [state];
      return Ok(state);
    }

    /** `ValidateConfigJson`; a refused candidate counts as a failed request. */
    method Validate(candidate: Json) returns (r: Result<(), ApplyError>)
      modifies this
      ensures merges ==> config == old(config) && state == old(state)
      ensures readbacks == old(readbacks) && states == old(states) && patches == old(patches)
      ensures r.Ok? ==> faults == old(faults) && validated == old(validated) + [candidate]
      ensures r.Err? ==> faults > old(faults) && validated == old(validated) && r.error == RequestFailed
    {
      Drift();
      var lost: bool := *;
      if lost { faults := faults + 1; return Err(RequestFailed); }
      validated := validated + [candidate];
      return Ok(());
    }

    /** `PatchConfig`; a patch whose answer is lost may have been merged. */
    method SendPatch(patch: Json) returns (r: Result<(), ApplyError>)
      modifies this
      ensures patches == old(patches) + [patch]
      ensures merges ==> state == old(state) && (r.Ok? ==> config == Merge(old(config), patch))
      ensures readbacks == old(readbacks) && states == old(states) && validated == old(validated)
      ensures r.Ok? ==> faults == old(faults)
      ensures r.Err? ==> faults > old(faults) && r.error == RequestFailed
    {
      Drift();
      var lost, merged: bool := *, *;
      patches := patches + [patch];
      if !lost || merged { config := Merge(config, patch); }
      if lost { faults := faults + 1; return Err(RequestFailed); }
      return Ok(());
    }
  }

  ghost predicate Running(state: string) { state == "Running" || state == "Paused" }

  /** The active configuration shows the candidate, on the devices it had. */
  ghost predicate Shows(actual: Json, active: Json, candidate: Json) {
    Confirms(actual, candidate) && At(actual, "devices") == At(active, "devices")
  }

  /** The last read shows the candidate on the devices it had, and the processor was running. */
  ghost predicate Confirmed(readbacks: seq<Json>, states: seq<string>, active: Json, candidate: Json) {
    && readbacks != [] && states != [] && Running(states[|states| - 1])
    && Shows(readbacks[|readbacks| - 1], active, candidate)
  }

  /** So many polls, on the devices there were, none of which showed the candidate running. */
  ghost predicate NeverShown(shown: seq<Json>, seen: seq<string>, polls: nat, active: Json, candidate: Json) {
    && |shown| == |seen| == polls
    && forall k :: 0 <= k < polls ==>
         && At(shown[k], "devices") == At(active, "devices")
         && !(Confirms(shown[k], candidate) && Running(seen[k]))
  }

  lemma OneMorePoll(shown: seq<Json>, seen: seq<string>, polls: nat, active: Json, candidate: Json, read: Json,
        state: string)
    requires NeverShown(shown, seen, polls, active, candidate)
    requires At(read, "devices") == At(active, "devices") && !(Confirms(read, candidate) && Running(state))
    ensures NeverShown(shown + [read], seen + [state], polls + 1, active, candidate)
  {
  }

  /** One read of the configuration and the state: `Some` ends the wait. */
  method Poll(processor: Processor, active: Json, candidate: Json)
      returns (r: Option<Result<(), ApplyError>>, ghost read: Json, ghost state: string)
    modifies processor
    ensures processor.patches == old(processor.patches) && processor.validated == old(processor.validated)
    ensures processor.merges ==> processor.config == old(processor.config) && processor.state == old(processor.state)
    ensures r == Some(Err(RequestFailed)) ==>
              processor.faults > old(processor.faults) && old(processor.readbacks) <= processor.readbacks &&
              processor.states == old(processor.states)
    ensures r != Some(Err(RequestFailed)) ==>
              processor.faults == old(processor.faults) && processor.readbacks == old(processor.readbacks) + [read] &&
              processor.states == old(processor.states) + [state] &&
              (processor.merges ==> read == old(processor.config) && state == old(processor.state)) &&
              r == if At(read, "devices") != At(active, "devices") then Some(Err(DevicesChanged))
                   else if Confirms(read, candidate) && Running(state) then Some(Ok(())) else None
  {
    read, state := Null, "";
    var actual := processor.GetConfig();
    if actual.Err? { return Some(Err(actual.error)), read, state; }
    var current := processor.GetState();
    if current.Err? { return Some(Err(current.error)), read, state; }
    read, state := actual.value, current.value;
    if At(actual.value, "devices") != At(active, "devices") { return Some(Err(DevicesChanged)), read, state; }
    if Confirms(actual.value, candidate) && (current.value == "Running" || current.value == "Paused") {
      return Some(Ok(())), read, state;
    }
    return None, read, state;
  }

  /** Poll until the processor runs with the candidate, twenty times at most. */
  method AwaitConfirmation(processor: Processor, active: Json, candidate: Json) returns (r: Result<(), ApplyError>)
    modifies processor
    ensures old(processor.readbacks) <= processor.readbacks && processor.patches == old(processor.patches)
    ensures processor.validated == old(processor.validated)
    ensures r.Ok? ==>
              |processor.readbacks| > |old(processor.readbacks)| &&
              Confirmed(processor.readbacks, processor.states, active, candidate)
    ensures r == Err(DevicesChanged) ==>
              |processor.readbacks| > |old(processor.readbacks)| &&
              At(processor.readbacks[|processor.readbacks| - 1], "devices") != At(active, "devices")
    ensures old(processor.states) <= processor.states
    ensures r == Err(Unconfirmed) ==>
              NeverShown(processor.readbacks[|old(processor.readbacks)|..],
                  processor.states[|old(processor.states)|..], 20,
                         active, candidate)
    ensures r == Err(RequestFailed) ==> processor.faults > old(processor.faults)
    ensures processor.merges ==> processor.config == old(processor.config)
    ensures processor.faults >= old(processor.faults)
    ensures processor.merges && Running(old(processor.state)) && processor.faults == old(processor.faults) &&
            Shows(old(processor.config), active, candidate) ==>
              r == Ok(())
    ensures r.Err? ==> !r.error.Refused?
  {
    ghost var shown: seq<Json>, seen: seq<string> := [], [];
    for poll := 0 to 20
      invariant processor.readbacks == old(processor.readbacks) + shown
      invariant processor.states == old(processor.states) + seen
      invariant processor.patches == old(processor.patches) && processor.validated == old(processor.validated)
      invariant processor.faults == old(processor.faults)
      invariant NeverShown(shown, seen, poll, active, candidate)
      invariant processor.merges ==>
                  processor.config == old(processor.config) && processor.state == old(processor.state)
      invariant processor.merges && Running(old(processor.state)) && Shows(old(processor.config), active, candidate) ==>
                poll == 0
    {
      ghost var read, state;
      var ended;
      ended, read, state := Poll(processor, active, candidate);
      if ended.Some? { return ended.value; }
      OneMorePoll(shown, seen, poll, active, candidate, read, state);
      shown, seen := shown + [read], seen + [state];
    }
    assert processor.readbacks[|old(processor.readbacks)|..] == shown;
    assert processor.states[|old(processor.states)|..] == seen;
    return Err(Unconfirmed);
  }

  method SendAndAwait(processor: Processor, active: Json, candidate: Json,
        patch: Json) returns (r: Result<(), ApplyError>)
    requires processor.readbacks != []
    modifies processor
    ensures old(processor.readbacks) <= processor.readbacks && processor.faults >= old(processor.faults)
    ensures r.Ok? ==>
              |processor.readbacks| > |old(processor.readbacks)| &&
              Confirmed(processor.readbacks, processor.states, active, candidate)
    ensures r.Ok? ==> processor.patches == old(processor.patches) + [patch]
    ensures processor.patches != old(processor.patches) ==>
              processor.patches == old(processor.patches) + [patch] &&
              processor.validated == old(processor.validated) + [candidate]
    ensures processor.merges && Running(old(processor.state)) && processor.faults == old(processor.faults) &&
              Shows(Merge(old(processor.config), patch), active, candidate) ==>
              r == Ok(()) && processor.config == Merge(old(processor.config), patch)
    ensures r.Err? ==> !r.error.Refused?
    ensures r == Err(RequestFailed) ==> processor.faults > old(processor.faults)
  {
    r := processor.Validate(candidate);
    if r.Err? { return; }
    r := processor.SendPatch(patch);
    if r.Err? { return; }
    r := AwaitConfirmation(processor, active, candidate);
  }

  /** What a client that reports success has seen and sent: one read, one patch made from it, and a last
      read, of a running processor, that shows what the patch was for. */
  ghost predicate Applied(profile: Option<Equaliser.Profile>, rootHalf: real, readbacks: seq<Json>, n: nat,
        states: seq<string>, was: seq<Json>, patches: seq<Json>) {
    && n + 1 < |readbacks| && PatchRefusal(readbacks[n], profile) == None
    && patches == was + [Patch(readbacks[n], profile, rootHalf)]
    && Confirmed(readbacks, states, readbacks[n], Candidate(readbacks[n], profile, rootHalf))
  }

  /** What a patch is made from, what it is for, and that a merging processor would show it. */
  ghost predicate Prepared(profile: Option<Equaliser.Profile>, rootHalf: real, active: Json, candidate: Json,
        patch: Json) {
    && PatchRefusal(active, profile) == None
    && candidate == Candidate(active, profile, rootHalf) && patch == Patch(active, profile, rootHalf)
    && Shows(Merge(active, patch), active, candidate)
  }

  method Prepare(active: Json, profile: Option<Equaliser.Profile>,
        rootHalf: real) returns (r: Result<(Json, Json), PatchError>)
    ensures PatchRefusal(active, profile).Some? ==> r == Err(PatchRefusal(active, profile).value)
    ensures PatchRefusal(active, profile).None? ==> r.Ok? && Prepared(profile, rootHalf, active, r.value.0, r.value.1)
  {
    r := BuildPatch(active, profile, rootHalf);
    if PatchRefusal(active, profile).None? { PatchIsConfirmed(active, profile, rootHalf); }
  }

  lemma SameDevices(last: Json, active: Json)
    requires At(last, "devices") == At(active, "devices") && At(active, "devices") != Null
    ensures Follow(last, [Member("devices")]) == Follow(active, [Member("devices")])
  {
    OnePlace(last, Member("devices"));
    OnePlace(active, Member("devices"));
  }

  /** The last read plays the profile, on the devices of read `n`. */
  ghost predicate Playing(profile: Option<Equaliser.Profile>, rootHalf: real, readbacks: seq<Json>, n: nat) {
    && n + 1 < |readbacks| && Plays(readbacks[|readbacks| - 1], profile, rootHalf)
    && Follow(readbacks[|readbacks| - 1], [Member("devices")]) == Follow(readbacks[n], [Member("devices")])
  }

  ghost predicate SentFor(active: Json, profile: Option<Equaliser.Profile>, rootHalf: real, patchesBefore: seq<Json>,
        patches: seq<Json>, validatedBefore: seq<Json>, validated: seq<Json>) {
    && PatchRefusal(active, profile) == None
    && patches == patchesBefore + [Patch(active, profile, rootHalf)]
    && validated == validatedBefore + [Candidate(active, profile, rootHalf)]
  }

  lemma AppliedPlays(profile: Option<Equaliser.Profile>, rootHalf: real, readbacks: seq<Json>, n: nat,
        states: seq<string>, was: seq<Json>, patches: seq<Json>)
    requires Applied(profile, rootHalf, readbacks, n, states, was, patches)
    ensures Playing(profile, rootHalf, readbacks, n)
  {
    var active, last := readbacks[n], readbacks[|readbacks| - 1];
    ConfirmedPlays(active, profile, rootHalf, last);
    SameDevices(last, active);
  }

  /** Patch the active configuration and wait for it to be confirmed. */
  method Apply(processor: Processor, profile: Option<Equaliser.Profile>,
        rootHalf: real) returns (r: Result<(), ApplyError>)
    modifies processor
    ensures old(processor.readbacks) <= processor.readbacks && processor.faults >= old(processor.faults)
    ensures r.Ok? ==>
              Applied(profile, rootHalf, processor.readbacks, |old(processor.readbacks)|, processor.states,
                      old(processor.patches), processor.patches)
    // The last read plays every band of the profile, on the devices of the first.
    ensures r.Ok? ==> Playing(profile, rootHalf, processor.readbacks, |old(processor.readbacks)|)
    // Nothing is sent that was not made from the first read and found valid before.
    ensures processor.patches != old(processor.patches) ==>
              |processor.readbacks| > |old(processor.readbacks)| &&
              SentFor(processor.readbacks[|old(processor.readbacks)|], profile, rootHalf, old(processor.patches),
                      processor.patches, old(processor.validated), processor.validated)
    ensures r == Err(RequestFailed) ==> processor.faults > old(processor.faults)
    ensures r.Err? && r.error.Refused? ==> processor.patches == old(processor.patches)
    ensures processor.merges && Running(old(processor.state)) && processor.faults == old(processor.faults) ==>
              if PatchRefusal(old(processor.config), profile) == None
              then r == Ok(()) && processor.config == Patched(old(processor.config), profile, rootHalf)
              else && r == Err(Refused(PatchRefusal(old(processor.config), profile).value))
                   && processor.config == old(processor.config)
  {
    var read := processor.GetConfig();
    if read.Err? { return Err(read.error); }
    var active := read.value;
    var prepared := Prepare(active, profile, rootHalf);
    if prepared.Err? { return Err(Refused(prepared.error)); }
    r := SendAndAwait(processor, active, prepared.value.0, prepared.value.1);
    if r.Ok? {
      AppliedPlays(profile, rootHalf, processor.readbacks, |old(processor.readbacks)|, processor.states,
                   old(processor.patches), processor.patches);
    }
  }
}
