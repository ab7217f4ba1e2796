/** The client that selects an output, over a server that may renumber outputs between any two
    commands, refuse a command, apply it without answering, or close the connection. */
module MpdSelection {
  import opened Basics
  import opened MpdOutputs

  datatype Failure = Refused | Unanswered | Dropped | Unusable | Ambiguous | Unknown | Unverified

  /** Why a selection was not made; after `Restored` the outputs were read back as they were. */
  datatype SelectError = Rejected(cause: Failure) | Restored(cause: Failure)
      | NotRestored(cause: Failure, rollback: Failure)

  ghost predicate Unique(outputs: seq<Output>) {
    forall i, j :: 0 <= i < j < |outputs| ==> IdentityOf(outputs[i]) != IdentityOf(outputs[j])
  }

  ghost predicate DistinctIds(outputs: seq<Output>) {
    forall i, j :: 0 <= i < j < |outputs| ==> outputs[i].id != outputs[j].id
  }

  function Identities(outputs: seq<Output>): set<Identity> { set o | o in outputs :: IdentityOf(o) }

  function Enabled(outputs: seq<Output>): set<Identity> { set o | o in outputs && o.enabled :: IdentityOf(o) }

  predicate IsUnique(outputs: seq<Output>) {
    forall i | 0 <= i < |outputs| :: forall j | 0 <= j < i :: IdentityOf(outputs[j]) != IdentityOf(outputs[i])
  }

  function Matching(outputs: seq<Output>, wanted: Identity): seq<Output> {
    if outputs == [] then []
    else (if IdentityOf(outputs[0]) == wanted then [outputs[0]] else []) + Matching(outputs[1..], wanted)
  }

  function UniqueOutput(outputs: seq<Output>, wanted: Identity): Result<Output, Failure> {
    var matched := Matching(outputs, wanted);
    if matched == [] then Err(Unknown) else if |matched| > 1 then Err(Ambiguous) else Ok(matched[0])
  }

  /** Every enabled output has the identity, and the first output of that identity is enabled. */
  predicate IsOnlyEnabled(outputs: seq<Output>, wanted: Identity) {
    && (forall i | 0 <= i < |outputs| :: outputs[i].enabled ==> IdentityOf(outputs[i]) == wanted)
    && Matching(outputs, wanted) != [] && Matching(outputs, wanted)[0].enabled
  }

  function OutputEnabled(before: seq<Output>, output: Output): Result<bool, Failure> {
    match UniqueOutput(before, IdentityOf(output))
    case Err(e) => Err(e)
    case Ok(o) => Ok(o.enabled)
  }

  function SameEnabledFrom(before: seq<Output>, after: seq<Output>): Result<bool, Failure> {
    if after == [] then Ok(true)
    else
      match OutputEnabled(before, after[0])
      case Err(e) => Err(e)
      case Ok(enabled) => if enabled != after[0].enabled then Ok(false) else SameEnabledFrom(before, after[1..])
  }

  function SameEnabledOutputs(before: seq<Output>, after: seq<Output>): Result<bool, Failure> {
    if |before| != |after| then Ok(false) else SameEnabledFrom(before, after)
  }

  // ---- What the checks mean ---------------------------------------------------------

  lemma FirstIsAlone(outputs: seq<Output>)
    requires Unique(outputs) && outputs != []
    ensures forall o :: o in outputs[1..] ==> IdentityOf(o) != IdentityOf(outputs[0])
  {
    forall o | o in outputs[1..] ensures IdentityOf(o) != IdentityOf(outputs[0]) {
      var k :| 0 <= k < |outputs[1..]| && outputs[1..][k] == o;
      assert IdentityOf(outputs[0]) != IdentityOf(outputs[k + 1]);
    }
  }

  lemma {:induction false} MatchingMembers(outputs: seq<Output>, wanted: Identity)
    ensures forall o :: o in Matching(outputs, wanted) <==> o in outputs && IdentityOf(o) == wanted
    ensures Unique(outputs) ==> |Matching(outputs, wanted)| <= 1
  {
    if outputs != [] {
      MatchingMembers(outputs[1..], wanted);
      assert outputs == [outputs[0]] + outputs[1..];
      if Unique(outputs) {
        FirstIsAlone(outputs);
        assert Matching(outputs[1..], wanted) != [] ==>
                  Matching(outputs[1..], wanted)[0] in Matching(outputs[1..], wanted);
      }
    }
  }

  /** The verification of a selection: the one enabled identity is the requested one. */
  lemma OnlyEnabledMeaning(outputs: seq<Output>, wanted: Identity)
    requires Unique(outputs)
    ensures IsOnlyEnabled(outputs, wanted) <==> Enabled(outputs) == {wanted}
  {
    MatchingMembers(outputs, wanted);
    if IsOnlyEnabled(outputs, wanted) {
      var o := Matching(outputs, wanted)[0];
      assert o in outputs && o.enabled;
      forall o | o in outputs && o.enabled ensures IdentityOf(o) == wanted {
        var i :| 0 <= i < |outputs| && outputs[i] == o;
      }
    }
    if Enabled(outputs) == {wanted} {
      var o :| o in outputs && o.enabled && IdentityOf(o) == wanted;
      assert o in Matching(outputs, wanted);
      forall i | 0 <= i < |outputs| && outputs[i].enabled ensures IdentityOf(outputs[i]) == wanted {
        assert IdentityOf(outputs[i]) in Enabled(outputs);
      }
    }
  }

  lemma UniqueOutputMeaning(outputs: seq<Output>, wanted: Identity)
    requires Unique(outputs)
    ensures UniqueOutput(outputs, wanted).Ok? <==> wanted in Identities(outputs)
    ensures UniqueOutput(outputs, wanted).Ok? ==>
              UniqueOutput(outputs, wanted).value in outputs &&
                  IdentityOf(UniqueOutput(outputs, wanted).value) == wanted
    ensures forall o :: o in outputs && IdentityOf(o) == wanted ==> UniqueOutput(outputs, wanted) == Ok(o)
  {
    MatchingMembers(outputs, wanted);
    var matched := Matching(outputs, wanted);
    if matched != [] { assert matched[0] in matched; }
    forall o | o in outputs && IdentityOf(o) == wanted ensures UniqueOutput(outputs, wanted) == Ok(o) {
      assert o in matched;
    }
  }

  lemma EnabledMeaning(outputs: seq<Output>, o: Output)
    requires Unique(outputs) && IdentityOf(o) in Identities(outputs)
    ensures OutputEnabled(outputs, o) == Ok(IdentityOf(o) in Enabled(outputs))
  {
    UniqueOutputMeaning(outputs, IdentityOf(o));
    var found := UniqueOutput(outputs, IdentityOf(o)).value;
    if IdentityOf(o) in Enabled(outputs) {
      var e :| e in outputs && e.enabled && IdentityOf(e) == IdentityOf(o);
      assert e == found;
    }
  }

  lemma {:induction false} SameEnabledFromMeaning(before: seq<Output>, after: seq<Output>)
    requires Unique(before)
    ensures SameEnabledFrom(before, after) == Ok(true) <==>
              forall o :: o in after ==>
                  IdentityOf(o) in Identities(before) && (o.enabled <==> IdentityOf(o) in Enabled(before))
  {
    if after != [] {
      SameEnabledFromMeaning(before, after[1..]);
      assert after == [after[0]] + after[1..];
      UniqueOutputMeaning(before, IdentityOf(after[0]));
      if IdentityOf(after[0]) in Identities(before) { EnabledMeaning(before, after[0]); }
      assert after[0] in after;
    }
  }

  lemma {:induction false} DistinctCount(outputs: seq<Output>)
    requires Unique(outputs)
    ensures |Identities(outputs)| == |outputs|
  {
    if outputs != [] {
      var rest := outputs[1..];
      DistinctCount(rest);
      assert outputs == [outputs[0]] + rest;
      FirstIsAlone(outputs);
      assert Identities(outputs) == {IdentityOf(outputs[0])} + Identities(rest);
    }
  }

  lemma EqualBySize<T>(a: set<T>, b: set<T>)
    requires a <= b && |a| == |b|
    ensures a == b
  {
    forall x | x in b ensures x in a {
      if x !in a {
        SubsetSize(a, b - {x});
        assert false;
      }
    }
  }

  lemma {:induction false} SubsetSize<T>(a: set<T>, b: set<T>)
    requires a <= b
    ensures |a| <= |b|
  {
    if a != {} {
      var x :| x in a;
      SubsetSize(a - {x}, b - {x});
    }
  }

  /** The verification of a rollback: equal lengths and unique identities make the check a bijection. */
  lemma SameEnabledMeaning(before: seq<Output>, after: seq<Output>)
    requires Unique(before) && Unique(after)
    ensures SameEnabledOutputs(before, after) == Ok(true) <==>
              Identities(before) == Identities(after) && Enabled(before) == Enabled(after)
  {
    DistinctCount(before);
    DistinctCount(after);
    SameEnabledFromMeaning(before, after);
    if SameEnabledOutputs(before, after) == Ok(true) {
      EqualBySize(Identities(after), Identities(before));
      forall i | i in Enabled(before) ensures i in Enabled(after) {
        assert i in Identities(before);
        var o :| o in after && IdentityOf(o) == i;
      }
    }
    if Identities(before) == Identities(after) && Enabled(before) == Enabled(after) {
      forall o | o in after
        ensures IdentityOf(o) in Identities(before) && (o.enabled <==> IdentityOf(o) in Enabled(before))
      {
        assert IdentityOf(o) in Identities(after);
        if IdentityOf(o) in Enabled(after) {
          var e :| e in after && e.enabled && IdentityOf(e) == IdentityOf(o);
          var i :| 0 <= i < |after| && after[i] == o;
          var j :| 0 <= j < |after| && after[j] == e;
          assert i == j;
        }
      }
    }
  }

  lemma UniqueCheck(outputs: seq<Output>)
    ensures IsUnique(outputs) <==> Unique(outputs)
  {
  }

  // ---- The server -------------------------------------------------------------------

  function WithEnabled(outputs: seq<Output>, id: nat, enabled: bool): (r: seq<Output>)
    ensures |r| == |outputs|
    ensures forall i :: 0 <= i < |outputs| ==> r[i] == if outputs[i].id == id then outputs[i].(enabled := enabled)
                                                         else outputs[i]
  {
    seq(|outputs|, i requires 0 <= i < |outputs| => if outputs[i].id == id then outputs[i].(enabled := enabled)
                                                      else outputs[i])
  }

  class Server {
    var outputs: seq<Output>
    /** The server keeps its ids and changes only what a command asks for. */
    const stable: bool
    /** Every list it answered with, and its outputs after every command. */
    ghost var readbacks: seq<seq<Output>>
    ghost var moments: seq<seq<Output>>
    /** How many commands were refused, left unanswered or cut off by closing their connection. */
    ghost var faults: nat

    constructor (outputs: seq<Output>, stable: bool)
      ensures this.outputs == outputs && this.stable == stable && readbacks == [] && moments == [] && faults == 0
    {
      this.outputs, this.stable := outputs, stable;
      readbacks, moments, faults := [], [], 0;
    }

    method List() returns (r: Result<seq<Output>, Failure>)
      modifies this
      ensures stable ==> outputs == old(outputs)
      ensures moments == old(moments)
      ensures r.Ok? ==>
                readbacks == old(readbacks) + [r.value] && faults == old(faults) && (stable ==> r.value == outputs)
      ensures r.Err? ==>
                readbacks == old(readbacks) && faults == old(faults) + 1 && r.error in {Refused, Unanswered, Dropped}
    {
      if !stable { var any: seq<Output> := *; outputs := any; }
      if {
        case true => readbacks := readbacks + [outputs]; r := Ok(outputs);
        case true => faults := faults + 1; r := Err(Refused);
        case true => faults := faults + 1; r := Err(Unanswered);
        case true => faults := faults + 1; r := Err(Dropped);
      }
    }

    /** `enableoutput` or `disableoutput`; a command that fails may have been carried out. */
    method SetEnabled(id: nat, enabled: bool) returns (r: Result<(), Failure>)
      modifies this
      ensures stable ==> outputs == old(outputs) || outputs == WithEnabled(old(outputs), id, enabled)
      ensures stable && r.Ok? ==> outputs == WithEnabled(old(outputs), id, enabled)
      ensures moments == old(moments) + [outputs] && readbacks == old(readbacks)
      ensures r.Ok? ==> faults == old(faults)
      ensures r.Err? ==> faults == old(faults) + 1 && r.error in {Refused, Unanswered, Dropped}
    {
      var carriedOut: bool := *;
      if carriedOut { outputs := WithEnabled(outputs, id, enabled); }
      if {
        case carriedOut => r := Ok(());
        case true => faults := faults + 1; r := Err(Refused);
        case true => faults := faults + 1; r := Err(Unanswered);
        case true => faults := faults + 1; r := Err(Dropped);
      }
      if !stable { var any: seq<Output> := *; outputs := any; }
      moments := moments + [outputs];
    }
  }

  /** The last list the server answered with. */
  ghost function LastReadback(readbacks: seq<seq<Output>>): seq<Output>
    requires readbacks != []
  {
    readbacks[|readbacks| - 1]
  }

  ghost predicate Extends(now: seq<seq<Output>>, was: seq<seq<Output>>) {
    |now| >= |was| && now[..|was|] == was
  }

  /** A server that keeps its ids, and has the outputs of the snapshot. */
  ghost predicate Steady(server: Server, outputs: seq<Output>, before: seq<Output>)
  {
    server.stable && outputs == before && DistinctIds(before)
  }

  /** A server that keeps its ids, with distinct ids and identities, one of which is the wanted one. */
  ghost predicate Dependable(server: Server, outputs: seq<Output>, wanted: Identity) {
    server.stable && DistinctIds(outputs) && Unique(outputs) && wanted in Identities(outputs)
  }

  /** No command reached the server. */
  ghost predicate Untouched(server: Server, outputs: seq<Output>, faults: nat)
    reads server
  {
    server.outputs == outputs && server.faults == faults
  }

  class Connection {
    const server: Server
    var tainted: bool
    /** A closed connection answers nothing more, and only a missed deadline makes the client open a fresh one. */
    var open: bool

    constructor (server: Server)
      ensures this.server == server && !tainted && open
    {
      this.server, tainted, open := server, false, true;
    }

    /** A command's own deadline taints the stream; the deadline of a whole phase is the caller's to judge. */
    method Outputs() returns (r: Result<seq<Output>, Failure>)
      modifies this, server
      ensures server.stable ==> server.outputs == old(server.outputs)
      ensures server.moments == old(server.moments)
      ensures r.Ok? ==>
                server.readbacks == old(server.readbacks) + [r.value] && (server.stable ==> r.value == server.outputs)
      ensures r.Ok? ==> server.faults == old(server.faults) && tainted == old(tainted) && old(open) && open
      ensures r.Err? ==> server.readbacks == old(server.readbacks)
      ensures r.Err? && old(open) ==> server.faults == old(server.faults) + 1 && (open <==> r.error != Dropped)
      ensures r.Err? && r.error != Unanswered ==> tainted == old(tainted)
      ensures !old(open) ==> r == Err(Dropped) && !open && Untouched(server, old(server.outputs), old(server.faults))
    {
      if !open { return Err(Dropped); }
      r := server.List();
      if r.Err? && r.error == Unanswered { tainted := *; }
      if r.Err? && r.error == Dropped { open := false; }
    }

    method SetOutputEnabled(id: nat, enabled: bool) returns (r: Result<(), Failure>)
      requires open
      modifies this, server
      ensures server.stable ==>
                server.outputs == old(server.outputs) || server.outputs == WithEnabled(old(server.outputs), id, enabled)
      ensures server.stable && r.Ok? ==> server.outputs == WithEnabled(old(server.outputs), id, enabled)
      ensures server.moments == old(server.moments) + [server.outputs] && server.readbacks == old(server.readbacks)
      ensures r.Ok? ==> server.faults == old(server.faults) && tainted == old(tainted) && open
      ensures r.Err? ==> server.faults == old(server.faults) + 1 && (open <==> r.error != Dropped)
      ensures r.Err? && r.error != Unanswered ==> tainted == old(tainted)
    {
      r := server.SetEnabled(id, enabled);
      if r.Err? && r.error == Unanswered { tainted := *; }
      if r.Err? && r.error == Dropped { open := false; }
    }

    /** Disable what else is enabled, then enable the target if it is not. */
    method Switch(before: seq<Output>, target: Output) returns (r: Result<(), Failure>)
      requires target in before && Unique(before) && open
      modifies this, server
      ensures server.readbacks == old(server.readbacks) && Extends(server.moments, old(server.moments))
      ensures r.Ok? ==> server.faults == old(server.faults)
      ensures r.Err? ==> server.faults == old(server.faults) + 1
      ensures open <==> !(r.Err? && r.error == Dropped)
      ensures r.Ok? || r.error != Unanswered ==> tainted == old(tainted)
      ensures Steady(server, old(server.outputs), before) ==>
                Quiet(server.moments, |old(server.moments)|, before, IdentityOf(target)) &&
                    SameShape(server.outputs, before)
      ensures Steady(server, old(server.outputs), before) ==> QuietNow(server.outputs, before, IdentityOf(target))
      ensures Steady(server, old(server.outputs), before) && r.Ok? ==> OnlyTarget(server.outputs, before, target)
    {
      ghost var start, steady := |server.moments|, Steady(server, server.outputs, before);
      var i := 0;
      while i < |before|
        invariant 0 <= i <= |before| && server.readbacks == old(server.readbacks)
        invariant server.faults == old(server.faults) && Extends(server.moments, old(server.moments))
        invariant open && tainted == old(tainted)
        invariant steady ==>
                  DisabledUpTo(server.outputs, before, target, i) &&
                  Quiet(server.moments, start, before, IdentityOf(target))
        invariant steady ==> QuietNow(server.outputs, before, IdentityOf(target))
      {
        if before[i].enabled && before[i].id != target.id {
          ghost var was := server.outputs;
          var done := SetOutputEnabled(before[i].id, false);
          if steady { DisableOne(was, server.outputs, before, target, i); }
          if done.Err? { return done; }
        }
        i := i + 1;
      }
      r := Ok(());
      if !target.enabled {
        ghost var was := server.outputs;
        r := SetOutputEnabled(target.id, true);
        if steady { EnableTarget(was, server.outputs, before, target); }
      } else if steady {
        AlreadyOn(server.outputs, before, target);
      }
    }

    /** Switch, and accept only a list read back with the target alone enabled. */
    method Change(before: seq<Output>, target: Output) returns (r: Result<seq<Output>, Failure>)
      requires target in before && Unique(before) && open
      modifies this, server
      ensures open <==> !(r.Err? && r.error == Dropped)
      ensures r.Ok? || r.error != Unanswered ==> tainted == old(tainted)
      ensures |server.readbacks| >= |old(server.readbacks)| && Extends(server.moments, old(server.moments))
      ensures server.faults >= old(server.faults)
      ensures old(server.readbacks) <= server.readbacks
      ensures r.Ok? ==>
                server.readbacks == old(server.readbacks) + [r.value] && (server.stable ==> r.value == server.outputs)
      ensures r.Ok? ==> Unique(r.value) && Enabled(r.value) == {IdentityOf(target)}
      ensures Steady(server, old(server.outputs), before) ==>
                Quiet(server.moments, |old(server.moments)|, before, IdentityOf(target)) &&
                    SameShape(server.outputs, before)
      ensures Steady(server, old(server.outputs), before) ==> QuietNow(server.outputs, before, IdentityOf(target))
      ensures Steady(server, old(server.outputs), before) && server.faults == old(server.faults) ==> r.Ok?
    {
      ghost var steady := Steady(server, server.outputs, before);
      var switched := Switch(before, target);
      if switched.Err? { return Err(switched.error); }
      r := Outputs();
      if r.Err? { return; }
      UniqueCheck(r.value);
      if steady { OnlyTargetLeft(server.outputs, before, target); }
      if !IsUnique(r.value) { return Err(Ambiguous); }
      OnlyEnabledMeaning(r.value, IdentityOf(target));
      if !IsOnlyEnabled(r.value, IdentityOf(target)) { return Err(Unverified); }
    }

    /** Give every current output the state its identity had, and accept only a list read back that agrees. */
    method RestoreOutputs(before: seq<Output>, ghost target: Identity) returns (r: Result<(), Failure>)
      requires Unique(before)
      modifies this, server
      ensures |server.readbacks| >= |old(server.readbacks)| && server.faults >= old(server.faults)
      ensures old(server.readbacks) <= server.readbacks
      ensures r.Ok? ==>
                |server.readbacks| > |old(server.readbacks)| && SameOutputs(LastReadback(server.readbacks), before)
      ensures r.Ok? && server.stable ==> SameOutputs(server.outputs, before)
      ensures old(open) && Restorable(server, old(server.outputs), before) && server.faults == old(server.faults) ==>
                r.Ok?
      ensures r.Ok? ==> open
      ensures !old(open) ==> r == Err(Dropped) && !open && Untouched(server, old(server.outputs), old(server.faults))
      ensures Extends(server.moments, old(server.moments))
      ensures Restorable(server, old(server.outputs), before) && QuietNow(old(server.outputs), before, target) ==>
                Quiet(server.moments, |old(server.moments)|, before, target)
    {
      ghost var restorable := Restorable(server, server.outputs, before);
      var listed := Outputs();
      if listed.Err? { return Err(listed.error); }
      var current := listed.value;
      UniqueCheck(current);
      if !IsUnique(current) { return Err(Ambiguous); }
      r := TurnOff(current, before, target);
      if r.Err? { return; }
      ghost var turnedOff := server.moments;
      r := TurnOn(current, before, target);
      assert forall k :: 0 <= k < |turnedOff| ==> server.moments[..|turnedOff|][k] == turnedOff[k];
      if r.Err? { return; }
      var restored := Outputs();
      if restored.Err? { return Err(restored.error); }
      UniqueCheck(restored.value);
      if restorable { RestoredSame(server.outputs, current, before); }
      if !IsUnique(restored.value) { return Err(Ambiguous); }
      SameEnabledMeaning(before, restored.value);
      var same := SameEnabledOutputs(before, restored.value);
      if same.Err? { return Err(same.error); }
      if !same.value { return Err(Unverified); }
    }

    /** First, what must be off. */
    method TurnOff(current: seq<Output>, before: seq<Output>, ghost target: Identity) returns (r: Result<(), Failure>)
      requires Unique(before) && open
      modifies this, server
      ensures server.readbacks == old(server.readbacks) && Extends(server.moments, old(server.moments))
      ensures server.faults >= old(server.faults) && (r.Ok? ==> open)
      ensures Restorable(server, current, before) && old(server.outputs) == current ==>
                && (r.Ok? ==> Rewritten(server.outputs, current, before, |current|, 0))
                && (server.faults == old(server.faults) ==> r.Ok?)
                && (QuietNow(current, before, target) ==> Quiet(server.moments, |old(server.moments)|, before, target))
    {
      ghost var restorable := Restorable(server, current, before) && server.outputs == current;
      ghost var start, quiet := |server.moments|, restorable && QuietNow(current, before, target);
      var i := 0;
      while i < |current|
        invariant 0 <= i <= |current| && server.readbacks == old(server.readbacks)
        invariant server.faults == old(server.faults) && open
        invariant restorable ==> Rewritten(server.outputs, current, before, i, 0)
        invariant Extends(server.moments, old(server.moments))
        invariant (quiet ==> Quiet(server.moments, start, before, target))
      {
        var wanted := OutputEnabled(before, current[i]);
        if restorable { EnabledOf(current, before, i); }
        if wanted.Err? { return Err(wanted.error); }
        if current[i].enabled && !wanted.value {
          ghost var was := server.outputs;
          r := SetOutputEnabled(current[i].id, false);
          if restorable { RewriteOff(was, server.outputs, current, before, i); }
          if quiet {
            RewriteQuiet(server.outputs, current, before, if server.outputs == was then i else i + 1, 0, target);
          }
          if r.Err? { return; }
        }
        i := i + 1;
      }
      r := Ok(());
    }

    /** Then, what must be on. */
    method TurnOn(current: seq<Output>, before: seq<Output>, ghost target: Identity) returns (r: Result<(), Failure>)
      requires Unique(before) && open
      modifies this, server
      ensures server.readbacks == old(server.readbacks) && Extends(server.moments, old(server.moments))
      ensures server.faults >= old(server.faults) && (r.Ok? ==> open)
      ensures Restorable(server, current, before) && Rewritten(old(server.outputs), current, before, |current|, 0) ==>
                && (r.Ok? ==> Rewritten(server.outputs, current, before, |current|, |current|))
                && (server.faults == old(server.faults) ==> r.Ok?)
                && (QuietNow(current, before, target) ==> Quiet(server.moments, |old(server.moments)|, before, target))
    {
      ghost var restorable := Restorable(server, current, before) &&
              Rewritten(server.outputs, current, before, |current|, 0);
      ghost var start, quiet := |server.moments|, restorable && QuietNow(current, before, target);
      var i := 0;
      while i < |current|
        invariant 0 <= i <= |current| && server.readbacks == old(server.readbacks)
        invariant server.faults == old(server.faults) && open
        invariant restorable ==> Rewritten(server.outputs, current, before, |current|, i)
        invariant Extends(server.moments, old(server.moments))
        invariant (quiet ==> Quiet(server.moments, start, before, target))
      {
        var wanted := OutputEnabled(before, current[i]);
        if restorable { EnabledOf(current, before, i); }
        if wanted.Err? { return Err(wanted.error); }
        if !current[i].enabled && wanted.value {
          ghost var was := server.outputs;
          r := SetOutputEnabled(current[i].id, true);
          if restorable { RewriteOn(was, server.outputs, current, before, i); }
          if quiet {
            RewriteQuiet(server.outputs, current, before, |current|, if server.outputs == was then i
                                                                       else i + 1, target);
          }
          if r.Err? { return; }
        }
        i := i + 1;
      }
      r := Ok(());
    }

    /** After an unanswered command the restoration runs on a fresh connection, which may not be had.
        After any other failure it runs on this one, though it may be closed; then nothing is put back. */
    method RollbackOutputs(before: seq<Output>, ghost target: Identity) returns (r: Result<(), Failure>)
      requires Unique(before)
      modifies this, server
      ensures |server.readbacks| >= |old(server.readbacks)| && server.faults >= old(server.faults)
      ensures old(server.readbacks) <= server.readbacks
      ensures r.Ok? ==>
                |server.readbacks| > |old(server.readbacks)| && SameOutputs(LastReadback(server.readbacks), before)
      ensures r.Ok? && server.stable ==> SameOutputs(server.outputs, before)
      ensures old(tainted || open) && Restorable(server, old(server.outputs), before) &&
              server.faults == old(server.faults) ==>
                r.Ok?
      ensures !old(tainted || open) ==>
                r == Err(Dropped) && !open && Untouched(server, old(server.outputs), old(server.faults))
      ensures if old(tainted) then open == old(open) else r.Ok? ==> open
      ensures Extends(server.moments, old(server.moments))
      ensures Restorable(server, old(server.outputs), before) && QuietNow(old(server.outputs), before, target) ==>
                Quiet(server.moments, |old(server.moments)|, before, target)
    {
      if tainted {
        var connected: bool := *;
        if !connected { server.faults := server.faults + 1; return Err(Unusable); }
        var recovery := new Connection(server);
        r := recovery.RestoreOutputs(before, target);
      } else {
        r := RestoreOutputs(before, target);
      }
    }

    /** Select the one output with the wanted identity, or put back what was enabled. */
    method SelectOutput(wanted: Identity) returns (r: Result<seq<Output>, SelectError>)
      modifies this, server
      ensures old(tainted) ==> r == Err(Rejected(Unusable)) && server.readbacks == old(server.readbacks)
      ensures !old(tainted) && !old(open) ==>
                r == Err(Rejected(Dropped)) && Untouched(server, old(server.outputs), old(server.faults))
      ensures r.Err? && r.error.Rejected? ==> server.moments == old(server.moments)
      ensures r.Ok? ==>
                server.readbacks != [] && r.value == LastReadback(server.readbacks) && Unique(r.value) &&
                Enabled(r.value) == {wanted}
      ensures r.Err? && r.error.Restored? ==>
                |server.readbacks| > |old(server.readbacks)| &&
                SameOutputs(LastReadback(server.readbacks), server.readbacks[|old(server.readbacks)|])
      ensures server.stable && r.Ok? ==> Enabled(server.outputs) == {wanted}
      ensures server.stable && r.Err? && r.error.Restored? ==> SameOutputs(server.outputs, old(server.outputs))
      // A change cut off by closing the connection is never put back, whatever the server does.
      ensures r.Err? && !r.error.Rejected? && r.error.cause == Dropped ==> r.error == NotRestored(Dropped, Dropped)
      ensures Dependable(server, old(server.outputs), wanted) && !old(tainted) && old(open) ==>
                && Quiet(server.moments, |old(server.moments)|, old(server.outputs), wanted)
                && (server.faults == old(server.faults) ==> r.Ok?)
      // One fault is recovered from unless it closed the connection after the snapshot had been read.
      ensures Dependable(server, old(server.outputs), wanted) && !old(tainted) && old(open)
              && server.faults <= old(server.faults) + 1 ==>
                (r.Err? && r.error.NotRestored? <==> !open && |server.readbacks| > |old(server.readbacks)|)
    {
      if tainted { return Err(Rejected(Unusable)); }
      var listed := Outputs();
      if listed.Err? { return Err(Rejected(listed.error)); }
      var before := listed.value;
      UniqueCheck(before);
      if !IsUnique(before) { return Err(Rejected(Ambiguous)); }
      UniqueOutputMeaning(before, wanted);
      var target := UniqueOutput(before, wanted);
      if target.Err? { return Err(Rejected(target.error)); }
      r := ChangeOrRollback(before, target.value);
    }

    /** The change, and the rollback when it fails; a timeout of either kind taints the stream. */
    method ChangeOrRollback(before: seq<Output>, target: Output) returns (r: Result<seq<Output>, SelectError>)
      requires target in before && Unique(before) && server.readbacks != [] && LastReadback(server.readbacks) == before
      requires !tainted && open
      modifies this, server
      ensures old(server.readbacks) <= server.readbacks && r != Err(Rejected(Unusable))
      ensures r.Err? && r.error.cause == Dropped ==> r.error == NotRestored(Dropped, Dropped)
      ensures (r.Err? ==> !r.error.Rejected?)
      ensures r.Ok? ==>
                r.value == LastReadback(server.readbacks) && Unique(r.value) && Enabled(r.value) == {IdentityOf(target)}
      ensures r.Err? && r.error.Restored? ==>
                |server.readbacks| > |old(server.readbacks)| && SameOutputs(LastReadback(server.readbacks), before)
      ensures server.stable && r.Ok? ==> Enabled(server.outputs) == {IdentityOf(target)}
      ensures server.stable && r.Err? && r.error.Restored? ==> SameOutputs(server.outputs, before)
      ensures server.faults >= old(server.faults)
      ensures Steady(server, old(server.outputs), before) ==>
                && Quiet(server.moments, |old(server.moments)|, before, IdentityOf(target))
                && (server.faults == old(server.faults) ==> r.Ok?)
                && (server.faults <= old(server.faults) + 1 ==> (r.Err? && r.error.NotRestored? <==> !open))
    {
      var change := Change(before, target);
      if change.Ok? { return Ok(change.value); }
      if change.error == Unanswered { tainted := true; }
      if Steady(server, old(server.outputs), before) { ShapeKept(server.outputs, before); }
      ghost var applied := server.moments;
      var rollback := RollbackOutputs(before, IdentityOf(target));
      assert forall k :: 0 <= k < |applied| ==> server.moments[..|applied|][k] == applied[k];
      r := if rollback.Ok? then Err(Restored(change.error)) else Err(NotRestored(change.error, rollback.error));
    }
  }

  const SPEAKERS := [Output(0, "a", "alsa", true), Output(1, "b", "alsa", false)]

  /** The old speaker was turned off, then the connection was closed: both stay silent. */
  method DropLeavesSilence(connection: Connection) returns (r: Result<(), Failure>)
    requires !connection.tainted && !connection.open
    requires connection.server.outputs == [SPEAKERS[0].(enabled := false), SPEAKERS[1]]
    modifies connection, connection.server
    ensures r == Err(Dropped) && Enabled(connection.server.outputs) == {} &&
              Enabled(SPEAKERS) == {IdentityOf(SPEAKERS[0])}
  {
    r := connection.RollbackOutputs(SPEAKERS, IdentityOf(SPEAKERS[1]));
    assert SPEAKERS[0] in SPEAKERS;
  }

  // ---- Moments of the apply phase ---------------------------------------------------

  /** Outputs before `i` other than the target are off; the rest is as it was. */
  ghost predicate DisabledUpTo(now: seq<Output>, before: seq<Output>, target: Output, i: nat)
    requires i <= |before|
  {
    && |now| == |before|
    && forall k :: 0 <= k < |before| ==> now[k] == if k < i && before[k].id != target.id
                                                     then before[k].(enabled := false) else before[k]
  }

  lemma EnabledShrinks(now: seq<Output>, before: seq<Output>)
    requires |now| == |before|
    requires forall k :: 0 <= k < |before| ==>
               IdentityOf(now[k]) == IdentityOf(before[k]) && (now[k].enabled ==> before[k].enabled)
    ensures Enabled(now) <= Enabled(before) && Identities(now) == Identities(before)
  {
    forall x | x in Enabled(now) ensures x in Enabled(before) {
      var o :| o in now && o.enabled && IdentityOf(o) == x;
      var k :| 0 <= k < |now| && now[k] == o;
      assert before[k] in before;
    }
    forall x ensures x in Identities(now) <==> x in Identities(before) {
      if x in Identities(now) {
        var o :| o in now && IdentityOf(o) == x;
        var k :| 0 <= k < |now| && now[k] == o;
        assert before[k] in before;
      }
      if x in Identities(before) {
        var o :| o in before && IdentityOf(o) == x;
        var k :| 0 <= k < |before| && before[k] == o;
        assert now[k] in now;
      }
    }
  }

  ghost predicate SameShape(now: seq<Output>, before: seq<Output>) {
    |now| == |before| && forall k :: 0 <= k < |before| ==>
                           now[k].id == before[k].id && IdentityOf(now[k]) == IdentityOf(before[k])
  }

  /** Only the target is on. */
  ghost predicate OnlyTarget(now: seq<Output>, before: seq<Output>, target: Output) {
    |now| == |before| && forall k :: 0 <= k < |before| ==> now[k] == before[k].(enabled := before[k].id == target.id)
  }

  /** From a moment on, no output is on that was off before, or the target is on alone. */
  ghost predicate Quiet(moments: seq<seq<Output>>, start: nat, before: seq<Output>, target: Identity) {
    forall k :: start <= k < |moments| ==> QuietNow(moments[k], before, target)
  }

  ghost predicate QuietNow(now: seq<Output>, before: seq<Output>, target: Identity) {
    Enabled(now) <= Enabled(before) || Enabled(now) == {target}
  }

  lemma DisableOne(was: seq<Output>, now: seq<Output>, before: seq<Output>, target: Output, i: nat)
    requires i < |before| && DisabledUpTo(was, before, target, i) && before[i].id != target.id && DistinctIds(before)
    requires now == was || now == WithEnabled(was, before[i].id, false)
    ensures now == WithEnabled(was, before[i].id, false) ==> DisabledUpTo(now, before, target, i + 1)
    ensures Enabled(now) <= Enabled(before) && SameShape(now, before)
  {
    EnabledShrinks(now, before);
  }

  lemma EnableTarget(was: seq<Output>, now: seq<Output>, before: seq<Output>, target: Output)
    requires DisabledUpTo(was, before, target, |before|) && target in before && DistinctIds(before) && !target.enabled
    requires now == was || now == WithEnabled(was, target.id, true)
    ensures QuietNow(now, before, IdentityOf(target))
    ensures SameShape(now, before)
    ensures now == WithEnabled(was, target.id, true) ==> OnlyTarget(now, before, target)
  {
    if now == was {
      EnabledShrinks(now, before);
    } else {
      EnabledAlone(now, before, target);
    }
    if now == WithEnabled(was, target.id, true) { EnabledAlone(now, before, target); }
  }

  lemma AlreadyOn(now: seq<Output>, before: seq<Output>, target: Output)
    requires DisabledUpTo(now, before, target, |before|) && target in before && DistinctIds(before) && target.enabled
    ensures OnlyTarget(now, before, target) && SameShape(now, before)
  {
    var t :| 0 <= t < |before| && before[t] == target;
    forall k | 0 <= k < |before| ensures now[k] == before[k].(enabled := before[k].id == target.id) {
      if before[k].id == target.id { assert k == t; }
    }
  }

  lemma EnabledAlone(now: seq<Output>, before: seq<Output>, target: Output)
    requires OnlyTarget(now, before, target) && target in before && DistinctIds(before)
    ensures Enabled(now) == {IdentityOf(target)}
  {
    var t :| 0 <= t < |before| && before[t] == target;
    assert now[t] in now && now[t].enabled;
    forall x | x in Enabled(now) ensures x == IdentityOf(target) {
      var o :| o in now && o.enabled && IdentityOf(o) == x;
      var k :| 0 <= k < |now| && now[k] == o;
      assert k == t;
    }
  }

  lemma OnlyTargetLeft(now: seq<Output>, before: seq<Output>, target: Output)
    requires OnlyTarget(now, before, target) && target in before && DistinctIds(before) && Unique(before)
    ensures Unique(now) && Enabled(now) == {IdentityOf(target)}
  {
    EnabledAlone(now, before, target);
    forall i, j | 0 <= i < j < |now| ensures IdentityOf(now[i]) != IdentityOf(now[j]) {
      assert IdentityOf(before[i]) != IdentityOf(before[j]);
    }
  }

  lemma ShapeKept(now: seq<Output>, before: seq<Output>)
    requires SameShape(now, before) && DistinctIds(before) && Unique(before)
    ensures DistinctIds(now) && Unique(now) && Identities(now) == Identities(before)
  {
    forall i, j | 0 <= i < j < |now| ensures IdentityOf(now[i]) != IdentityOf(now[j]) && now[i].id != now[j].id {
      assert IdentityOf(before[i]) != IdentityOf(before[j]) && before[i].id != before[j].id;
    }
    forall x ensures x in Identities(now) <==> x in Identities(before) {
      if x in Identities(now) {
        var o :| o in now && IdentityOf(o) == x;
        var k :| 0 <= k < |now| && now[k] == o;
        assert before[k] in before;
      }
      if x in Identities(before) {
        var o :| o in before && IdentityOf(o) == x;
        var k :| 0 <= k < |before| && before[k] == o;
        assert now[k] in now;
      }
    }
  }

  // ---- Restoration ------------------------------------------------------------------

  /** Unique identities, the same identities, and the same ones enabled. */
  ghost predicate SameOutputs(now: seq<Output>, before: seq<Output>) {
    Unique(now) && Identities(now) == Identities(before) && Enabled(now) == Enabled(before)
  }

  /** A server that keeps its ids and has exactly the identities of the snapshot, in any state. */
  ghost predicate Restorable(server: Server, outputs: seq<Output>, before: seq<Output>) {
    server.stable && DistinctIds(outputs) && Unique(outputs) && Identities(outputs) == Identities(before)
  }

  /** The first `off` outputs that must be off are off, and the first `on` that must be on are on. */
  ghost predicate Rewritten(now: seq<Output>, current: seq<Output>, before: seq<Output>, off: nat, on: nat)
    requires off <= |current| && on <= |current|
  {
    && |now| == |current|
    && forall k :: 0 <= k < |current| ==>
         now[k] == Rewrote(current[k], IdentityOf(current[k]) in Enabled(before), k < off, k < on)
  }

  ghost function Rewrote(o: Output, wanted: bool, off: bool, on: bool): Output {
    o.(enabled := (o.enabled && (wanted || !off)) || (wanted && on))
  }

  lemma EnabledOf(current: seq<Output>, before: seq<Output>, i: nat)
    requires i < |current| && Unique(before) && Identities(current) == Identities(before)
    ensures OutputEnabled(before, current[i]) == Ok(IdentityOf(current[i]) in Enabled(before))
  {
    assert current[i] in current;
    assert IdentityOf(current[i]) in Identities(current);
    EnabledMeaning(before, current[i]);
  }

  lemma RewriteOff(was: seq<Output>, now: seq<Output>, current: seq<Output>, before: seq<Output>, i: nat)
    requires i < |current| && DistinctIds(current) && Rewritten(was, current, before, i, 0)
    requires IdentityOf(current[i]) !in Enabled(before)
    ensures now == WithEnabled(was, current[i].id, false) ==> Rewritten(now, current, before, i + 1, 0)
  {
    if now == WithEnabled(was, current[i].id, false) {
      forall k | 0 <= k < |current| && k != i ensures current[k].id != current[i].id {}
    }
  }

  lemma RewriteOn(was: seq<Output>, now: seq<Output>, current: seq<Output>, before: seq<Output>, i: nat)
    requires i < |current| && DistinctIds(current) && Rewritten(was, current, before, |current|, i)
    requires IdentityOf(current[i]) in Enabled(before)
    ensures now == WithEnabled(was, current[i].id, true) ==> Rewritten(now, current, before, |current|, i + 1)
  {
    if now == WithEnabled(was, current[i].id, true) {
      forall k | 0 <= k < |current| && k != i ensures current[k].id != current[i].id {}
    }
  }

  /** The restoration turns nothing on before what must be off is off, so it keeps the apply phase's promise. */
  lemma RewriteQuiet(now: seq<Output>, current: seq<Output>, before: seq<Output>, off: nat, on: nat, target: Identity)
    requires off <= |current| && on <= |current| && Rewritten(now, current, before, off, on)
    requires QuietNow(current, before, target)
    requires on == 0 || off == |current|
    ensures QuietNow(now, before, target)
  {
    forall x | x in Enabled(now) ensures x in Enabled(before) || x in Enabled(current) {
      var o :| o in now && o.enabled && IdentityOf(o) == x;
      var k :| 0 <= k < |now| && now[k] == o;
      assert current[k] in current;
    }
    if off == |current| {
      forall x | x in Enabled(now) ensures x in Enabled(before) {
        var o :| o in now && o.enabled && IdentityOf(o) == x;
        var k :| 0 <= k < |now| && now[k] == o;
      }
    } else if Enabled(current) == {target} && target !in Enabled(before) {
      forall x | x in Enabled(now) ensures x == target {
        var o :| o in now && o.enabled && IdentityOf(o) == x;
        var k :| 0 <= k < |now| && now[k] == o;
        assert current[k] in current && IdentityOf(current[k]) in Enabled(current);
      }
      assert Enabled(now) == {} || Enabled(now) == {target};
    }
  }

  lemma RestoredSame(now: seq<Output>, current: seq<Output>, before: seq<Output>)
    requires Rewritten(now, current, before, |current|, |current|) && Unique(current)
    requires Identities(current) == Identities(before)
    ensures SameOutputs(now, before)
  {
    forall k | 0 <= k < |now|
      ensures IdentityOf(now[k]) == IdentityOf(current[k]) &&
                (now[k].enabled <==> IdentityOf(now[k]) in Enabled(before))
    {
    }
    forall i, j | 0 <= i < j < |now| ensures IdentityOf(now[i]) != IdentityOf(now[j]) {
      assert IdentityOf(current[i]) != IdentityOf(current[j]);
    }
    forall x ensures x in Identities(now) <==> x in Identities(current) {
      if x in Identities(now) {
        var o :| o in now && IdentityOf(o) == x;
        var k :| 0 <= k < |now| && now[k] == o;
        assert current[k] in current;
      }
      if x in Identities(current) {
        var o :| o in current && IdentityOf(o) == x;
        var k :| 0 <= k < |current| && current[k] == o;
        assert now[k] in now;
      }
    }
    forall x ensures x in Enabled(now) <==> x in Enabled(before) {
      if x in Enabled(now) {
        var o :| o in now && o.enabled && IdentityOf(o) == x;
        var k :| 0 <= k < |now| && now[k] == o;
      }
      if x in Enabled(before) {
        assert x in Identities(before);
        var o :| o in now && IdentityOf(o) == x;
        var k :| 0 <= k < |now| && now[k] == o;
        assert now[k].enabled;
      }
    }
  }
}
