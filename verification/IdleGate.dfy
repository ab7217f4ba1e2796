/** The controller that may cut USB power to an idle DAC. */
module IdleGate {
  import opened Basics

  datatype Policy = Policy(enabled: bool, idleSeconds: int)

  datatype PlayState = Playing | Idle | Unknown

  /** One turn of the main loop: a poll that reached the controller, which may have raised on the way
      out, or a turn that failed before. */
  datatype Event =
    | Poll(policy: Option<Policy>, states: map<string, PlayState>, now: real, raised: bool)
    | Failed

  /** The controller's fields. */
  datatype Gate = Gate(idleSeconds: int, sources: Option<set<string>>, since: Option<real>)

  predicate AllIdle(states: map<string, PlayState>) {
    states != map[] && forall s | s in states :: states[s] == Idle
  }

  predicate SomePlaying(states: map<string, PlayState>) { exists s | s in states :: states[s] == Playing }

  /** `IdleGate.observe`: the fields after it, and the command it asks for. */
  function Observe(g: Gate, states: map<string, PlayState>, now: real): (Gate, Option<bool>) {
    var since := if g.sources != Some(states.Keys) then None else g.since;
    var sources := Some(states.Keys);
    if SomePlaying(states) then (Gate(g.idleSeconds, sources, None), Some(true))
    else if !AllIdle(states) then (Gate(g.idleSeconds, sources, None), None)
    else
      var start := if since == None || now < since.value then now else since.value;
      (Gate(g.idleSeconds, sources, Some(start)), if now - start >= g.idleSeconds as real then Some(false) else None)
  }

  /** `Controller.step`; a delay that is not positive makes no gate. */
  function Step(gate: Option<Gate>, policy: Option<Policy>, states: map<string, PlayState>,
        now: real): (Option<Gate>, Option<bool>) {
    if policy == None then (None, None)
    else if !policy.value.enabled then (None, Some(true))
    else if (gate == None || gate.value.idleSeconds != policy.value.idleSeconds) && policy.value.idleSeconds <= 0
           then (None, None)
    else
      var g := if gate == None || gate.value.idleSeconds != policy.value.idleSeconds
                 then Gate(policy.value.idleSeconds, None, None) else gate.value;
      var (g', command) := Observe(g, states, now);
      (Some(g'), command)
  }

  /** The gate after a history; any exception drops it. */
  function GateAfter(history: seq<Event>): Option<Gate> {
    if history == [] then None
    else
      match history[|history| - 1]
      case Failed => None
      case Poll(policy, states, now, raised) =>
        if raised then None else Step(GateAfter(history[..|history| - 1]), policy, states, now).0
  }

  /** The command the last event gave the port: on, off or none. */
  function Command(history: seq<Event>): Option<bool>
    requires history != []
  {
    match history[|history| - 1]
    case Failed => None
    case Poll(policy, states, now, _) => Step(GateAfter(history[..|history| - 1]), policy, states, now).1
  }

  lemma Snoc(history: seq<Event>, e: Event)
    ensures GateAfter(history + [e]) == if e.Failed? || e.raised then None
                                          else Step(GateAfter(history), e.policy, e.states, e.now).0
    ensures Command(history + [e]) == if e.Failed? then None else Step(GateAfter(history), e.policy, e.states, e.now).1
  {
    assert (history + [e])[..|history|] == history;
  }

  class IdleGateObject {
    const idleSeconds: int
    var sources: Option<set<string>>
    var since: Option<real>

    constructor (idleSeconds: int)
      ensures View() == Gate(idleSeconds, None, None)
    {
      this.idleSeconds, sources, since := idleSeconds, None, None;
    }

    function View(): Gate reads this { Gate(idleSeconds, sources, since) }

    method ObserveStates(states: map<string, PlayState>, now: real) returns (command: Option<bool>)
      modifies this
      ensures (View(), command) == Observe(old(View()), states, now)
    {
      if Some(states.Keys) != sources {
        since := None;
        sources := Some(states.Keys);
      }
      if SomePlaying(states) {
        since := None;
        return Some(true);
      }
      if !AllIdle(states) {
        since := None;
        return None;
      }
      if since == None || now < since.value { since := Some(now); }
      return if now - since.value >= idleSeconds as real then Some(false) else None;
    }
  }

  class Controller {
    var gate: IdleGateObject?
    ghost var history: seq<Event>

    ghost function View(): Option<Gate>
      reads this, gate
    {
      if gate == null then None else Some(gate.View())
    }

    ghost predicate Valid()
      reads this, gate
    {
      View() == GateAfter(history)
    }

    constructor ()
      ensures Valid() && history == []
    {
      gate, history := null, [];
    }

    /** The port's `set_enabled`, which may raise. */
    method SetEnabled(enabled: bool) returns (raised: bool) { raised := *; }

    /** A turn of the main loop: observations may fail, and so may the step or the port. */
    method Turn(failed: bool, policy: Option<Policy>, states: map<string, PlayState>,
          now: real) returns (command: Option<bool>)
      requires Valid()
      modifies this, gate
      ensures Valid() && history != [] && command == Command(history)
      ensures failed ==> history == old(history) + [Failed]
      ensures !failed ==>
                history == old(history) + [Poll(policy, states, now, true)] ||
                history == old(history) + [Poll(policy, states, now, false)]
    {
      if failed {
        gate := null;
        Snoc(history, Failed);
        history := history + [Failed];
        return None;
      }
      var raised: bool;
      command, raised := RunStep(policy, states, now);
      if raised { gate := null; }
      Snoc(history, Poll(policy, states, now, raised));
      history := history + [Poll(policy, states, now, raised)];
    }

    method RunStep(policy: Option<Policy>, states: map<string, PlayState>, now: real) returns (command: Option<bool>,
          raised: bool)
      modifies this, gate
      ensures history == old(history) && (gate != null && gate != old(gate) ==> fresh(gate))
      ensures command == Step(old(View()), policy, states, now).1
      ensures !raised ==> View() == Step(old(View()), policy, states, now).0
    {
      command, raised := None, false;
      if policy == None {
        gate := null;
        return;
      }
      if !policy.value.enabled {
        gate, command := null, Some(true);
        raised := SetEnabled(true);
        return;
      }
      if gate == null || gate.idleSeconds != policy.value.idleSeconds {
        if policy.value.idleSeconds <= 0 { return None, true; }
        gate := new IdleGateObject(policy.value.idleSeconds);
      }
      command := gate.ObserveStates(states, now);
      if command.Some? { raised := SetEnabled(command.value); }
    }
  }

  // ---- What the two fields stand for ------------------------------------------------

  /** A poll that keeps a run of idleness going. */
  ghost predicate Continues(e: Event, seconds: int, sources: set<string>) {
    && e.Poll? && e.policy == Some(Policy(true, seconds))
    && e.states.Keys == sources && sources != {} && forall s :: s in e.states ==> e.states[s] == Idle
  }

  ghost predicate UnbrokenFrom(history: seq<Event>, i: nat, seconds: int, sources: set<string>) {
    forall j :: i <= j < |history| ==> Continues(history[j], seconds, sources) && !history[j].raised
  }

  /** `since` is the time of a poll that began, or restarted, the current run, and the least one in it. */
  lemma {:induction false} SinceIsInRun(history: seq<Event>)
    ensures var g := GateAfter(history);
            g.Some? ==>
              && g.value.idleSeconds > 0
              && (g.value.since.Some? ==> g.value.sources.Some? && exists i :: Began(history, i, g.value))
  {
    if history != [] {
      var n := |history| - 1;
      var front := history[..n];
      SinceIsInRun(front);
      var g, before := GateAfter(history), GateAfter(front);
      if g.Some? && g.value.since.Some? {
        if before.Some? && before.value.since == g.value.since && before.value.sources == g.value.sources &&
            before.value.idleSeconds == g.value.idleSeconds {
          var i: nat :| Began(front, i, before.value);
          assert forall j :: i <= j < n ==> front[j] == history[j];
          assert Began(history, i, g.value);
        } else {
          assert Began(history, n, g.value);
        }
      }
    }
  }

  ghost predicate Began(history: seq<Event>, i: nat, g: Gate)
    requires g.since.Some? && g.sources.Some?
  {
    && i < |history| && UnbrokenFrom(history, i, g.idleSeconds, g.sources.value)
    && history[i].now == g.since.value
    && forall j :: i <= j < |history| ==> history[j].now >= g.since.value
  }

  /** And no poll of the run is earlier than `since`. */
  lemma {:induction false} SinceIsLeast(history: seq<Event>, i: nat, seconds: int, sources: set<string>)
    requires i < |history| && seconds > 0 && UnbrokenFrom(history, i, seconds, sources)
    ensures var g := GateAfter(history);
            g.Some? && g.value.idleSeconds == seconds && g.value.sources == Some(sources) && g.value.since.Some? &&
                g.value.since.value <= history[i].now
    decreases |history|
  {
    var n := |history| - 1;
    var last := history[n];
    assert Continues(last, seconds, sources) && !last.raised;
    assert !SomePlaying(last.states);
    if i < n {
      forall j | i <= j < n ensures Continues(history[..n][j], seconds, sources) && !history[..n][j].raised {
        assert history[..n][j] == history[j];
      }
      SinceIsLeast(history[..n], i, seconds, sources);
    }
  }

  /** The last polls, from `i` on, form an idle run long enough to cut the power. */
  ghost predicate LongIdle(history: seq<Event>, i: nat, seconds: int, sources: set<string>) {
    var n := |history| - 1;
    && i <= n && seconds > 0
    && Continues(history[i], seconds, sources)
    && (forall j :: i <= j <= n ==> Continues(history[j], seconds, sources) && history[j].now >= history[i].now)
    && (forall j :: i <= j < n ==> !history[j].raised)
    && history[n].now - history[i].now >= seconds as real
  }

  /** The port is commanded off exactly at the end of an unbroken run of polls under one enabled delay,
      all idle on the same sources, none timed before the run's first, spanning at least the delay. */
  lemma OffExactly(history: seq<Event>)
    requires history != []
    ensures Command(history) == Some(false) <==> exists i, seconds, sources :: LongIdle(history, i, seconds, sources)
  {
    if Command(history) == Some(false) { OffNeedsLongIdle(history); }
    forall i, seconds, sources | LongIdle(history, i, seconds, sources) ensures Command(history) == Some(false) {
      LongIdleTurnsOff(history, i, seconds, sources);
    }
  }

  lemma OffNeedsLongIdle(history: seq<Event>)
    requires history != [] && Command(history) == Some(false)
    ensures exists i, seconds, sources :: LongIdle(history, i, seconds, sources)
  {
    var n := |history| - 1;
    var last := history[n].(raised := false);
    var calm := history[..n] + [last];
    assert calm[..n] == history[..n];
    SinceIsInRun(calm);
    var g := GateAfter(calm).value;
    var i: nat :| Began(calm, i, g);
    forall j | i <= j <= n
      ensures Continues(history[j], g.idleSeconds, g.sources.value) && history[j].now >= history[i].now
    {
      assert Continues(calm[j], g.idleSeconds, g.sources.value) && calm[j].now >= calm[i].now;
    }
    forall j | i <= j < n ensures !history[j].raised { assert !calm[j].raised; }
    assert LongIdle(history, i, g.idleSeconds, g.sources.value);
  }

  lemma LongIdleTurnsOff(history: seq<Event>, i: nat, seconds: int, sources: set<string>)
    requires history != [] && LongIdle(history, i, seconds, sources)
    ensures Command(history) == Some(false)
  {
    var n := |history| - 1;
    var calm := history[..n] + [history[n].(raised := false)];
    assert calm[..n] == history[..n];
    forall j | i <= j < |calm| ensures Continues(calm[j], seconds, sources) && !calm[j].raised {
      assert Continues(history[j], seconds, sources);
    }
    SinceIsLeast(calm, i, seconds, sources);
  }

  /** With a clock that never goes back, the run may be measured from any of its polls on. */
  lemma OffExactlyWithSteadyClock(history: seq<Event>)
    requires history != []
    requires forall i, j :: 0 <= i < j < |history| && history[i].Poll? && history[j].Poll? ==>
               history[i].now <= history[j].now
    ensures Command(history) == Some(false) <==>
              exists i, seconds, sources :: Spans(history, i, seconds, sources)
  {
    OffExactly(history);
    forall i, seconds, sources
      ensures Spans(history, i, seconds, sources) <==> LongIdle(history, i, seconds, sources)
    {
    }
  }

  ghost predicate Spans(history: seq<Event>, i: nat, seconds: int, sources: set<string>) {
    var n := |history| - 1;
    && i <= n && seconds > 0 && UnbrokenFrom(history[..n], i, seconds, sources) &&
        Continues(history[n], seconds, sources)
    && Continues(history[i], seconds, sources) && history[n].now - history[i].now >= seconds as real
  }

  /** The port is commanded on exactly when a source plays under an enabled policy, or the policy is disabled. */
  lemma OnExactly(history: seq<Event>)
    requires history != []
    ensures var e := history[|history| - 1];
            Command(history) == Some(true) <==>
              e.Poll? && e.policy.Some? &&
                  (e.policy.value.enabled ==>
                     e.policy.value.idleSeconds > 0 && exists s :: s in e.states && e.states[s] == Playing)
  {
    SinceIsInRun(history[..|history| - 1]);
  }
}
