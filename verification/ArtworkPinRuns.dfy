/** Which selected artwork survives every interleaving of stores and maintenance, and exactly how
    promptly a selection has to reach the database for that. */
module ArtworkPinRuns {
  import opened Basics
  import opened ArtworkPins

  ghost predicate Run(run: seq<State>, steps: seq<Step>) {
    && |run| == |steps| + 1 && Start(run[0])
    && forall i :: 0 <= i < |steps| ==> Next(run[i], steps[i], run[i + 1])
  }

  /** Step `i` is the return of a `put_pinned` of `p`. */
  ghost predicate ReturnsAt(run: seq<State>, steps: seq<Step>, i: nat, p: Path)
    requires Run(run, steps) && i < |steps|
  {
    && steps[i].Advance? && steps[i].id in run[i].stores
    && var store := run[i].stores[steps[i].id];
       store.pinned && store.at == Return && store.path == p
  }

  ghost predicate Present(s: State, p: Path) { p in s.pins && s.pins[p].hash in s.objects }

  lemma {:induction false} RunKeepsInv(run: seq<State>, steps: seq<Step>, n: nat)
    requires Run(run, steps) && n < |run|
    ensures Inv(run[n])
  {
    if n == 0 {
      StartInv(run[0]);
    } else {
      RunKeepsInv(run, steps, n - 1);
      assert Next(run[n - 1], steps[n - 1], run[n - 1 + 1]);
      StepKeepsInv(run[n - 1], steps[n - 1], run[n]);
    }
  }

  lemma {:induction false} KeptIsHeld(run: seq<State>, steps: seq<Step>, i: nat, n: nat, p: Path)
    requires Run(run, steps) && i < n < |run| && ReturnsAt(run, steps, i, p)
    requires forall j :: i < j <= n ==> Kept(run[j], p)
    ensures p in run[n].held
    decreases n
  {
    assert Next(run[n - 1], steps[n - 1], run[n - 1 + 1]);
    assert Kept(run[n], p);
    if i < n - 1 { KeptIsHeld(run, steps, i, n - 1, p); }
    HeldGrows(run[n - 1], steps[n - 1], run[n], p);
  }

  lemma HeldGrows(s: State, step: Step, s': State, p: Path)
    requires Next(s, step, s') && Kept(s', p)
    requires p in s.held || (step.Advance? &&
              s.stores[step.id] == Store(true, p, s.stores[step.id].hash, Return, s.stores[step.id].written))
    ensures p in s'.held
  {
    var next := Apply(s, step);
    assert p in next.held;
    assert Kept(next, p);
  }

  /** Once `put_pinned` has returned, alias and object exist for as long as the path is kept. */
  lemma PinSurvives(run: seq<State>, steps: seq<Step>, i: nat, n: nat, p: Path)
    requires Run(run, steps) && i < n < |run| && ReturnsAt(run, steps, i, p)
    requires forall j :: i < j <= n ==> Kept(run[j], p)
    ensures Present(run[n], p)
  {
    KeptIsHeld(run, steps, i, n, p);
    RunKeepsInv(run, steps, n);
    assert HeldInv(run[n], p) && PinInv(run[n], p);
  }

  // ---- How promptly a selection must be stored --------------------------------------

  /** `p` was written at time `w` and returned by step `i`; from `w + delay` on its key is selected;
      no other write of `p` returns; every pass reads it; and every pass lasts less than `duration`. */
  ghost predicate Promptly(run: seq<State>, steps: seq<Step>, i: nat, n: nat, p: Path, w: nat, delay: nat,
        duration: nat)
    requires Run(run, steps)
  {
    && i < n < |run| && ReturnsAt(run, steps, i, p) && run[i].now < w + delay
    && (forall j :: i < j <= n ==> p in run[j].put && run[j].put[p] == w)
    && (forall j :: i < j <= n && run[j].now >= w + delay ==> p.key in run[j].live)
    && (forall j :: i < j <= n ==> !Missed(run[j], p))
    && (forall j :: i < j <= n && run[j].pass.Some? ==> run[j].now < run[j].pass.value.start + duration)
  }

  /** The pass in progress took its live set from the database when it began. */
  lemma {:induction false} PassOrigin(run: seq<State>, steps: seq<Step>, n: nat) returns (b: nat)
    requires Run(run, steps) && n < |run| && run[n].pass.Some?
    ensures b < n && run[b].now == run[n].pass.value.start && run[b].live == run[n].pass.value.live
  {
    assert n > 0;
    assert Next(run[n - 1], steps[n - 1], run[n - 1 + 1]);
    if run[n - 1].pass.None? { b := n - 1; } else { b := PassOrigin(run, steps, n - 1); }
  }

  lemma {:induction false} TimeMoves(run: seq<State>, steps: seq<Step>, m: nat, n: nat)
    requires Run(run, steps) && m <= n < |run|
    ensures run[m].now <= run[n].now
    decreases n - m
  {
    if m < n {
      TimeMoves(run, steps, m, n - 1);
      assert Next(run[n - 1], steps[n - 1], run[n - 1 + 1]);
    }
  }

  lemma PromptIsKept(run: seq<State>, steps: seq<Step>, i: nat, n: nat, p: Path, w: nat, delay: nat, duration: nat,
        j: nat)
    requires Run(run, steps) && Promptly(run, steps, i, n, p, w, delay, duration) && i < j <= n
    requires delay <= GRACE && delay + duration <= GRACE + 1
    ensures Kept(run[j], p)
  {
    if run[j].now >= w + GRACE && run[j].pass.Some? {
      var b := PassOrigin(run, steps, j);
      if b <= i { TimeMoves(run, steps, b, i); }
    }
  }

  const LATE := Path("k", "jpg")

  /** The steps of a selection that is stored too late for the pass that is running: the pass began
      just before it and reaches the alias just after the grace period. */
  function LateSteps(delay: nat): seq<Step> {
    [Begin(0, true, LATE, "h"), Advance(0), Advance(0), Advance(0), Advance(0), Tick(delay), PassBegin, Select({"k"}),
     Scan(LATE), ScanDone, Tick(GRACE + 1), Judge(LATE, true), Delete(true)]
  }

  function LateStore(at: Point, written: nat): map<nat, Store> { map[0 := Store(true, LATE, "h", at, written)] }

  function LateIdle(now: nat, live: set<string>, pass: Option<Pass>, held: set<Path>): State {
    State(now, 1, live, {"h"}, map[LATE := Alias("h", 1)], map["h" := 1], map[], pass, map[LATE := 1], held)
  }

  function LatePass(delay: nat, scanned: map<Path, Alias>, condemned: Option<Path>, phase: Phase): Option<Pass> {
    Some(Pass(delay, {}, {LATE}, scanned, {}, {}, condemned, {}, phase))
  }

  function LateStates(delay: nat): seq<State> {
    var read := map[LATE := Alias("h", 1)];
    [State(1, 1, {}, {}, map[], map[], map[], None, map[], {}),
     State(1, 1, {}, {}, map[], map[], LateStore(WriteObject, 0), None, map[], {}),
     State(1, 1, {}, {"h"}, map[], map[], LateStore(WriteAlias, 0), None, map[], {}),
     State(1, 1, {}, {"h"}, read, map[], LateStore(RecordPin, 1), None, map[], {}),
     State(1, 1, {}, {"h"}, read, map["h" := 1], LateStore(Return, 1), None, map[], {}),
     LateIdle(1, {}, None, {LATE}),
     LateIdle(delay, {}, None, {LATE}),
     LateIdle(delay, {}, LatePass(delay, map[], None, Scanning), {LATE}),
     LateIdle(delay, {"k"}, LatePass(delay, map[], None, Scanning), {LATE}),
     LateIdle(delay, {"k"}, LatePass(delay, read, None, Scanning), {LATE}),
     LateIdle(delay, {"k"}, LatePass(delay, read, None, Judging), {LATE}),
     LateIdle(GRACE + 1, {"k"}, LatePass(delay, read, None, Judging), {}),
     LateIdle(GRACE + 1, {"k"}, LatePass(delay, read, Some(LATE), Judging), {}),
     LateIdle(GRACE + 1, {"k"}, Some(Pass(delay, {}, {LATE}, read, {}, {LATE}, None, {}, Judging)), {}).(pins := map[])]
  }

  lemma LateWrite(delay: nat, i: nat)
    requires i < 5
    ensures Next(LateStates(delay)[i], LateSteps(delay)[i], LateStates(delay)[i + 1])
  {
    if i == 3 {
      assert map[0 := Store(true, LATE, "h", RecordPin, 1)][0 := Store(true, LATE, "h", Return, 1)] ==
                LateStore(Return, 1);
    }
    if i == 4 { assert LateStore(Return, 1) - {0} == map[]; }
  }

  lemma LatePassSteps(delay: nat, i: nat)
    requires 1 < delay <= GRACE && 5 <= i < 8
    ensures Next(LateStates(delay)[i], LateSteps(delay)[i], LateStates(delay)[i + 1])
  {
    var read := map[LATE := Alias("h", 1)];
    assert read.Keys == {LATE} && map[][LATE := Alias("h", 1)] == read;
    var next := Apply(LateStates(delay)[i], LateSteps(delay)[i]);
    assert next.held == {LATE} && Kept(next, LATE);
    assert (set p | p in next.held && Kept(next, p)) == {LATE};
  }

  lemma LateScanSteps(delay: nat, i: nat)
    requires 1 < delay <= GRACE && 8 <= i < 10
    ensures Next(LateStates(delay)[i], LateSteps(delay)[i], LateStates(delay)[i + 1])
  {
    var read := map[LATE := Alias("h", 1)];
    assert read.Keys == {LATE} && map[][LATE := Alias("h", 1)] == read;
    var next := Apply(LateStates(delay)[i], LateSteps(delay)[i]);
    assert next.held == {LATE} && Kept(next, LATE);
    assert (set p | p in next.held && Kept(next, p)) == {LATE};
  }

  lemma LateRemoval(delay: nat, i: nat)
    requires 1 < delay <= GRACE && 10 <= i < 13
    ensures Next(LateStates(delay)[i], LateSteps(delay)[i], LateStates(delay)[i + 1])
  {
    var read, none: set<Path> := map[LATE := Alias("h", 1)], {};
    assert read - {LATE} == map[] && none + {LATE} == {LATE};
    var next := Apply(LateStates(delay)[i], LateSteps(delay)[i]);
    assert (set p | p in next.held && Kept(next, p)) == {};
  }

  lemma LateIsRun(delay: nat)
    requires 1 < delay <= GRACE
    ensures Run(LateStates(delay), LateSteps(delay))
  {
    forall i | 0 <= i < 13 ensures Next(LateStates(delay)[i], LateSteps(delay)[i], LateStates(delay)[i + 1]) {
      if i < 5 {
        LateWrite(delay, i);
      } else if i < 8 {
        LatePassSteps(delay, i);
      } else if i < 10 {
        LateScanSteps(delay, i);
      } else {
        LateRemoval(delay, i);
      }
    }
  }

  lemma LateTimes(delay: nat, duration: nat, j: nat)
    requires 1 < delay <= GRACE && duration <= GRACE && delay + duration > GRACE + 1 && 4 < j <= 13
    ensures var s := LateStates(delay)[j];
            && LATE in s.put && s.put[LATE] == 1
            && (s.now >= 1 + delay ==> "k" in s.live)
            && (s.pass.Some? ==> s.now < s.pass.value.start + duration)
  {
  }

  lemma LateSelectionLosesPin(delay: nat, duration: nat)
    requires 1 <= delay <= GRACE && duration <= GRACE && delay + duration > GRACE + 1
    ensures var run, steps := LateStates(delay), LateSteps(delay);
            Run(run, steps) && Promptly(run, steps, 4, 13, LATE, 1, delay, duration) && !Present(run[13], LATE)
  {
    LateIsRun(delay);
    var run, steps := LateStates(delay), LateSteps(delay);
    forall j | 4 < j <= 13
      ensures LATE in run[j].put && run[j].put[LATE] == 1 && (run[j].now >= 1 + delay ==> "k" in run[j].live)
      ensures run[j].pass.Some? ==> run[j].now < run[j].pass.value.start + duration
    {
      LateTimes(delay, duration, j);
    }
    assert steps[4] == Advance(0) && run[4].stores == LateStore(Return, 1) && run[4].now == 1;
    assert run[13].pins == map[];
  }

  // ---- A pin the pass cannot read ---------------------------------------------------

  function UnreadSteps(): seq<Step> {
    [Select({"k"}), Begin(0, true, LATE, "h"), Advance(0), Advance(0), Advance(0), Advance(0), Tick(GRACE + 1),
        PassBegin,
     Skip(LATE), ScanDone, JudgeDone, Evict("h", true)]
  }

  function UnreadPass(missed: set<Path>, phase: Phase): Option<Pass> {
    Some(Pass(GRACE + 1, {"k"}, {LATE}, map[], missed, {}, None, {}, phase))
  }

  function UnreadStates(): seq<State> {
    var empty := State(1, 1, {"k"}, {}, map[], map[], map[], None, map[], {});
    var read := map[LATE := Alias("h", 1)];
    var later := GRACE + 1;
    [empty.(live := {}),
     empty,
     empty.(stores := LateStore(WriteObject, 0)),
     empty.(objects := {"h"}, stores := LateStore(WriteAlias, 0)),
     empty.(objects := {"h"}, pins := read, stores := LateStore(RecordPin, 1)),
     empty.(objects := {"h"}, pins := read, recent := map["h" := 1], stores := LateStore(Return, 1)),
     LateIdle(1, {"k"}, None, {LATE}),
     LateIdle(later, {"k"}, None, {LATE}),
     LateIdle(later, {"k"}, UnreadPass({}, Scanning), {LATE}),
     LateIdle(later, {"k"}, UnreadPass({LATE}, Scanning), {}),
     LateIdle(later, {"k"}, UnreadPass({LATE}, Judging), {}),
     LateIdle(later, {"k"}, UnreadPass({LATE}, Evicting), {}),
     LateIdle(later, {"k"}, UnreadPass({LATE}, Evicting), {}).(objects := {})]
  }

  lemma UnreadWrite(i: nat)
    requires i < 6
    ensures Next(UnreadStates()[i], UnreadSteps()[i], UnreadStates()[i + 1])
  {
    if i == 4 {
      assert map[0 := Store(true, LATE, "h", RecordPin, 1)][0 := Store(true, LATE, "h", Return, 1)] ==
                LateStore(Return, 1);
    }
    if i == 5 { assert LateStore(Return, 1) - {0} == map[]; }
  }

  lemma UnreadPassSteps(i: nat)
    requires 6 <= i < 12
    ensures Next(UnreadStates()[i], UnreadSteps()[i], UnreadStates()[i + 1])
  {
    var none: set<Path> := {};
    assert none + {LATE} == {LATE} && map[LATE := Alias("h", 1)].Keys == {LATE} && {"h"} - {"h"} == {};
    var next := Apply(UnreadStates()[i], UnreadSteps()[i]);
    assert (set p | p in next.held && Kept(next, p)) == if i < 8 then {LATE} else {};
  }

  /** A pin selected before it was even written keeps its alias and loses its object, when one pass
      after the grace period cannot read the alias. */
  lemma UnreadPinLosesObject()
    ensures var run, steps := UnreadStates(), UnreadSteps();
            && Run(run, steps) && ReturnsAt(run, steps, 5, LATE) && LATE in run[12].pins && !Present(run[12], LATE)
            && forall j :: 0 < j <= 12 ==> LATE.key in run[j].live
  {
    forall i | 0 <= i < 12 ensures Next(UnreadStates()[i], UnreadSteps()[i], UnreadStates()[i + 1]) {
      if i < 6 { UnreadWrite(i); } else { UnreadPassSteps(i); }
    }
    var run, steps := UnreadStates(), UnreadSteps();
    assert steps[5] == Advance(0) && run[5].stores == LateStore(Return, 1);
    assert run[12].objects == {} && run[12].pins == map[LATE := Alias("h", 1)];
  }

  // ---- The bound --------------------------------------------------------------------

  ghost predicate AlwaysSurvives(delay: nat, duration: nat) {
    forall run, steps, i, n, p, w ::
      Run(run, steps) && Promptly(run, steps, i, n, p, w, delay, duration) ==> Present(run[n], p)
  }

  /** Selections stored within `delay` seconds of the write survive all passes shorter than
      `duration` exactly when the two together do not exceed the grace period by more than a tick. */
  lemma SurvivalBound(delay: nat, duration: nat)
    requires 1 <= delay <= GRACE && duration <= GRACE
    ensures AlwaysSurvives(delay, duration) <==> delay + duration <= GRACE + 1
  {
    if delay + duration <= GRACE + 1 {
      forall run, steps, i: nat, n: nat, p, w: nat
        | Run(run, steps) && Promptly(run, steps, i, n, p, w, delay, duration)
        ensures Present(run[n], p)
      {
        forall j | i < j <= n ensures Kept(run[j], p) {
          PromptIsKept(run, steps, i, n, p, w, delay, duration, j);
        }
        PinSurvives(run, steps, i, n, p);
      }
    } else {
      LateSelectionLosesPin(delay, duration);
    }
  }
}
