/** What every run of local requests keeps, whatever crashes and failures occur, and what becomes of
    files that others edit between requests. */
module ManagedRuns {
  import opened Basics
  import opened PlayerFiles
  import opened ManagedHost

  /** With no journal record the files are exactly the pair of the applied revision; with one they
      are the old or the new pair, unless a rollback copy was cut short. */
  ghost predicate Inv(first: Host, h: Host) {
    var origin := first.state.applied;
    && HasPair(first.fs)
    && origin in h.installed && h.installed[origin] == Pair(first.fs)
    && (forall r :: r in h.installed && r != origin ==> Matching(h.installed[r]))
    && (forall r :: r in h.installed ==> r <= h.state.attempted)
    && h.state.applied in h.installed
    && h.state.applied <= h.state.attempted
    && SameElsewhere(first.fs, h.fs)
    && match h.state.pending
       case None => HasPair(h.fs) && Pair(h.fs) == h.installed[h.state.applied] && !h.damaged
       case Some(p) =>
         p.previous == h.installed[h.state.applied] && Matching(p.intended) && (h.damaged || !ForeignTo(p, h.fs))
  }

  /** A host before its first request: nothing journalled, the original pair in place. */
  ghost predicate Initial(h: Host) {
    && h.state.pending.None? && h.state.applied <= h.state.attempted && HasPair(h.fs) && !h.damaged
    && h.installed == map[h.state.applied := Pair(h.fs)] && h.attempts == []
  }

  lemma RecoverKeepsInv(first: Host, h: Host, h': Host, exit: Exit)
    requires Inv(first, h) && RecoverSpec(h, h', exit)
    ensures Inv(first, h')
    ensures exit == Done ==> h'.state.pending.None?
  {
  }

  lemma InterruptedKeepsInv(first: Host, h: Host, revision: nat, p: Pending, h': Host)
    requires Inv(first, h) && Plannable(h, revision, p) && StillJournalled(h, revision, p, h')
    ensures Inv(first, h')
  {
    forall path | path != UNIT && path != CONFIG ensures Lookup(first.fs, path) == Lookup(h'.fs, path) {
      assert Lookup(h.fs, path) == Lookup(h'.fs, path);
    }
  }

  lemma CommitKeepsInv(first: Host, h: Host, revision: nat, p: Pending, h': Host)
    requires Inv(first, h) && Plannable(h, revision, p) && IsCommitted(h, revision, p, h')
    ensures Inv(first, h')
  {
    forall path | path != UNIT && path != CONFIG ensures Lookup(first.fs, path) == Lookup(h'.fs, path) {
      assert Lookup(h.fs, path) == Lookup(h'.fs, path);
    }
  }

  lemma ActKeepsInv(first: Host, h: Host, request: Request, h': Host, exit: Exit)
    requires Inv(first, h) && h.state.pending.None? && ActSpec(h, request, h', exit)
    ensures Inv(first, h')
  {
    if h' != h && request.Apply? && !RefuseSpec(h, request.revision, h') {
      var revision: nat := request.revision.value;
      var p :| AttemptSpec(h, revision, p, h', exit);
      if StillJournalled(h, revision, p, h') {
        InterruptedKeepsInv(first, h, revision, p, h');
      } else if IsCommitted(h, revision, p, h') {
        CommitKeepsInv(first, h, revision, p, h');
      }
    }
  }

  lemma LocalKeepsInv(first: Host, h: Host, request: Request, h': Host, exit: Exit)
    requires Inv(first, h) && LocalSpec(h, request, h', exit)
    ensures Inv(first, h')
  {
    var m: Host, r: Exit :| RecoverSpec(h, m, r)
      && if r == Done then ActSpec(m, request, h', exit)
         else h' == m && exit == if r == RuntimeFailure && request == ReadInventory then Done else r;
    RecoverKeepsInv(first, h, m, r);
    if r == Done { ActKeepsInv(first, m, request, h', exit); }
  }

  ghost predicate CanFollow(h: Host, h': Host) {
    exists request, exit :: LocalSpec(h, request, h', exit)
  }

  /** Successive hosts of a run; each request may fail or stop the host at any write. */
  ghost predicate LocalRun(run: seq<Host>) {
    && |run| > 0 && Initial(run[0])
    && forall i :: 0 <= i < |run| - 1 ==> CanFollow(run[i], run[i + 1])
  }

  lemma {:induction false} RunKeepsInv(run: seq<Host>, n: nat)
    requires LocalRun(run) && n < |run|
    ensures Inv(run[0], run[n])
  {
    if n > 0 {
      RunKeepsInv(run, n - 1);
      assert CanFollow(run[n - 1], run[n - 1 + 1]);
      var request, exit :| LocalSpec(run[n - 1], request, run[n], exit);
      LocalKeepsInv(run[0], run[n - 1], request, run[n], exit);
    }
  }

  /** Whenever nothing is journalled, unit and configuration are the pair of the applied revision:
      the original pair, or a pair whose configuration records that unit's digest and soundcard. */
  lemma QuiescentPairIsApplied(run: seq<Host>, n: nat)
    requires LocalRun(run) && n < |run| && run[n].state.pending.None?
    ensures var h := run[n];
            && HasPair(h.fs) && h.state.applied in h.installed && Pair(h.fs) == h.installed[h.state.applied]
            && (h.state.applied == run[0].state.applied ==> h.fs == run[0].fs)
            && (h.state.applied != run[0].state.applied || Matching(Pair(run[0].fs)) ==> Matching(Pair(h.fs)))
  {
    RunKeepsInv(run, n);
    if run[n].state.applied == run[0].state.applied { 
      forall path ensures Lookup(run[n].fs, path) == Lookup(run[0].fs, path) {
        if path == UNIT || path == CONFIG { assert Pair(run[n].fs) == Pair(run[0].fs); }
      }
      SameLookups(run[n].fs, run[0].fs);
    }
  }

  // ---- Interrupted recovery ---------------------------------------------------------

  ghost predicate RecoveryRun(hosts: seq<Host>, exits: seq<Exit>) {
    && |hosts| == |exits| + 1
    && forall i :: 0 <= i < |exits| ==> RecoverSpec(hosts[i], hosts[i + 1], exits[i])
  }

  /** How far a number of recoveries of `h` can have come. */
  ghost predicate Recovering(h: Host, p: Pending, now: Host) {
    || (&& now.state in {h.state, Unverified(h.state)}
        && now.fs in {h.fs, h.fs[UNIT := p.previous.unit], WithPair(h.fs, p.previous)}
        && (now.fs != h.fs ==> !ForeignTo(p, h.fs)))
    || (&& now.state == Cleared(h.state) && now.fs == WithPair(h.fs, p.previous)
        && now.service == p.service && !now.damaged && !ForeignTo(p, h.fs))
  }

  lemma PutBackTwice(fs: Files, v: Version)
    ensures WithPair(fs[UNIT := v.unit], v) == WithPair(fs, v) == WithPair(WithPair(fs, v), v) ==
              WithPair(fs, v)[UNIT := v.unit]
    ensures fs[UNIT := v.unit][UNIT := v.unit] == fs[UNIT := v.unit]
  {
  }

  lemma {:induction false} RecoveryProgress(hosts: seq<Host>, exits: seq<Exit>, n: nat)
    requires RecoveryRun(hosts, exits) && n <= |exits| && hosts[0].state.pending.Some?
    ensures Recovering(hosts[0], hosts[0].state.pending.value, hosts[n])
  {
    if n > 0 {
      RecoveryProgress(hosts, exits, n - 1);
      PutBackTwice(hosts[0].fs, hosts[0].state.pending.value.previous);
      assert RecoverSpec(hosts[n - 1], hosts[n - 1 + 1], exits[n - 1]);
    }
  }

  /** However often recovery is interrupted and started again, the run that finishes leaves what one
      uninterrupted recovery leaves. */
  lemma InterruptedRecoveryAgrees(hosts: seq<Host>, exits: seq<Exit>, direct: Host)
    requires RecoveryRun(hosts, exits) && exits != [] && exits[|exits| - 1] == Done
    requires hosts[0].state.pending.Some? && RecoverSpec(hosts[0], direct, Done)
    ensures var final := hosts[|exits|];
            final.state == direct.state && final.fs == direct.fs && final.service == direct.service
  {
    var n := |exits|;
    RecoveryProgress(hosts, exits, n - 1);
    PutBackTwice(hosts[0].fs, hosts[0].state.pending.value.previous);
    assert RecoverSpec(hosts[n - 1], hosts[n - 1 + 1], exits[n - 1]);
  }

  /** Files changed by someone else meanwhile are left alone, and the journal record stays. */
  lemma ForeignFilesAreNotOverwritten(h: Host, request: Request, h': Host, exit: Exit)
    requires LocalSpec(h, request, h', exit) && h.state.pending.Some? && ForeignTo(h.state.pending.value, h.fs)
    ensures h'.fs == h.fs && h'.state.pending == h.state.pending
    ensures exit == Done ==> request == ReadInventory
    ensures h'.attempts == h.attempts && h'.state.attempted == h.state.attempted
  {
    var m: Host, r: Exit :| RecoverSpec(h, m, r)
      && if r == Done then ActSpec(m, request, h', exit)
         else h' == m && exit == if r == RuntimeFailure && request == ReadInventory then Done else r;
  }

  // ---- Edits by others --------------------------------------------------------------

  datatype HostStep = Call(request: Request, exit: Exit) | Edit(fs: Files)

  /** A run of requests between which others may put any files in place. */
  ghost predicate SharedRun(run: seq<Host>, steps: seq<HostStep>) {
    && |run| == |steps| + 1
    && forall i :: 0 <= i < |steps| ==> Steps(run, steps, i)
  }

  ghost predicate Steps(run: seq<Host>, steps: seq<HostStep>, i: nat)
    requires i < |steps| < |run|
  {
    SharedStep(run[i], steps[i], run[i + 1])
  }

  ghost predicate SharedStep(h: Host, step: HostStep, h': Host) {
    match step
    case Call(request, exit) => LocalSpec(h, request, h', exit)
    case Edit(fs) => h' == h.(fs := fs)
  }

  /** The files after the last edit among some steps. */
  function LastEdit(fs: Files, steps: seq<HostStep>): Files {
    if steps == [] then fs
    else if steps[|steps| - 1].Edit? then steps[|steps| - 1].fs
    else LastEdit(fs, steps[..|steps| - 1])
  }

  lemma EditedLast(fs: Files, steps: seq<HostStep>, step: HostStep)
    ensures LastEdit(fs, steps + [step]) == if step.Edit? then step.fs else LastEdit(fs, steps)
  {
    assert (steps + [step])[..|steps|] == steps;
  }

  /** From one host to a later one nothing was recovered or attempted, and the files are as given. */
  ghost predicate LeftAlone(h: Host, fs: Files, h': Host) {
    && h'.fs == fs && h'.state.pending == h.state.pending
    && h'.attempts == h.attempts && h'.state.attempted == h.state.attempted
  }

  lemma StepLeavesForeign(p: Pending, h: Host, step: HostStep, h': Host)
    requires SharedStep(h, step, h') && h.state.pending == Some(p) && ForeignTo(p, h.fs)
    requires step.Edit? ==> ForeignTo(p, step.fs)
    ensures LeftAlone(h, if step.Edit? then step.fs else h.fs, h') && ForeignTo(p, h'.fs)
  {
    if step.Call? { ForeignFilesAreNotOverwritten(h, step.request, h', step.exit); }
  }

  lemma RunStep(run: seq<Host>, steps: seq<HostStep>, k: nat)
    requires SharedRun(run, steps) && k < |steps|
    ensures SharedStep(run[k], steps[k], run[k + 1])
  {
    assert Steps(run, steps, k);
  }

  lemma OneMoreStep(h: Host, fs: Files, between: seq<HostStep>, k: Host, step: HostStep, k': Host)
    requires LeftAlone(h, LastEdit(fs, between), k) && LeftAlone(k, if step.Edit? then step.fs else k.fs, k')
    ensures LeftAlone(h, LastEdit(fs, between + [step]), k')
  {
    EditedLast(fs, between, step);
  }

  /** While a change is journalled and the files are not the ones it knows, no number of requests
      touches them: they stay as they were last edited, the record stays, and nothing is attempted. */
  lemma {:induction false} ForeignFilesStay(run: seq<Host>, steps: seq<HostStep>, m: nat, n: nat)
    requires SharedRun(run, steps) && m <= n < |run| && run[m].state.pending.Some?
    requires ForeignTo(run[m].state.pending.value, run[m].fs)
    requires forall k :: m <= k < n && steps[k].Edit? ==> ForeignTo(run[m].state.pending.value, steps[k].fs)
    ensures LeftAlone(run[m], LastEdit(run[m].fs, steps[m..n]), run[n])
    ensures ForeignTo(run[m].state.pending.value, run[n].fs)
    decreases n - m
  {
    if m < n {
      var p, before, step, after := run[m].state.pending.value, run[n - 1], steps[n - 1], run[n];
      ForeignFilesStay(run, steps, m, n - 1);
      RunStep(run, steps, n - 1);
      assert steps[m..n] == steps[m..n - 1] + [step];
      StepLeavesForeign(p, before, step, after);
      OneMoreStep(run[m], run[m].fs, steps[m..n - 1], before, step, after);
    }
  }

  // ---- Revisions --------------------------------------------------------------------

  ghost predicate StrictlyIncreasing(s: seq<nat>) {
    forall i, j :: 0 <= i < j < |s| ==> s[i] < s[j]
  }

  ghost predicate RevisionsInOrder(h: Host) {
    && h.state.applied <= h.state.attempted
    && StrictlyIncreasing(h.attempts)
    && forall i :: 0 <= i < |h.attempts| ==> h.attempts[i] <= h.state.attempted
  }

  lemma RecoverKeepsRevisions(h: Host, h': Host, exit: Exit)
    requires RecoverSpec(h, h', exit)
    ensures h'.state.attempted == h.state.attempted && h'.state.applied == h.state.applied && h'.attempts == h.attempts
  {
  }

  lemma ActKeepsRevisions(h: Host, request: Request, h': Host, exit: Exit)
    requires RevisionsInOrder(h) && ActSpec(h, request, h', exit)
    ensures RevisionsInOrder(h') && h.state.attempted <= h'.state.attempted && h.state.applied <= h'.state.applied
    ensures h'.state.attempted != h.state.attempted ==> request.Apply? && request.revision == Some(h'.state.attempted)
    ensures h'.attempts == h.attempts || h'.attempts == h.attempts + [h'.state.attempted]
    ensures request.Apply? && exit == Done ==> request.revision.Some? && request.revision.value <= h'.state.attempted
  {
    if request.Apply? && Valid(request.revision) && exists p :: AttemptSpec(h, request.revision.value, p, h', exit) {
      var revision: nat := request.revision.value;
      var p :| AttemptSpec(h, revision, p, h', exit);
      assert h'.state.attempted == revision;
    }
  }

  /** A request moves the revisions forward or not at all, and only to its own revision. */
  lemma LocalKeepsRevisions(h: Host, request: Request, h': Host, exit: Exit)
    requires RevisionsInOrder(h) && LocalSpec(h, request, h', exit)
    ensures RevisionsInOrder(h') && h.state.attempted <= h'.state.attempted && h.state.applied <= h'.state.applied
    ensures h'.state.attempted != h.state.attempted ==> request.Apply? && request.revision == Some(h'.state.attempted)
    ensures h'.attempts == h.attempts || h'.attempts == h.attempts + [h'.state.attempted]
    ensures request.Apply? && exit == Done ==> request.revision.Some? && request.revision.value <= h'.state.attempted
  {
    var m: Host, r: Exit :| RecoverSpec(h, m, r)
      && if r == Done then ActSpec(m, request, h', exit)
         else h' == m && exit == if r == RuntimeFailure && request == ReadInventory then Done else r;
    RecoverKeepsRevisions(h, m, r);
    if r == Done { ActKeepsRevisions(m, request, h', exit); }
  }
}
