/** The revision protocol between the server and one managed host, with reports and replies that
    may be delayed, repeated or lost, hosts that crash, and files edited by others. */
module RevisionProtocol {
  import opened Basics
  import opened ManagedHost
  import opened ManagedRuns

  datatype Report = Report(attempted: nat, applied: nat)

  datatype Verdict = Accepted | FutureRevision

  /** The server's check of the revisions in a report. */
  function Validate(report: Report, desired: nat): Verdict {
    if report.applied > report.attempted || report.attempted > desired then FutureRevision else Accepted
  }

  /** A report is stored unless it is older than the stored one. */
  function Save(stored: Option<Report>, report: Report): Option<Report> {
    if stored.Some? && (stored.value.applied > report.applied || stored.value.attempted > report.attempted) then stored
    else Some(report)
  }

  function Payload(s: HostState): Report { Report(s.attempted, s.applied) }

  /** Messages stay in their sets, so any of them can arrive late, again, or never. */
  datatype System = System(
    host: Host,
    desired: nat,
    stored: Option<Report>,
    reports: set<Report>,
    validated: set<Report>,
    saved: set<Report>,
    replies: set<nat>,
    refused: bool)

  datatype Step =
    | SetDevice
    | LocalCall(request: Request, exit: Exit)
    | SendReport
    | ServerValidates(report: Report)
    | ServerSaves(report: Report)
    | ServerReplies(report: Report)
    | ApplyReply(reply: nat, snapshot: Report, request: Request, exit: Exit)
    | EditFiles

  /** A local request other than `apply`: the inventory the daemon asks for before each report. */
  ghost predicate Next(s: System, step: Step, s': System) {
    match step
    case SetDevice => s' == s.(desired := s.desired + 1)
    case LocalCall(request, exit) =>
      !request.Apply? && LocalSpec(s.host, request, s'.host, exit) && s' == s.(host := s'.host)
    case SendReport => s' == s.(reports := s.reports + {Payload(s.host.state)})
    case ServerValidates(report) =>
      report in s.reports &&
      s' == (match Validate(report, s.desired)
             case Accepted => s.(validated := s.validated + {report})
             case FutureRevision => s.(refused := true))
    case ServerSaves(report) =>
      report in s.validated &&
      s' == (var stored := Save(s.stored, report);
             if stored == Some(report) then s.(stored := stored, saved := s.saved + {report}) else s)
    case ServerReplies(report) => report in s.saved && s' == s.(replies := s.replies + {s.desired})
    case ApplyReply(reply, snapshot, request, exit) =>
      // The daemon acts on a reply only when it is newer than the report it sent for it.
      && reply in s.replies && snapshot in s.reports && reply > snapshot.attempted
      && request.Apply? && request.revision == Some(reply)
      && LocalSpec(s.host, request, s'.host, exit) && s' == s.(host := s'.host)
    case EditFiles => s' == s.(host := s.host.(fs := s'.host.fs))
  }

  /** One report is newer than another in neither revision. */
  ghost predicate NoNewer(r: Report, than: Report) { r.attempted <= than.attempted && r.applied <= than.applied }

  ghost predicate Inv(s: System) {
    && RevisionsInOrder(s.host)
    && s.host.state.attempted <= s.desired
    && (forall r :: r in s.reports ==>
          r.applied <= r.attempted <= s.host.state.attempted && r.applied <= s.host.state.applied)
    && s.validated <= s.reports && s.saved <= s.reports
    && (forall r, q :: r in s.reports && q in s.reports ==> NoNewer(r, q) || NoNewer(q, r))
    && (forall d :: d in s.replies ==> d <= s.desired)
    && (s.stored.Some? ==> s.stored.value in s.reports)
    && !s.refused
  }

  ghost predicate Start(s: System) {
    && s.host.state.applied <= s.host.state.attempted <= s.desired && s.host.attempts == []
    && s.stored == None && s.reports == {} && s.validated == {} && s.saved == {} && s.replies == {} && !s.refused
  }

  lemma StepKeepsInv(s: System, step: Step, s': System)
    requires Inv(s) && Next(s, step, s')
    ensures Inv(s')
    ensures s.host.state.attempted <= s'.host.state.attempted && s.desired <= s'.desired
    ensures s.stored.Some? ==>
              s'.stored.Some? && s.stored.value.attempted <= s'.stored.value.attempted &&
              s.stored.value.applied <= s'.stored.value.applied
  {
    match step
    case LocalCall(request, exit) => LocalKeepsRevisions(s.host, request, s'.host, exit);
    case ApplyReply(reply, snapshot, request, exit) => LocalKeepsRevisions(s.host, request, s'.host, exit);
    case _ =>
  }

  ghost predicate CanStep(s: System, s': System) { exists step :: Next(s, step, s') }

  ghost predicate Run(run: seq<System>) {
    |run| > 0 && Start(run[0]) && forall i :: 0 <= i < |run| - 1 ==> CanStep(run[i], run[i + 1])
  }

  lemma {:induction false} RunKeepsInv(run: seq<System>, n: nat)
    requires Run(run) && n < |run|
    ensures Inv(run[n])
  {
    if n > 0 {
      RunKeepsInv(run, n - 1);
      assert CanStep(run[n - 1], run[n - 1 + 1]);
      var step :| Next(run[n - 1], step, run[n]);
      StepKeepsInv(run[n - 1], step, run[n]);
    }
  }

  lemma {:induction false} RunMovesForward(run: seq<System>, m: nat, n: nat)
    requires Run(run) && m <= n < |run|
    ensures run[m].host.state.attempted <= run[n].host.state.attempted && run[m].desired <= run[n].desired
    ensures run[m].stored.Some? ==>
              && run[n].stored.Some? && run[m].stored.value.attempted <= run[n].stored.value.attempted
              && run[m].stored.value.applied <= run[n].stored.value.applied
    decreases n - m
  {
    if m < n {
      RunMovesForward(run, m, n - 1);
      RunKeepsInv(run, n - 1);
      assert CanStep(run[n - 1], run[n - 1 + 1]);
      var step :| Next(run[n - 1], step, run[n]);
      StepKeepsInv(run[n - 1], step, run[n]);
    }
  }

  /** A report is stored unless the stored one is newer in a revision; nothing else changes what is stored. */
  lemma SaveMeaning(stored: Option<Report>, report: Report)
    ensures Save(stored, report) == Some(report) <==>
              stored == None || stored == Some(report) || NoNewer(stored.value, report)
    ensures Save(stored, report) != Some(report) ==> Save(stored, report) == stored
  {
  }

  /** So no report that reaches the store is lost in a run: what is stored afterwards is newer in
      neither revision than any report the server has been given to store. */
  lemma {:induction false} StoredIsNewest(run: seq<System>, steps: seq<Step>, m: nat, n: nat)
    requires Run(run) && |steps| == |run| - 1 && forall i :: 0 <= i < |steps| ==> Next(run[i], steps[i], run[i + 1])
    requires m < n < |run| && steps[m].ServerSaves?
    ensures run[n].stored.Some? && NoNewer(steps[m].report, run[n].stored.value)
  {
    RunKeepsInv(run, m);
    assert Next(run[m], steps[m], run[m + 1]);
    SaveMeaning(run[m].stored, steps[m].report);
    RunMovesForward(run, m + 1, n);
  }

  /** In every run: applied, attempted and desired stay ordered, no revision is attempted twice, and
      the server's revision check accepts every report the host ever sent, whenever it arrives. */
  lemma RevisionSafety(run: seq<System>, n: nat)
    requires Run(run) && n < |run|
    ensures var s := run[n];
            && s.host.state.applied <= s.host.state.attempted <= s.desired
            && (forall i, j :: 0 <= i < j < |s.host.attempts| ==> s.host.attempts[i] != s.host.attempts[j])
            && !s.refused
    ensures forall m, r :: 0 <= m <= n && r in run[m].reports ==> Validate(r, run[n].desired) == Accepted
  {
    RunKeepsInv(run, n);
    forall m, r | 0 <= m <= n && r in run[m].reports ensures Validate(r, run[n].desired) == Accepted {
      RunKeepsInv(run, m);
      RunMovesForward(run, m, n);
    }
  }

  /** The server refuses exactly the reports that have applied more than they attempted, or attempted
      more than it ever asked for. */
  lemma ValidateMeaning(report: Report, desired: nat)
    ensures Validate(report, desired) == Accepted <==> report.applied <= report.attempted <= desired
  {
  }
}
