/** All-or-nothing installation of owned files and their service, over a machine that may
    stop, refuse or fail at every single operation. */
module PlayerFiles {
  import opened Basics

  /** A content digest, taken to identify the text it was computed from. */
  datatype Digest = Digest(of: string)

  datatype Config = Config(backend: string, dsp: bool, output: Option<string>, unitDigest: Option<Digest>, rest: string)

  /** What a file can hold: plain text, or a JSON object with the layout it was printed in. */
  datatype Content = Text(s: string) | Json(layout: nat, cfg: Config)

  type Files = map<string, Content>

  datatype Service = Service(active: bool, enabled: bool)

  datatype Command = Reload | Enable | Disable | Start | Restart | Stop

  /** How an operation ends: normally, with an exception, or never because the host went down. */
  datatype Outcome = Returned | Raised(clean: bool) | Crashed

  type Bundle = seq<(string, Content)>

  ghost predicate DistinctPaths(files: Bundle) {
    forall i, j :: 0 <= i < j < |files| ==> files[i].0 != files[j].0
  }

  /** The file system once every file of the bundle is in place. */
  function Install(fs: Files, files: Bundle): Files {
    if files == [] then fs
    else Install(fs, files[..|files| - 1])[files[|files| - 1].0 := files[|files| - 1].1]
  }

  predicate InBundle(files: Bundle, path: string) {
    exists i :: 0 <= i < |files| && files[i].0 == path
  }

  /** Every path still holds its old or already holds its new content. */
  ghost predicate Mixture(before: Files, files: Bundle, now: Files) {
    forall path :: Lookup(now, path) == Lookup(before, path) ||
        Lookup(now, path) == Lookup(Install(before, files), path)
  }

  ghost predicate OthersKept(before: Files, files: Bundle, now: Files) {
    forall path :: !InBundle(files, path) ==> Lookup(now, path) == Lookup(before, path)
  }

  lemma {:induction false} InstallLookup(fs: Files, files: Bundle, path: string)
    requires DistinctPaths(files)
    ensures !InBundle(files, path) ==> Lookup(Install(fs, files), path) == Lookup(fs, path)
    ensures forall i :: 0 <= i < |files| && files[i].0 == path ==> Lookup(Install(fs, files), path) == Some(files[i].1)
  {
    if files != [] {
      var front := files[..|files| - 1];
      InstallLookup(fs, front, path);
      if InBundle(front, path) {
        var i :| 0 <= i < |front| && front[i].0 == path;
        assert files[i].0 == path && files[i].0 != files[|front|].0;
      }
      forall i | 0 <= i < |files| && files[i].0 == path
        ensures Lookup(Install(fs, files), path) == Some(files[i].1)
      {
        if i < |front| { assert front[i] == files[i]; }
      }
    }
  }

  lemma PrefixIsMixture(before: Files, files: Bundle, n: nat)
    requires DistinctPaths(files) && n <= |files|
    ensures Mixture(before, files, Install(before, files[..n]))
    ensures OthersKept(before, files, Install(before, files[..n]))
  {
    forall path
      ensures Lookup(Install(before, files[..n]), path) == Lookup(before, path)
           || Lookup(Install(before, files[..n]), path) == Lookup(Install(before, files), path)
      ensures !InBundle(files, path) ==> Lookup(Install(before, files[..n]), path) == Lookup(before, path)
    {
      InstallLookup(before, files[..n], path);
      InstallLookup(before, files, path);
      if InBundle(files[..n], path) {
        var i :| 0 <= i < n && files[..n][i].0 == path;
        assert files[i].0 == path;
      }
    }
  }

  lemma SameLookups(a: Files, b: Files)
    requires forall path :: Lookup(a, path) == Lookup(b, path)
    ensures a == b
  {
    forall path ensures path in a <==> path in b {
      assert Lookup(a, path) == Lookup(b, path);
    }
    forall path | path in a ensures a[path] == b[path] {
      assert Lookup(a, path) == Lookup(b, path);
    }
  }

  class Machine {
    var fs: Files
    var service: Service
    /** Set when putting an old file back failed or was cut short, so a file may hold anything. */
    ghost var damaged: bool
    /** Set by every failure, crash and wrong answer of the environment. */
    ghost var faulted: bool
    /** Set once the caller's hardware is back as it was. */
    ghost var rewired: bool

    constructor (fs: Files, service: Service)
      ensures this.fs == fs && this.service == service && !damaged && !faulted && !rewired
    {
      this.fs, this.service, damaged, faulted, rewired := fs, service, false, false, false;
    }

    /** Write to a temporary file, then rename: the path changes completely or not at all. */
    method AtomicWrite(path: string, content: Content) returns (o: Outcome)
      modifies this`fs, this`faulted
      ensures faulted == (old(faulted) || !o.Returned?)
      ensures fs == old(fs) || fs == old(fs)[path := content]
      ensures o.Returned? ==> fs == old(fs)[path := content]
      ensures o.Raised? ==> fs == old(fs)
    {
      if {
        case true => o := Crashed;
        case true => o := Raised(true);
        case true => fs := fs[path := content]; o := Crashed;
        case true => fs := fs[path := content]; o := Returned;
      }
      faulted := faulted || !o.Returned?;
    }

    /** Put the saved content back, which is not atomic, or remove a file that was absent before. */
    method PutBack(path: string, saved: Option<Content>) returns (o: Outcome)
      modifies this`fs, this`damaged, this`faulted
      ensures faulted == (old(faulted) || !o.Returned?)
      ensures forall p :: p != path ==> Lookup(fs, p) == Lookup(old(fs), p)
      ensures o.Returned? ==> Lookup(fs, path) == saved && damaged == old(damaged)
      ensures o.Raised? ==> damaged
      ensures old(damaged) ==> damaged
      ensures !damaged ==> fs == old(fs) || Lookup(fs, path) == saved
    {
      if saved.None? {
        if {
          case true => o := Crashed;
          case true => damaged := true; o := Raised(true);
          case true => fs := fs - {path}; o := Crashed;
          case true => fs := fs - {path}; o := Returned;
        }
      } else {
        var junk: Content := *;
        if {
          case true => fs := fs[path := saved.value]; o := Returned;
          case true => damaged := true; o := Raised(true);
          case true => fs, damaged := fs[path := junk], true; o := Raised(true);
          case true => o := Crashed;
          case true => fs, damaged := fs[path := junk], true; o := Crashed;
        }
      }
      faulted := faulted || !o.Returned?;
    }

    /** One service-manager command; on failure the unit's flags are whatever it left behind. */
    method Systemctl(command: Command) returns (o: Outcome)
      modifies this`service, this`faulted
      ensures faulted == (old(faulted) || !o.Returned?)
      ensures command == Reload ==> service == old(service)
      ensures o.Returned? ==> service == After(old(service), command)
    {
      if {
        case true => service := After(service, command); o := Returned;
        case true =>
          if command != Reload {
            var active: bool, enabled: bool := *, *;
            service := Service(active, enabled);
          }
          if * { o := Raised(true); } else { o := Crashed; }
      }
      faulted := faulted || !o.Returned?;
    }

    static function After(s: Service, command: Command): Service {
      match command
      case Reload => s
      case Enable => s.(enabled := true)
      case Disable => s.(enabled := false)
      case Start => s.(active := true)
      case Restart => s.(active := true)
      case Stop => s.(active := false)
    }

    /** A query that answers no when it times out. */
    method Query(fact: bool) returns (answer: bool)
      modifies this`faulted
      ensures answer ==> fact
      ensures faulted == (old(faulted) || answer != fact)
    {
      if * { answer := fact; } else { answer := false; }
      faulted := faulted || answer != fact;
    }

    /** Any other step that may fail by itself: a check of ownership, a backup, a verification. */
    method Attempt() returns (o: Outcome)
      modifies this`faulted
      ensures faulted == (old(faulted) || !o.Returned?)
    {
      if {
        case true => o := Returned;
        case true => o := Raised(true);
        case true => o := Crashed;
      }
      faulted := faulted || !o.Returned?;
    }

    /** What the caller of `ApplyFiles` does to its hardware before any file is put back. */
    method RestoreHardware() returns (o: Outcome)
      modifies this`rewired, this`faulted
      ensures faulted == (old(faulted) || !o.Returned?)
      ensures o.Returned? ==> rewired
    {
      o := Attempt();
      if o.Returned? { rewired := true; }
    }

    /** The try block: every file, then the service, then the caller's verification. */
    method InstallAndStart(files: Bundle) returns (o: Outcome, touched: bool)
      requires DistinctPaths(files)
      modifies this`fs, this`service, this`faulted
      ensures faulted == (old(faulted) || !o.Returned?)
      ensures Mixture(old(fs), files, fs) && OthersKept(old(fs), files, fs)
      ensures o.Returned? ==> fs == Install(old(fs), files) && service == Service(true, true)
      ensures if touched then fs == Install(old(fs), files) else service == old(service)
    {
      touched := false;
      ghost var before := fs;
      o := Returned;
      assert files[..0] == [];
      PrefixIsMixture(before, files, 0);
      var i := 0;
      while i < |files|
        invariant 0 <= i <= |files| && fs == Install(before, files[..i]) && service == old(service)
        invariant faulted == old(faulted) && o.Returned?
        invariant Mixture(before, files, fs) && OthersKept(before, files, fs)
      {
        o := AtomicWrite(files[i].0, files[i].1);
        assert files[..i + 1][..i] == files[..i];
        PrefixIsMixture(before, files, i);
        PrefixIsMixture(before, files, i + 1);
        if !o.Returned? { return; }
        i := i + 1;
      }
      assert files[..i] == files;
      o := Systemctl(Reload);
      if !o.Returned? { return; }
      touched := true;
      o := Systemctl(Enable);
      if !o.Returned? { return; }
      o := Systemctl(Restart);
      if !o.Returned? { return; }
      o := Attempt();
    }

    /** Put back every file; one that fails does not keep the others from being put back. */
    method PutAllBack(files: Bundle, ghost before: Files, previous: seq<Option<Content>>)
        returns (o: Outcome, clean: bool)
      requires DistinctPaths(files) && !damaged
      requires |previous| == |files| && forall i :: 0 <= i < |files| ==> previous[i] == Lookup(before, files[i].0)
      requires Mixture(before, files, fs) && OthersKept(before, files, fs)
      modifies this`fs, this`damaged, this`faulted
      ensures OthersKept(before, files, fs) && (old(faulted) ==> faulted)
      ensures !damaged ==> Mixture(before, files, fs)
      ensures !o.Crashed? ==> clean == !damaged && (clean ==> fs == before)
    {
      clean, o := true, Returned;
      var i := 0;
      while i < |files|
        invariant 0 <= i <= |files| && OthersKept(before, files, fs) && (old(faulted) ==> faulted)
        invariant !damaged ==> Mixture(before, files, fs)
        invariant !damaged ==> forall k :: 0 <= k < i ==> Lookup(fs, files[k].0) == Lookup(before, files[k].0)
        invariant clean == !damaged && !o.Crashed?
      {
        assert InBundle(files, files[i].0);
        o := PutBack(files[i].0, previous[i]);
        if o.Crashed? { return; }
        clean := clean && o.Returned?;
        i := i + 1;
      }
      if clean {
        forall path ensures Lookup(fs, path) == Lookup(before, path) {
          if InBundle(files, path) {
            var k :| 0 <= k < |files| && files[k].0 == path;
          }
        }
        SameLookups(fs, before);
      }
    }

    /** The rollback: stop, restore the enabled flag, every file, then start again if all went well. A
        caller that has hardware to restore gets it done between stopping and the files; if the service
        cannot be stopped, or the hardware not restored, the new files are retained as they are. */
    method Rollback(files: Bundle, ghost before: Files, previous: seq<Option<Content>>, touched: bool, was: Service,
          hardware: bool)
        returns (o: Outcome, retained: bool)
      requires DistinctPaths(files) && !damaged
      requires |previous| == |files| && forall i :: 0 <= i < |files| ==> previous[i] == Lookup(before, files[i].0)
      requires Mixture(before, files, fs) && OthersKept(before, files, fs)
      requires touched ==> fs == Install(before, files)
      modifies this
      ensures !o.Returned? && OthersKept(before, files, fs)
      ensures old(faulted) ==> faulted
      ensures !damaged ==> Mixture(before, files, fs)
      ensures o.Raised? && !damaged && !retained ==> fs == before
      ensures retained ==>
                hardware && touched && o == Raised(false) && !damaged && fs == Install(before, files) && faulted
      ensures hardware && touched && fs != Install(before, files) ==> rewired
      ensures o == Raised(true) ==> !damaged && (if touched then service == was else service == old(service))
    {
      var clean := true;
      retained := false;
      if touched {
        o := Systemctl(Stop);
        if o.Crashed? { return; }
        clean := o.Returned?;
        if hardware {
          if !clean { return Raised(false), true; }
          o := RestoreHardware();
          if o.Crashed? { return; }
          if o.Raised? { return Raised(false), true; }
        }
        o := Systemctl(if was.enabled then Enable else Disable);
        if o.Crashed? { return; }
        clean := clean && o.Returned?;
      }
      var all: bool;
      o, all := PutAllBack(files, before, previous);
      if o.Crashed? { return; }
      clean := clean && all;
      o := Systemctl(Reload);
      if o.Crashed? { return; }
      clean := clean && o.Returned?;
      if touched && was.active && clean {
        o := Systemctl(Start);
        if o.Crashed? { return; }
        clean := o.Returned?;
      }
      o := Raised(clean);
    }

    /** Install `files` and (re)start the service, or put everything back and raise. */
    method ApplyFiles(files: Bundle, hardware: bool) returns (o: Outcome, was: Service, retained: bool)
      requires DistinctPaths(files) && !damaged
      modifies this
      ensures OthersKept(old(fs), files, fs)
      ensures was.active ==> old(service).active
      ensures was.enabled ==> old(service).enabled
      ensures o.Returned? ==> fs == Install(old(fs), files) && service == Service(true, true) && !damaged
      ensures o.Raised? && !damaged && !retained ==> fs == old(fs)
      ensures retained ==> hardware && o == Raised(false) && !damaged && fs == Install(old(fs), files)
      ensures !damaged ==> Mixture(old(fs), files, fs)
      ensures o == Raised(true) ==> !damaged && (service == was || service == old(service))
      ensures old(faulted) ==> faulted
      ensures !o.Returned? ==> faulted
    {
      var active := Query(service.active);
      var enabled := Query(service.enabled);
      was, retained := Service(active, enabled), false;
      // The backup directory, the saved copies and the manifest do not touch the managed paths.
      o := Attempt();
      if !o.Returned? {
        if o.Raised? { o := Raised(true); }
        return;
      }
      var previous: seq<Option<Content>> := [];
      var i := 0;
      while i < |files|
        invariant 0 <= i <= |files| == |previous| + (|files| - i)
        invariant forall k :: 0 <= k < i ==> previous[k] == Lookup(fs, files[k].0)
      {
        previous := previous + [Lookup(fs, files[i].0)];
        i := i + 1;
      }
      ghost var before := fs;
      var touched: bool;
      o, touched := InstallAndStart(files);
      if o.Raised? {
        o, retained := Rollback(files, before, previous, touched, was, hardware);
      }
    }
  }
}
