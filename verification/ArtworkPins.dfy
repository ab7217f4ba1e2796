/** User-selected artwork under concurrent stores and one maintenance pass. Stores hold the read side
    of the mutation lock from begin to return; a maintenance deletion holds the write side, so it is
    one step that needs no store in progress. Everything else interleaves freely. Any read, write or
    removal may fail. The wall clock does not go back here, or a pin could lie ahead of it. */
module ArtworkPins {
  import opened Basics

  /** Seconds for which a freshly written pin is protected. */
  const GRACE: nat := 3600

  /** A pinned alias file is named by its key and extension. */
  datatype Path = Path(key: string, extension: string)

  datatype Alias = Alias(hash: string, modified: nat)

  /** What a store does next. */
  datatype Point = WriteObject | WriteAlias | RecordPin | Return

  datatype Store = Store(pinned: bool, path: Path, hash: string, at: Point, written: nat)

  datatype Phase = Scanning | Judging | Evicting

  /** One maintenance pass: its argument and start, the aliases it read, the paths whose alias or file
      time it failed to read, what it decided so far. */
  datatype Pass = Pass(
    start: nat,
    live: set<string>,
    present: set<Path>,
    scanned: map<Path, Alias>,
    missed: set<Path>,
    judged: set<Path>,
    condemned: Option<Path>,
    liveHashes: set<string>,
    phase: Phase)

  /** `live` is the database's set of selected keys; `put` and `held` are history: the write time
      of the last returned `put_pinned` of a path, and the paths kept without a gap since. */
  datatype State = State(
    now: nat,
    boot: nat,
    live: set<string>,
    objects: set<string>,
    pins: map<Path, Alias>,
    recent: map<string, nat>,
    stores: map<nat, Store>,
    pass: Option<Pass>,
    put: map<Path, nat>,
    held: set<Path>)

  datatype Step =
    | Tick(later: nat)
    | Select(keys: set<string>)
    | Begin(id: nat, pinned: bool, path: Path, hash: string)
    | Advance(id: nat)
    | Fail(id: nat)
    | PassBegin
    | Scan(path: Path)
    | Skip(path: Path)
    | ScanDone
    | Judge(path: Path, aged: bool)
    | Delete(removed: bool)
    | JudgeDone
    | Evict(hash: string, removed: bool)
    | PassEnd
    | Abort
    | Restart

  /** The running pass failed to read the pin or its age. */
  predicate Missed(s: State, p: Path) { s.pass.Some? && p in s.pass.value.missed }

  /** The path is inside its grace period, or selected now and, during a pass, when the pass began; and
      the pass did not miss it, unless this process wrote it within the grace period. */
  predicate Kept(s: State, p: Path) {
    || (p in s.put && s.now < s.put[p] + GRACE && (s.put[p] >= s.boot || !Missed(s, p)))
    || (p.key in s.live && (s.pass.Some? ==> p.key in s.pass.value.live) && !Missed(s, p))
  }

  predicate Fresh(s: State, p: Path) {
    p in s.pins && s.now < s.pins[p].modified + GRACE
  }

  predicate Enabled(s: State, step: Step) {
    match step
    // A pass is shorter than the grace period.
    case Tick(later) => s.now <= later && (s.pass.Some? ==> later < s.pass.value.start + GRACE)
    case Select(_) => true
    case Begin(id, _, _, _) => id !in s.stores
    case Advance(id) => id in s.stores
    case Fail(id) => id in s.stores && s.stores[id].at in {WriteObject, WriteAlias}
    case PassBegin => s.pass.None?
    case Scan(p) => s.pass.Some? && s.pass.value.phase.Scanning? && p in s.pins
    case Skip(p) => s.pass.Some? && s.pass.value.phase.Scanning? && p in s.pins
    // A directory walk returns every entry that was there from its start, readable or not.
    case ScanDone =>
      && s.pass.Some? && s.pass.value.phase.Scanning?
      && s.pass.value.present <= s.pass.value.scanned.Keys + s.pass.value.missed
    case Judge(p, _) =>
      s.pass.Some? && s.pass.value.phase.Judging? && s.pass.value.condemned.None? && p in s.pass.value.scanned &&
          p !in s.pass.value.judged
    case Delete(_) => s.pass.Some? && s.pass.value.condemned.Some? && s.stores == map[]
    case JudgeDone =>
      s.pass.Some? && s.pass.value.phase.Judging? && s.pass.value.condemned.None? &&
          s.pass.value.judged == s.pass.value.scanned.Keys
    case Evict(hash, _) => s.pass.Some? && s.pass.value.phase.Evicting? && hash !in s.pass.value.liveHashes &&
        s.stores == map[]
    case PassEnd => s.pass.Some? && s.pass.value.phase.Evicting?
    // A directory that cannot be listed ends the pass.
    case Abort => s.pass.Some?
    case Restart => true
  }

  function AdvanceStore(s: State, id: nat): State
    requires id in s.stores
  {
    var store := s.stores[id];
    match store.at
    case WriteObject => s.(objects := s.objects + {store.hash}, stores := s.stores[id := store.(at := WriteAlias)])
    case WriteAlias =>
      var next := s.(stores := s.stores[id := store.(at := RecordPin, written := s.now)]);
      if store.pinned then next.(pins := s.pins[store.path := Alias(store.hash, s.now)]) else next
    case RecordPin =>
      var next := s.(stores := s.stores[id := store.(at := Return)]);
      if store.pinned then next.(recent := s.recent[store.hash := s.now]) else next
    case Return =>
      var next := s.(stores := s.stores - {id});
      if store.pinned then next.(put := s.put[store.path := store.written], held := s.held + {store.path}) else next
  }

  /** An unselected pin without a readable age is not live; the second look decides whether it goes. */
  function JudgedPass(s: State, pass: Pass, p: Path, aged: bool): Pass
    requires p in pass.scanned
  {
    if p.key in pass.live || (aged && Fresh(s, p))
    then pass.(liveHashes := pass.liveHashes + {pass.scanned[p].hash}, judged := pass.judged + {p})
    else pass.(condemned := Some(p), missed := if aged then pass.missed else pass.missed + {p})
  }

  function Apply(s: State, step: Step): State
    requires Enabled(s, step)
  {
    match step
    case Tick(later) => s.(now := later)
    case Select(keys) => s.(live := keys)
    case Begin(id, pinned, path, hash) => s.(stores := s.stores[id := Store(pinned, path, hash, WriteObject, 0)])
    case Advance(id) => AdvanceStore(s, id)
    case Fail(id) => s.(stores := s.stores - {id})
    case PassBegin => s.(pass := Some(Pass(s.now, s.live, s.pins.Keys, map[], {}, {}, None, {}, Scanning)))
    case Scan(p) => s.(pass := Some(s.pass.value.(scanned := s.pass.value.scanned[p := s.pins[p]])))
    case Skip(p) => s.(pass := Some(s.pass.value.(missed := s.pass.value.missed + {p})))
    case ScanDone => s.(pass := Some(s.pass.value.(phase := Judging)))
    case Judge(p, aged) => s.(pass := Some(JudgedPass(s, s.pass.value, p, aged)))
    case Delete(removed) =>
      var pass := s.pass.value;
      var p := pass.condemned.value;
      var next := s.(pass := Some(pass.(condemned := None, judged := pass.judged + {p})));
      if removed && p in s.pins && !Fresh(s, p) then next.(pins := s.pins - {p}) else next
    case JudgeDone => s.(pass := Some(s.pass.value.(phase := Evicting)))
    case Evict(hash, removed) =>
      if !removed || (hash in s.recent && s.now < s.recent[hash] + GRACE) then s
      else s.(objects := s.objects - {hash})
    case PassEnd =>
      s.(pass := None, recent := map h | h in s.recent && s.now < s.recent[h] + GRACE :: s.recent[h])
    case Abort => s.(pass := None)
    // The process ends anywhere; only what is on disk and in the database is left.
    case Restart => s.(now := s.now + 1, boot := s.now + 1, recent := map[], stores := map[], pass := None)
  }

  ghost predicate Next(s: State, step: Step, s': State) {
    && Enabled(s, step)
    && var next := Apply(s, step);
       s' == next.(held := set p | p in next.held && Kept(next, p))
  }

  // ---- The invariant ----------------------------------------------------------------

  predicate StoreInv(s: State, store: Store) {
    && (store.at != WriteObject ==> store.hash in s.objects)
    && (store.pinned && store.at in {RecordPin, Return} ==>
          && store.path in s.pins && store.written <= s.pins[store.path].modified
          && s.pins[store.path].hash in s.objects)
  }

  predicate AwaitsRecord(s: State, hash: string) {
    exists id :: id in s.stores && s.stores[id].pinned && s.stores[id].at == RecordPin && s.stores[id].hash == hash
  }

  /** The write of this alias is remembered, about to be, from before this process, or long ago. */
  predicate Remembered(s: State, alias: Alias) {
    || alias.modified < s.boot
    || s.now >= alias.modified + GRACE
    || (alias.hash in s.recent && s.recent[alias.hash] >= alias.modified)
    || AwaitsRecord(s, alias.hash)
  }

  predicate PinInv(s: State, p: Path)
    requires p in s.pins
  {
    && s.pins[p].modified <= s.now
    && Remembered(s, s.pins[p])
    && (p in s.held ==> s.pins[p].hash in s.objects)
  }

  /** What a pass knows of an alias that was there when it began and has not been written since. */
  predicate PassPinInv(s: State, pass: Pass, p: Path)
    requires p in s.pins
  {
    && p in pass.present
    && (p in pass.scanned ==> pass.scanned[p] == s.pins[p])
    && (!pass.phase.Scanning? ==> p in pass.scanned || p in pass.missed)
    && (p in pass.judged && p !in pass.missed && (Fresh(s, p) || p.key in pass.live) ==>
        s.pins[p].hash in pass.liveHashes)
    && (pass.condemned == Some(p) ==> !Fresh(s, p) || p in pass.missed)
  }

  predicate PassInv(s: State, pass: Pass) {
    && s.boot <= pass.start <= s.now < pass.start + GRACE
    && pass.judged <= pass.scanned.Keys
    && (pass.condemned.Some? ==>
        pass.condemned.value.key !in pass.live && pass.condemned.value in pass.scanned && pass.phase.Judging?)
    && (pass.phase.Evicting? ==> pass.judged == pass.scanned.Keys)
    && forall p :: p in s.pins && s.pins[p].modified < pass.start ==> PassPinInv(s, pass, p)
  }

  predicate HeldInv(s: State, p: Path) {
    p in s.pins && p in s.put && s.put[p] <= s.pins[p].modified && Kept(s, p)
  }

  ghost predicate Inv(s: State) {
    && s.boot <= s.now
    && (forall id :: id in s.stores ==> StoreInv(s, s.stores[id]))
    && (forall p :: p in s.pins ==> PinInv(s, p))
    && (forall p :: p in s.held ==> HeldInv(s, p))
    && (s.pass.Some? ==> PassInv(s, s.pass.value))
  }

  /** A process that has just started on a sound cache. */
  ghost predicate Start(s: State) {
    && s.boot == s.now && s.stores == map[] && s.pass == None && s.recent == map[]
    && (forall p :: p in s.pins ==> s.pins[p].modified < s.now && s.pins[p].hash in s.objects)
    && (forall p :: p in s.held ==> HeldInv(s, p))
  }

  lemma StartInv(s: State)
    requires Start(s)
    ensures Inv(s)
  {
  }

  lemma TickKeepsInv(s: State, step: Step, s': State)
    requires Inv(s) && Next(s, step, s') && step.Tick?
    ensures Inv(s')
  {
    forall p | p in s'.pins ensures PinInv(s', p) { assert PinInv(s, p); }
  }

  /** A store that has yet to record its pin is not lost by a step of another store. */
  lemma AwaitsKept(s: State, s': State, hash: string, id: nat)
    requires AwaitsRecord(s, hash)
    requires forall other :: other != id && other in s.stores ==>
               other in s'.stores && s'.stores[other] == s.stores[other]
    ensures AwaitsRecord(s', hash) ||
              (id in s.stores && s.stores[id].pinned && s.stores[id].at == RecordPin && s.stores[id].hash == hash)
  {
    var x :| x in s.stores && s.stores[x].pinned && s.stores[x].at == RecordPin && s.stores[x].hash == hash;
    assert x != id ==> x in s'.stores && s'.stores[x] == s.stores[x];
  }

  /** Recorded times only move to now, other stores wait on, and a store that was about to record has. */
  lemma RemembersBeside(s: State, s': State, alias: Alias, id: nat)
    requires s'.now == s.now && s'.boot == s.boot && Remembered(s, alias) && alias.modified <= s.now
    requires forall h :: h in s.recent ==> h in s'.recent && (s'.recent[h] == s.recent[h] || s'.recent[h] == s.now)
    requires forall other :: other != id && other in s.stores ==>
               other in s'.stores && s'.stores[other] == s.stores[other]
    requires id in s.stores && s.stores[id].pinned && s.stores[id].at == RecordPin ==>
              s.stores[id].hash in s'.recent && s'.recent[s.stores[id].hash] == s.now
    ensures Remembered(s', alias)
  {
    if AwaitsRecord(s, alias.hash) { AwaitsKept(s, s', alias.hash, id); }
  }

  lemma StoreStepRemembers(s: State, step: Step, s': State, alias: Alias)
    requires Inv(s) && Next(s, step, s') && (step.Advance? || step.Begin? || step.Fail?)
    requires Remembered(s, alias) && alias.modified <= s.now
    ensures Remembered(s', alias)
  {
    if step.Advance? {
      var store := s.stores[step.id];
      assert s'.recent == if store.at == RecordPin && store.pinned then s.recent[store.hash := s.now] else s.recent;
    }
    RemembersBeside(s, s', alias, step.id);
  }

  lemma BeginKeepsInv(s: State, step: Step, s': State)
    requires Inv(s) && Next(s, step, s') && (step.Begin? || step.Fail?)
    ensures Inv(s')
  {
    forall p | p in s'.pins ensures PinInv(s', p) {
      assert PinInv(s, p);
      StoreStepRemembers(s, step, s', s.pins[p]);
    }
    forall id | id in s'.stores ensures StoreInv(s', s'.stores[id]) {
      assert id in s.stores ==> StoreInv(s, s.stores[id]);
    }
    forall p | p in s'.held ensures HeldInv(s', p) { assert p in s.held ==> HeldInv(s, p); }
  }

  lemma ObjectWriteKeepsInv(s: State, step: Step, s': State)
    requires Inv(s) && Next(s, step, s') && step.Advance? && s.stores[step.id].at == WriteObject
    ensures Inv(s')
  {
    forall p | p in s'.pins ensures PinInv(s', p) {
      assert PinInv(s, p);
      StoreStepRemembers(s, step, s', s.pins[p]);
    }
    forall id | id in s'.stores ensures StoreInv(s', s'.stores[id]) {
      assert id in s.stores ==> StoreInv(s, s.stores[id]);
    }
    forall p | p in s'.held ensures HeldInv(s', p) { assert p in s.held ==> HeldInv(s, p); }
  }

  lemma RecordKeepsInv(s: State, step: Step, s': State)
    requires Inv(s) && Next(s, step, s') && step.Advance? && s.stores[step.id].at == RecordPin
    ensures Inv(s')
  {
    forall p | p in s'.pins ensures PinInv(s', p) {
      assert PinInv(s, p);
      StoreStepRemembers(s, step, s', s.pins[p]);
    }
    forall id | id in s'.stores ensures StoreInv(s', s'.stores[id]) {
      assert id in s.stores ==> StoreInv(s, s.stores[id]);
    }
    forall p | p in s'.held ensures HeldInv(s', p) { assert p in s.held ==> HeldInv(s, p); }
  }

  lemma ReturnKeepsInv(s: State, step: Step, s': State)
    requires Inv(s) && Next(s, step, s') && step.Advance? && s.stores[step.id].at == Return
    ensures Inv(s')
  {
    forall p | p in s'.pins ensures PinInv(s', p) {
      assert PinInv(s, p);
      StoreStepRemembers(s, step, s', s.pins[p]);
    }
    forall id | id in s'.stores ensures StoreInv(s', s'.stores[id]) {
      assert id in s.stores ==> StoreInv(s, s.stores[id]);
    }
    forall p | p in s'.held ensures HeldInv(s', p) { assert p in s.held ==> HeldInv(s, p); }
  }

  lemma AliasWriteKeepsInv(s: State, step: Step, s': State)
    requires Inv(s) && Next(s, step, s') && step.Advance? && s.stores[step.id].at == WriteAlias
    ensures Inv(s')
  {
    var store := s.stores[step.id];
    assert StoreInv(s, store);
    forall p | p in s'.pins ensures PinInv(s', p) {
      if store.pinned && p == store.path {
        assert s'.stores[step.id].hash == s'.pins[p].hash;
      } else {
        assert PinInv(s, p);
        StoreStepRemembers(s, step, s', s.pins[p]);
      }
    }
    forall id | id in s'.stores ensures StoreInv(s', s'.stores[id]) {
      assert StoreInv(s, s.stores[id]);
    }
    forall p | p in s'.held ensures HeldInv(s', p) { assert HeldInv(s, p); }
  }

  lemma SameFiles(s: State, s': State)
    requires Inv(s) && s' == s.(pass := s'.pass, held := s'.held) && s'.held <= s.held
    ensures forall p :: p in s'.pins ==> PinInv(s', p)
    ensures forall id :: id in s'.stores ==> StoreInv(s', s'.stores[id])
  {
    forall p | p in s'.pins ensures PinInv(s', p) { assert PinInv(s, p); }
    forall id | id in s'.stores ensures StoreInv(s', s'.stores[id]) { assert StoreInv(s, s.stores[id]); }
  }

  lemma JudgeKeepsPin(s: State, pass: Pass, q: Path, aged: bool, p: Path)
    requires p in s.pins && PassPinInv(s, pass, p) && q in pass.scanned && pass.phase.Judging? && pass.condemned.None?
    ensures PassPinInv(s, JudgedPass(s, pass, q, aged), p)
  {
  }

  lemma JudgeKeepsInv(s: State, step: Step, s': State)
    requires Inv(s) && Next(s, step, s') && step.Judge?
    ensures Inv(s')
  {
    SameFiles(s, s');
    forall p | p in s'.held ensures HeldInv(s', p) { assert HeldInv(s, p); }
    var pass := s.pass.value;
    forall p | p in s'.pins && s'.pins[p].modified < s'.pass.value.start ensures PassPinInv(s', s'.pass.value, p) {
      assert PassPinInv(s, pass, p);
      JudgeKeepsPin(s, pass, step.path, step.aged, p);
    }
  }

  /** A condemned alias written before the pass is not kept: its key was not selected and it is old. */
  lemma CondemnedIsNotHeld(s: State, p: Path)
    requires Inv(s) && s.pass.Some? && s.pass.value.condemned == Some(p) && p in s.pins && !Fresh(s, p)
    ensures p !in s.held
  {
    assert p in s.held ==> HeldInv(s, p);
  }

  lemma SpareKeepsInv(s: State, step: Step, s': State)
    requires Inv(s) && Next(s, step, s') && step.Delete? && s'.pins == s.pins
    ensures Inv(s')
  {
    SameFiles(s, s');
    forall p | p in s'.held ensures HeldInv(s', p) { assert HeldInv(s, p); }
    var pass, pass' := s.pass.value, s'.pass.value;
    var condemned := pass.condemned.value;
    if condemned in s.pins && !Fresh(s, condemned) { CondemnedIsNotHeld(s, condemned); }
    forall p | p in s'.pins && s'.pins[p].modified < pass'.start ensures PassPinInv(s', pass', p) {
      assert PassPinInv(s, pass, p);
    }
  }

  /** A condemned alias is not removed while its path is kept. */
  lemma RemoveKeepsInv(s: State, step: Step, s': State)
    requires Inv(s) && Next(s, step, s') && step.Delete? && s'.pins != s.pins
    ensures Inv(s')
  {
    var pass, pass' := s.pass.value, s'.pass.value;
    var condemned := pass.condemned.value;
    CondemnedIsNotHeld(s, condemned);
    assert s'.pins == s.pins - {condemned};
    forall p | p in s'.pins ensures PinInv(s', p) { assert PinInv(s, p); }
    forall p | p in s'.held ensures HeldInv(s', p) { assert HeldInv(s, p); }
    forall p | p in s'.pins && s'.pins[p].modified < pass'.start ensures PassPinInv(s', pass', p) {
      assert PassPinInv(s, pass, p);
    }
  }

  /** An object of a strong alias is either recorded as live or protected as recently pinned. */
  lemma EvictKeepsInv(s: State, step: Step, s': State)
    requires Inv(s) && Next(s, step, s') && step.Evict?
    ensures Inv(s')
  {
    forall p | p in s'.pins ensures PinInv(s', p) { EvictKeepsPin(s, step, s', p); }
  }

  lemma EvictKeepsPin(s: State, step: Step, s': State, p: Path)
    requires Inv(s) && Next(s, step, s') && step.Evict? && p in s'.pins
    ensures PinInv(s', p)
  {
    assert PinInv(s, p);
  }

  lemma WalkKeepsInv(s: State, step: Step, s': State)
    requires Inv(s) && Next(s, step, s') && (step.Scan? || step.Skip? || step.ScanDone? || step.JudgeDone?)
    ensures Inv(s')
  {
    SameFiles(s, s');
    forall p | p in s'.held ensures HeldInv(s', p) { assert HeldInv(s, p); }
    var pass, pass' := s.pass.value, s'.pass.value;
    forall p | p in s'.pins && s'.pins[p].modified < pass'.start ensures PassPinInv(s', pass', p) {
      assert PassPinInv(s, pass, p);
    }
  }

  lemma PassBeginKeepsInv(s: State, step: Step, s': State)
    requires Inv(s) && Next(s, step, s') && step.PassBegin?
    ensures Inv(s')
  {
    SameFiles(s, s');
    forall p | p in s'.held ensures HeldInv(s', p) { assert HeldInv(s, p); }
  }

  lemma PassEndKeepsInv(s: State, step: Step, s': State)
    requires Inv(s) && Next(s, step, s') && step.PassEnd?
    ensures Inv(s')
  {
    forall p | p in s'.pins ensures PinInv(s', p) { assert PinInv(s, p); }
    forall p | p in s'.held ensures HeldInv(s', p) { assert HeldInv(s, p); }
  }

  lemma SelectOrRestartKeepsInv(s: State, step: Step, s': State)
    requires Inv(s) && Next(s, step, s') && (step.Select? || step.Restart? || step.Abort?)
    ensures Inv(s')
  {
    forall p | p in s'.pins ensures PinInv(s', p) { assert PinInv(s, p); }
    forall p | p in s'.held ensures HeldInv(s', p) { assert HeldInv(s, p); }
    if step.Select? && s.pass.Some? {
      forall p | p in s'.pins && s'.pins[p].modified < s'.pass.value.start ensures PassPinInv(s', s'.pass.value, p) {
        assert PassPinInv(s, s.pass.value, p);
      }
    }
  }

  lemma StepKeepsInv(s: State, step: Step, s': State)
    requires Inv(s) && Next(s, step, s')
    ensures Inv(s')
  {
    match step
    case Tick(_) => TickKeepsInv(s, step, s');
    case Begin(_, _, _, _) => BeginKeepsInv(s, step, s');
    case Fail(_) => BeginKeepsInv(s, step, s');
    case Advance(id) =>
      match s.stores[id].at {
        case WriteObject => ObjectWriteKeepsInv(s, step, s');
        case WriteAlias => AliasWriteKeepsInv(s, step, s');
        case RecordPin => RecordKeepsInv(s, step, s');
        case Return => ReturnKeepsInv(s, step, s');
      }
    case Judge(_, _) => JudgeKeepsInv(s, step, s');
    case Delete(_) => if s'.pins == s.pins { SpareKeepsInv(s, step, s'); } else { RemoveKeepsInv(s, step, s'); }
    case Evict(_, _) => EvictKeepsInv(s, step, s');
    case PassBegin => PassBeginKeepsInv(s, step, s');
    case PassEnd => PassEndKeepsInv(s, step, s');
    case Select(_) => SelectOrRestartKeepsInv(s, step, s');
    case Restart => SelectOrRestartKeepsInv(s, step, s');
    case Abort => SelectOrRestartKeepsInv(s, step, s');
    case _ => WalkKeepsInv(s, step, s');
  }
}
