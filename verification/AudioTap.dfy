/** The level tap: one audio thread that writes and any number of readers that never block it. Each
    load and each store is a step of its own, and steps interleave freely. */
module AudioTap {
  import opened Basics

  datatype Levels = Levels(rmsL: real, rmsR: real, peakL: real, peakR: real) {
    function Slots(): seq<real> { [rmsL, rmsR, peakL, peakR] }
  }

  datatype Op = Publish(levels: Levels) | Clear

  /** `next` is the store the writer makes next: four slots, the flag, and the closing increment. */
  datatype Writer = Idle | Writing(op: Op, next: nat)

  datatype Phase =
    | Started
    | Sequenced(sequence: nat)
    | Loading(sequence: nat, got: seq<real>)
    | Finished(result: Option<(nat, Levels)>)

  /** `since` counts the operations that were complete when the read began. */
  datatype Reader = Reader(since: nat, phase: Phase)

  /** `completed` and `returned` are the history: operations finished, and every result a read gave. */
  datatype Tap = Tap(
    sequence: nat,
    slots: seq<real>,
    active: bool,
    writer: Writer,
    readers: map<nat, Reader>,
    completed: seq<Op>,
    returned: set<(nat, Levels)>)

  datatype Step = Begin(op: Op) | Store | StartRead(reader: nat) | Load(reader: nat)

  /** The first increment of `publish` or `clear`; a clear stores no slots. */
  function BeginOp(t: Tap, op: Op): Tap {
    t.(sequence := t.sequence + 1, writer := Writing(op, if op.Publish? then 0 else 4))
  }

  function StoreNext(t: Tap): Tap
    requires t.writer.Writing? && t.writer.next <= 5 && |t.slots| == 4 && (t.writer.next < 4 ==> t.writer.op.Publish?)
  {
    var Writing(op, next) := t.writer;
    if next < 4 then t.(slots := t.slots[next := op.levels.Slots()[next]], writer := Writing(op, next + 1))
    else if next == 4 then t.(active := op.Publish?, writer := Writing(op, 5))
    else t.(sequence := t.sequence + 1, writer := Idle, completed := t.completed + [op])
  }

  /** What one load does to a reader, given the memory it sees. */
  function Advance(t: Tap, phase: Phase): Phase
    requires |t.slots| == 4 && (phase.Loading? ==> |phase.got| <= 4)
  {
    match phase
    case Started => if t.sequence % 2 != 0 then Finished(None) else Sequenced(t.sequence)
    case Sequenced(sequence) => if t.active then Loading(sequence, []) else Finished(None)
    case Loading(sequence, got) =>
      if |got| < 4 then Loading(sequence, got + [t.slots[|got|]])
      else if sequence != t.sequence then Finished(None)
      else Finished(Some((sequence, Levels(got[0], got[1], got[2], got[3]))))
    case Finished(_) => phase
  }

  function Returned(phase: Phase): set<(nat, Levels)> {
    if phase.Finished? && phase.result.Some? then {phase.result.value} else {}
  }

  ghost predicate Next(t: Tap, step: Step, t': Tap) {
    match step
    case Begin(op) => t.writer.Idle? && t' == BeginOp(t, op)
    case Store =>
      && t.writer.Writing? && t.writer.next <= 5 && |t.slots| == 4 && (t.writer.next < 4 ==> t.writer.op.Publish?)
      && t' == StoreNext(t)
    case StartRead(r) =>
      (r in t.readers ==> t.readers[r].phase.Finished?) &&
          t' == t.(readers := t.readers[r := Reader(|t.completed|, Started)])
    case Load(r) =>
      && r in t.readers && |t.slots| == 4 && (t.readers[r].phase.Loading? ==> |t.readers[r].phase.got| <= 4)
      && var phase := Advance(t, t.readers[r].phase);
         t' == t.(readers := t.readers[r := t.readers[r].(phase := phase)], returned := t.returned + Returned(phase))
  }

  ghost predicate Initial(t: Tap) {
    t.sequence == 0 && |t.slots| == 4 && !t.active && t.writer == Idle && t.readers == map[] && t.completed == [] &&
        t.returned == {}
  }

  /** The last completed operation is a publication of `levels`. */
  ghost predicate Latest(completed: seq<Op>, levels: Levels) {
    completed != [] && completed[|completed| - 1] == Publish(levels)
  }

  // ---- The invariant ----------------------------------------------------------------

  ghost predicate WriterInv(t: Tap) {
    && |t.slots| == 4
    && match t.writer
       case Idle =>
         && t.sequence == 2 * |t.completed|
         && (t.active <==> t.completed != [] && t.completed[|t.completed| - 1].Publish?)
         && (t.active ==> t.slots == t.completed[|t.completed| - 1].levels.Slots())
       case Writing(op, next) =>
         && t.sequence == 2 * |t.completed| + 1
         && next <= 5
         && (op.Publish? ==> forall i :: 0 <= i < Min(next, 4) ==> t.slots[i] == op.levels.Slots()[i])
         && (op.Clear? ==> next >= 4)
         && (next == 5 ==> t.active == op.Publish?)
  }

  /** As long as the sequence number stands still, what a reader has loaded is still what is stored. */
  ghost predicate ReaderInv(t: Tap, r: Reader)
    requires |t.slots| == 4
  {
    && r.since <= |t.completed|
    && match r.phase
       case Started => true
       case Sequenced(sequence) => sequence % 2 == 0 && 2 * r.since <= sequence <= t.sequence
       case Loading(sequence, got) =>
         && sequence % 2 == 0 && 2 * r.since <= sequence <= t.sequence && |got| <= 4
         && (sequence == t.sequence ==> t.active && got == t.slots[..|got|])
       case Finished(result) => result.Some? ==> 2 * r.since <= result.value.0 && result.value in t.returned
  }

  ghost predicate ResultInv(t: Tap, result: (nat, Levels)) {
    && result.0 % 2 == 0 && 0 < result.0 <= 2 * |t.completed|
    && t.completed[result.0 / 2 - 1] == Publish(result.1)
  }

  ghost predicate Inv(t: Tap) {
    && WriterInv(t)
    && (forall r :: r in t.readers ==> ReaderInv(t, t.readers[r]))
    && (forall result :: result in t.returned ==> ResultInv(t, result))
  }

  lemma StoreKeepsInv(t: Tap)
    requires Inv(t) && t.writer.Writing?
    ensures Inv(StoreNext(t))
    ensures t.completed <= StoreNext(t).completed
  {
    var t' := StoreNext(t);
    forall r | r in t.readers ensures ReaderInv(t', t'.readers[r]) {
      assert ReaderInv(t, t.readers[r]);
    }
    forall result | result in t.returned ensures ResultInv(t', result) {
      assert ResultInv(t, result);
    }
  }

  /** A read that returns values returns all four of the last completed publication, with no clear since. */
  lemma LoadKeepsInv(t: Tap, r: nat)
    requires Inv(t) && r in t.readers
    ensures forall t' :: Next(t, Load(r), t') ==> Inv(t') && t'.completed == t.completed
    ensures forall result :: result in Returned(Advance(t, t.readers[r].phase)) && !t.readers[r].phase.Finished? ==>
              t.writer.Idle? && Latest(t.completed, result.1) && result.0 == 2 * |t.completed|
  {
    assert ReaderInv(t, t.readers[r]);
    var before, after := t.readers[r].phase, Advance(t, t.readers[r].phase);
    if before.Loading? && |before.got| == 4 && before.sequence == t.sequence {
      assert before.got == t.slots == t.completed[|t.completed| - 1].levels.Slots();
    }
    if before.Loading? && |before.got| < 4 && before.sequence == t.sequence {
      assert t.slots[..|before.got|] + [t.slots[|before.got|]] == t.slots[..|before.got| + 1];
    }
    forall t' | Next(t, Load(r), t') ensures Inv(t') && t'.completed == t.completed {
      assert ReaderInv(t', t'.readers[r]);
      forall q | q in t'.readers ensures ReaderInv(t', t'.readers[q]) {
        assert ReaderInv(t, t.readers[q]);
      }
      forall result | result in t'.returned ensures ResultInv(t', result) {
        if result in t.returned { assert ResultInv(t, result); }
      }
    }
  }

  lemma StepKeepsInv(t: Tap, step: Step, t': Tap)
    requires Inv(t) && Next(t, step, t')
    ensures Inv(t')
    ensures t.completed <= t'.completed && t.returned <= t'.returned
  {
    match step
    case Begin(op) =>
      forall r | r in t.readers ensures ReaderInv(t', t'.readers[r]) { assert ReaderInv(t, t.readers[r]); }
      forall result | result in t.returned ensures ResultInv(t', result) { assert ResultInv(t, result); }
    case Store => StoreKeepsInv(t);
    case StartRead(r) =>
      forall q | q in t'.readers
        ensures ReaderInv(t', t'.readers[q])
      {
        if q != r { assert ReaderInv(t, t.readers[q]); }
      }
      forall result | result in t.returned ensures ResultInv(t', result) { assert ResultInv(t, result); }
    case Load(r) => LoadKeepsInv(t, r);
  }

  // ---- Runs -------------------------------------------------------------------------

  ghost predicate CanStep(t: Tap, t': Tap) { exists step :: Next(t, step, t') }

  ghost predicate Run(run: seq<Tap>) {
    |run| > 0 && Initial(run[0]) && forall i :: 0 <= i < |run| - 1 ==> CanStep(run[i], run[i + 1])
  }

  lemma {:induction false} RunKeepsInv(run: seq<Tap>, n: nat)
    requires Run(run) && n < |run|
    ensures Inv(run[n])
  {
    if n > 0 {
      RunKeepsInv(run, n - 1);
      assert CanStep(run[n - 1], run[n - 1 + 1]);
      var step :| Next(run[n - 1], step, run[n]);
      StepKeepsInv(run[n - 1], step, run[n]);
    }
  }

  lemma OneStepGrows(run: seq<Tap>, n: nat)
    requires Run(run) && n + 1 < |run|
    ensures run[n].completed <= run[n + 1].completed && run[n].returned <= run[n + 1].returned
  {
    RunKeepsInv(run, n);
    assert CanStep(run[n], run[n + 1]);
    var step :| Next(run[n], step, run[n + 1]);
    StepKeepsInv(run[n], step, run[n + 1]);
  }

  lemma {:induction false} HistoryGrows(run: seq<Tap>, m: nat, n: nat)
    requires Run(run) && m <= n < |run|
    ensures run[m].completed <= run[n].completed && run[m].returned <= run[n].returned
    decreases n - m
  {
    if m < n {
      HistoryGrows(run, m, n - 1);
      OneStepGrows(run, n - 1);
    }
  }

  /** Whatever interleaves with it, a read that gives values gives, at that moment, the single latest
      publication, not one cleared since, and not one older than what was complete when it began. */
  lemma ReadIsLatest(run: seq<Tap>, n: nat, r: nat)
    requires Run(run) && n + 1 < |run|
    requires Next(run[n], Load(r), run[n + 1]) && !run[n].readers[r].phase.Finished?
    ensures var phase := run[n + 1].readers[r].phase;
            phase.Finished? && phase.result.Some? ==>
              && run[n].writer.Idle? && Latest(run[n].completed, phase.result.value.1)
              && phase.result.value.0 == 2 * |run[n].completed|
              && run[n + 1].readers[r].since <= |run[n].completed|
  {
    RunKeepsInv(run, n);
    LoadKeepsInv(run[n], r);
    assert ReaderInv(run[n], run[n].readers[r]);
    var phase := run[n + 1].readers[r].phase;
    if phase.Finished? && phase.result.Some? {
      assert phase.result.value in Returned(Advance(run[n], run[n].readers[r].phase));
    }
  }

  /** Two reads, by any readers at any time, that report the same sequence number report the same values. */
  lemma EqualSequenceEqualValues(run: seq<Tap>, m: nat, n: nat, a: (nat, Levels), b: (nat, Levels))
    requires Run(run) && m <= n < |run| && a in run[m].returned && b in run[n].returned && a.0 == b.0
    ensures a == b
  {
    HistoryGrows(run, m, n);
    RunKeepsInv(run, n);
    assert ResultInv(run[n], a) && ResultInv(run[n], b);
  }

  // ---- A read nothing disturbs ------------------------------------------------------

  function Reads(t: Tap, phase: Phase, steps: nat): (r: Phase)
    requires |t.slots| == 4 && (phase.Loading? ==> |phase.got| <= 4)
    ensures r.Loading? ==> |r.got| <= 4
    decreases steps
  {
    if steps == 0 then phase else Reads(t, Advance(t, phase), steps - 1)
  }

  lemma {:induction false} LoadsAll(t: Tap, sequence: nat, got: seq<real>)
    requires |t.slots| == 4 && |got| <= 4 && got == t.slots[..|got|]
    ensures Reads(t, Loading(sequence, got), 4 - |got|) == Loading(sequence, t.slots)
    decreases 4 - |got|
  {
    if |got| < 4 {
      assert got + [t.slots[|got|]] == t.slots[..|got| + 1];
      LoadsAll(t, sequence, got + [t.slots[|got|]]);
    }
  }

  lemma {:induction false} ReadsInTwo(t: Tap, phase: Phase, a: nat, b: nat)
    requires |t.slots| == 4 && (phase.Loading? ==> |phase.got| <= 4)
    ensures Reads(t, phase, a + b) == Reads(t, Reads(t, phase, a), b)
    decreases a
  {
    if a > 0 { ReadsInTwo(t, Advance(t, phase), a - 1, b); }
  }

  /** In any state a run reaches, a read the writer leaves alone gives the latest publication exactly
      when there is one not cleared since. */
  lemma UndisturbedRead(run: seq<Tap>, n: nat, levels: Levels)
    requires Run(run) && n < |run| && run[n].writer.Idle?
    ensures Inv(run[n])
    ensures Reads(run[n], Started, 7).Finished?
    ensures Reads(run[n], Started, 7).result == Some((2 * |run[n].completed|, levels)) <==>
              Latest(run[n].completed, levels)
  {
    RunKeepsInv(run, n);
    var t := run[n];
    assert Advance(t, Started) == Sequenced(t.sequence);
    if t.active {
      LoadsAll(t, t.sequence, []);
      ReadsInTwo(t, Loading(t.sequence, []), 4, 1);
      assert Reads(t, Loading(t.sequence, []), 5) == Advance(t, Loading(t.sequence, t.slots));
    } else {
      ReadsInTwo(t, Finished(None), 4, 1);
      assert Reads(t, Started, 7) == Reads(t, Advance(t, Sequenced(t.sequence)), 5);
    }
  }
}
