/**
 Concurrent dashboard folds and appenders over one store, one store call per step.

 A fold reads the clock, counts the rows, loads the newest snapshot in its window, replays the delta
 (the store looks the newest snapshot up a second time to find where the delta starts), and may persist
 what it folded.
 */
module SnapshotRuns {
  import opened Wrappers
  import opened SnapshotReplay
  import opened DecisionsRegister

  datatype Phase<+S> =
    | Idle
    | Timed(asOf: int)
    | Counted(asOf: int, upto: nat)
    | Loaded(asOf: int, upto: nat, base: Option<Snapshot<S>>)
    | Folded(asOf: int, upto: nat, seen: nat, state: S)

  datatype Store<+S, +E> = Store(log: seq<Entry<E>>, snaps: seq<Snapshot<S>>, folds: map<nat, Phase<S>>)

  datatype Step<+E> =
    | Append(row: Entry<E>)
    | Now(who: nat, time: int)
    | Count(who: nat)
    | Load(who: nat)
    | ReplayDelta(who: nat)
    | Persist(who: nat, fires: bool)
    | Evict(index: nat)

  /** The snapshot with the highest `upto` among those at or before `asOf`, the latest stored on ties. */
  function Newest<S>(snaps: seq<Snapshot<S>>, asOf: int): (r: Option<Snapshot<S>>)
    ensures r.Some? ==> r.value in snaps && r.value.asOf <= asOf
    ensures r.None? ==> forall i | 0 <= i < |snaps| :: asOf < snaps[i].asOf
    ensures r.Some? ==> forall i | 0 <= i < |snaps| && snaps[i].asOf <= asOf :: snaps[i].upto <= r.value.upto
  {
    if snaps == [] then None
    else
      var last, before := snaps[|snaps| - 1], Newest(snaps[..|snaps| - 1], asOf);
      if last.asOf <= asOf && (before.None? || before.value.upto <= last.upto) then Some(last) else before
  }

  function PhaseOf<S, E>(s: Store<S, E>, who: nat): Phase<S> {
    if who in s.folds then s.folds[who] else Idle
  }

  /** The second look-up: the delta starts after the newest snapshot it finds. */
  function DeltaStart<S>(snaps: seq<Snapshot<S>>, asOf: int): nat {
    var again := Newest(snaps, asOf);
    if again.None? then 0 else again.value.upto
  }

  function Delta<S(!new), E(!new)>(p: Projection<S, E>, s: Store<S, E>, asOf: int, base: Option<Snapshot<S>>): S {
    match base
    case None => Full(p, s.log, asOf)
    case Some(b) => ReadFrom(p, s.log, b, DeltaStart(s.snaps, asOf), asOf)
  }

  /** A step that is not enabled does nothing. */
  function Apply<S(!new), E(!new)>(p: Projection<S, E>, s: Store<S, E>, step: Step<E>): Store<S, E> {
    match step
    case Append(row) =>
      if (if s.log == [] then 0 else s.log[|s.log| - 1].seqNo) < row.seqNo then s.(log := s.log + [row]) else s
    case Now(who, time) =>
      if PhaseOf(s, who).Idle? || PhaseOf(s, who).Folded? then s.(folds := s.folds[who := Timed(time)]) else s
    case Count(who) =>
      (match PhaseOf(s, who)
       case Timed(asOf) => s.(folds := s.folds[who := Counted(asOf, |s.log|)])
       case _ => s)
    case Load(who) =>
      (match PhaseOf(s, who)
       case Counted(asOf, upto) => s.(folds := s.folds[who := Loaded(asOf, upto, Newest(s.snaps, asOf))])
       case _ => s)
    case ReplayDelta(who) =>
      (match PhaseOf(s, who)
       case Loaded(asOf, upto, base) =>
         s.(folds := s.folds[who := Folded(asOf, upto, |s.log|, Delta(p, s, asOf, base))])
       case _ => s)
    case Persist(who, fires) =>
      (match PhaseOf(s, who)
       case Folded(asOf, upto, seen, state) =>
         if fires && !exists i | 0 <= i < |s.snaps| :: s.snaps[i].asOf == asOf && s.snaps[i].upto == upto
         then s.(snaps := s.snaps + [Snapshot(asOf, upto, state, seen)])
         else s
       case _ => s)
    case Evict(i) =>
      if i < |s.snaps| then s.(snaps := s.snaps[..i] + s.snaps[i + 1..]) else s
  }

  function Run<S(!new), E(!new)>(p: Projection<S, E>, steps: seq<Step<E>>): Store<S, E> {
    if steps == [] then Store([], [], map[])
    else Apply(p, Run(p, steps[..|steps| - 1]), steps[|steps| - 1])
  }

  /** A delta replay is safe when the rows are undisturbed for the snapshot of the first look-up read
      with a delta that starts where the second one says. */
  ghost predicate SafeStep<S(!new), E(!new)>(s: Store<S, E>, step: Step<E>) {
    step.ReplayDelta? && PhaseOf(s, step.who).Loaded? && PhaseOf(s, step.who).base.Some? ==>
      var ph := PhaseOf(s, step.who);
      var b := ph.base.value;
      b.seen <= |s.log| && Undisturbed(s.log, DeltaStart(s.snaps, ph.asOf), b.seen, b.asOf, ph.asOf)
  }

  ghost predicate SafeRun<S(!new), E(!new)>(p: Projection<S, E>, steps: seq<Step<E>>) {
    forall i | 0 <= i < |steps| :: SafeStep(Run(p, steps[..i]), steps[i])
  }

  // ---- The invariant ----

  ghost predicate GoodSnapshot<S(!new), E(!new)>(p: Projection<S, E>, log: seq<Entry<E>>, snap: Snapshot<S>) {
    snap.upto <= snap.seen && Faithful(p, log, snap)
  }

  ghost predicate GoodPhase<S(!new), E(!new)>(p: Projection<S, E>, log: seq<Entry<E>>, ph: Phase<S>) {
    match ph
    case Idle => true
    case Timed(_) => true
    case Counted(_, upto) => upto <= |log|
    case Loaded(asOf, upto, base) =>
      upto <= |log| && (base.Some? ==> GoodSnapshot(p, log, base.value) && base.value.asOf <= asOf)
    case Folded(asOf, upto, seen, state) => GoodSnapshot(p, log, Snapshot(asOf, upto, state, seen))
  }

  ghost predicate Inv<S(!new), E(!new)>(p: Projection<S, E>, s: Store<S, E>) {
    && WellNumbered(s.log)
    && (forall i | 0 <= i < |s.snaps| :: GoodSnapshot(p, s.log, s.snaps[i]))
    && (forall who | who in s.folds :: GoodPhase(p, s.log, s.folds[who]))
  }

  lemma {:induction false} NumberAbovePosition<E(!new)>(log: seq<Entry<E>>, i: nat)
    requires WellNumbered(log) && i < |log|
    ensures i < log[i].seqNo
  {
    if i > 0 { NumberAbovePosition(log, i - 1); }
  }

  lemma GoodSnapshotGrows<S(!new), E(!new)>(p: Projection<S, E>, log: seq<Entry<E>>, row: Entry<E>, snap: Snapshot<S>)
    requires GoodSnapshot(p, log, snap)
    ensures GoodSnapshot(p, log + [row], snap)
  {
    assert (log + [row])[..snap.seen] == log[..snap.seen];
  }

  lemma AppendKeepsInv<S(!new), E(!new)>(p: Projection<S, E>, s: Store<S, E>, row: Entry<E>)
    requires Inv(p, s)
    ensures Inv(p, Apply(p, s, Append(row)))
  {
    var t := Apply(p, s, Append(row));
    if t != s {
      forall i | 0 <= i < |s.snaps| ensures GoodSnapshot(p, t.log, s.snaps[i]) {
        GoodSnapshotGrows(p, s.log, row, s.snaps[i]);
      }
      forall who | who in s.folds ensures GoodPhase(p, t.log, s.folds[who]) {
        match s.folds[who]
        case Loaded(_, _, base) => if base.Some? { GoodSnapshotGrows(p, s.log, row, base.value); }
        case Folded(asOf, upto, seen, state) => GoodSnapshotGrows(p, s.log, row, Snapshot(asOf, upto, state, seen));
        case _ =>
      }
    }
  }

  /** One fold's delta replay reads exactly what a full replay of the table would. */
  lemma DeltaIsReplay<S(!new), E(!new)>(p: Projection<S, E>, s: Store<S, E>, who: nat)
    requires Inv(p, s) && Reapplicable(p.reduce)
    requires PhaseOf(s, who).Loaded? && SafeStep(s, ReplayDelta(who))
    ensures Delta(p, s, PhaseOf(s, who).asOf, PhaseOf(s, who).base) == Full(p, s.log, PhaseOf(s, who).asOf)
  {
    var ph := PhaseOf(s, who);
    assert GoodPhase(p, s.log, ph);
    if ph.base.Some? {
      ReadEqualsReplay(p, s.log, ph.base.value, DeltaStart(s.snaps, ph.asOf), ph.asOf);
    }
  }

  /** Safety is exact, in every store: the delta replay of the recorder is a full replay if and only if the
      step is safe. */
  lemma SafeStepIsExact<E(!new)>(s: Store<seq<Entry<E>>, E>, who: nat)
    requires Inv(Recorder<E>(), s) && PhaseOf(s, who).Loaded?
    ensures var ph := PhaseOf(s, who);
            Delta(Recorder<E>(), s, ph.asOf, ph.base) == Full(Recorder<E>(), s.log, ph.asOf) <==>
            SafeStep(s, ReplayDelta(who))
  {
    var ph := PhaseOf(s, who);
    assert GoodPhase(Recorder<E>(), s.log, ph);
    if ph.base.Some? {
      UndisturbedIsExact(s.log, ph.base.value, DeltaStart(s.snaps, ph.asOf), ph.asOf);
    }
  }

  lemma LoadKeepsInv<S(!new), E(!new)>(p: Projection<S, E>, s: Store<S, E>, who: nat)
    requires Inv(p, s)
    ensures Inv(p, Apply(p, s, Load(who)))
  {
    hide GoodSnapshot, WellNumbered;
    if PhaseOf(s, who).Counted? {
      var newest := Newest(s.snaps, PhaseOf(s, who).asOf);
      if newest.Some? { var i :| 0 <= i < |s.snaps| && s.snaps[i] == newest.value; }
    }
  }

  lemma DeltaKeepsInv<S(!new), E(!new)>(p: Projection<S, E>, s: Store<S, E>, who: nat)
    requires Inv(p, s) && Reapplicable(p.reduce) && SafeStep(s, ReplayDelta(who))
    ensures Inv(p, Apply(p, s, ReplayDelta(who)))
  {
    hide Delta, Full, Reapplicable, SafeStep, WellNumbered;
    if PhaseOf(s, who).Loaded? {
      DeltaIsReplay(p, s, who);
      assert s.log[..|s.log|] == s.log;
    }
  }

  lemma PersistKeepsInv<S(!new), E(!new)>(p: Projection<S, E>, s: Store<S, E>, who: nat, fires: bool)
    requires Inv(p, s)
    ensures Inv(p, Apply(p, s, Persist(who, fires)))
  {
    hide GoodSnapshot, WellNumbered;
    if PhaseOf(s, who).Folded? { assert GoodPhase(p, s.log, PhaseOf(s, who)); }
  }

  lemma StepKeepsInv<S(!new), E(!new)>(p: Projection<S, E>, s: Store<S, E>, step: Step<E>)
    requires Inv(p, s) && Reapplicable(p.reduce) && SafeStep(s, step)
    ensures Inv(p, Apply(p, s, step))
  {
    hide GoodSnapshot, WellNumbered, Reapplicable, SafeStep;
    match step
    case Append(row) => AppendKeepsInv(p, s, row);
    case ReplayDelta(who) => DeltaKeepsInv(p, s, who);
    case Load(who) => LoadKeepsInv(p, s, who);
    case Persist(who, fires) => PersistKeepsInv(p, s, who, fires);
    case _ =>
  }

  /** MAIN: in every safe interleaving of appends, evictions and any number of folds, every snapshot in
      the store and every fold result is a full replay, at its own time, of the rows that existed when
      it was folded. */
  lemma {:induction false} EveryReadIsAReplay<S(!new), E(!new)>(p: Projection<S, E>, steps: seq<Step<E>>)
    requires Reapplicable(p.reduce) && SafeRun(p, steps)
    ensures Inv(p, Run(p, steps))
  {
    if steps != [] {
      var front := steps[..|steps| - 1];
      assert forall i | 0 <= i < |front| :: front[..i] == steps[..i];
      EveryReadIsAReplay(p, front);
      StepKeepsInv(p, Run(p, front), steps[|steps| - 1]);
    }
  }

  /** MAIN for the register itself: no assumption on the reducer is left. */
  lemma RegisterReadsAreReplays(steps: seq<Step<Event>>, who: nat)
    requires SafeRun(DECISIONS, steps)
    ensures var s := Run(DECISIONS, steps);
      PhaseOf(s, who).Folded? ==>
        && PhaseOf(s, who).seen <= |s.log|
        && PhaseOf(s, who).state == Full(DECISIONS, s.log[..PhaseOf(s, who).seen], PhaseOf(s, who).asOf)
  {
    DecisionsReapplicable();
    EveryReadIsAReplay(DECISIONS, steps);
    assert PhaseOf(Run(DECISIONS, steps), who).Folded? ==>
           GoodPhase(DECISIONS, Run(DECISIONS, steps).log, PhaseOf(Run(DECISIONS, steps), who));
  }

  // ---- A discipline that makes runs safe ----

  ghost predicate Ascending<E(!new)>(log: seq<Entry<E>>) {
    forall i, j | 0 <= i < j < |log| :: log[i].asOf <= log[j].asOf
  }

  /** Rows arrive in business-time order, nothing dated after a fold's clock reading is present when it
      counts, and the two look-ups of one delta replay agree. */
  ghost predicate DisciplinedStep<S(!new), E(!new)>(s: Store<S, E>, step: Step<E>) {
    && (step.Append? ==> forall e | e in s.log :: e.asOf <= step.row.asOf)
    && (step.Count? && PhaseOf(s, step.who).Timed? ==> forall e | e in s.log :: e.asOf <= PhaseOf(s, step.who).asOf)
    && (step.ReplayDelta? && PhaseOf(s, step.who).Loaded? && PhaseOf(s, step.who).base.Some? ==>
          Newest(s.snaps, PhaseOf(s, step.who).asOf) == PhaseOf(s, step.who).base)
  }

  ghost predicate DisciplinedRun<S(!new), E(!new)>(p: Projection<S, E>, steps: seq<Step<E>>) {
    forall i | 0 <= i < |steps| :: DisciplinedStep(Run(p, steps[..i]), steps[i])
  }

  ghost predicate InTime<E(!new)>(log: seq<Entry<E>>, upto: nat, asOf: int) {
    upto <= |log| && forall i | 0 <= i < upto :: log[i].asOf <= asOf
  }

  ghost predicate SnapshotInTime<S(!new), E(!new)>(log: seq<Entry<E>>, snap: Snapshot<S>) {
    snap.upto <= snap.seen <= |log| && InTime(log, snap.upto, snap.asOf)
  }

  ghost predicate PhaseInTime<S(!new), E(!new)>(log: seq<Entry<E>>, ph: Phase<S>) {
    match ph
    case Idle => true
    case Timed(_) => true
    case Counted(asOf, upto) => InTime(log, upto, asOf)
    case Loaded(asOf, upto, base) => InTime(log, upto, asOf) && (base.Some? ==> SnapshotInTime(log, base.value))
    case Folded(asOf, upto, seen, _) => upto <= seen <= |log| && InTime(log, upto, asOf)
  }

  ghost predicate Timely<S(!new), E(!new)>(s: Store<S, E>) {
    && WellNumbered(s.log) && Ascending(s.log)
    && (forall i | 0 <= i < |s.snaps| :: SnapshotInTime(s.log, s.snaps[i]))
    && (forall who | who in s.folds :: PhaseInTime(s.log, s.folds[who]))
  }

  lemma AppendedLog<E(!new)>(log: seq<Entry<E>>, row: Entry<E>)
    requires WellNumbered(log) && Ascending(log) && (forall e | e in log :: e.asOf <= row.asOf)
    requires (if log == [] then 0 else log[|log| - 1].seqNo) < row.seqNo
    ensures WellNumbered(log + [row]) && Ascending(log + [row])
  {
    forall i | 0 <= i < |log| ensures log[i].seqNo < row.seqNo && log[i].asOf <= row.asOf {
      assert i < |log| - 1 ==> log[i].seqNo < log[|log| - 1].seqNo;
    }
  }

  lemma InTimeGrows<E(!new)>(log: seq<Entry<E>>, row: Entry<E>, upto: nat, asOf: int)
    requires InTime(log, upto, asOf)
    ensures InTime(log + [row], upto, asOf)
  {
    assert forall i | 0 <= i < |log| :: (log + [row])[i] == log[i];
  }

  lemma AppendKeepsTimely<S(!new), E(!new)>(p: Projection<S, E>, s: Store<S, E>, row: Entry<E>)
    requires Timely(s) && DisciplinedStep(s, Append(row))
    ensures Timely(Apply(p, s, Append(row)))
  {
    var t := Apply(p, s, Append(row));
    if t != s {
      AppendedLog(s.log, row);
      forall i | 0 <= i < |s.snaps| ensures SnapshotInTime(t.log, s.snaps[i]) {
        InTimeGrows(s.log, row, s.snaps[i].upto, s.snaps[i].asOf);
      }
      forall who | who in s.folds ensures PhaseInTime(t.log, s.folds[who]) {
        match s.folds[who]
        case Counted(asOf, upto) => InTimeGrows(s.log, row, upto, asOf);
        case Loaded(asOf, upto, base) =>
          InTimeGrows(s.log, row, upto, asOf);
          if base.Some? { InTimeGrows(s.log, row, base.value.upto, base.value.asOf); }
        case Folded(asOf, upto, _, _) => InTimeGrows(s.log, row, upto, asOf);
        case _ =>
      }
    }
  }

  lemma LoadKeepsTimely<S(!new), E(!new)>(p: Projection<S, E>, s: Store<S, E>, who: nat)
    requires Timely(s)
    ensures Timely(Apply(p, s, Load(who)))
  {
    hide SnapshotInTime, InTime, WellNumbered, Ascending;
    if PhaseOf(s, who).Counted? {
      var newest := Newest(s.snaps, PhaseOf(s, who).asOf);
      if newest.Some? { var i :| 0 <= i < |s.snaps| && s.snaps[i] == newest.value; }
    }
  }

  lemma StepKeepsTimely<S(!new), E(!new)>(p: Projection<S, E>, s: Store<S, E>, step: Step<E>)
    requires Timely(s) && DisciplinedStep(s, step)
    ensures Timely(Apply(p, s, step))
  {
    match step
    case Append(row) => AppendKeepsTimely(p, s, row);
    case Load(who) => LoadKeepsTimely(p, s, who);
    case _ =>
  }

  lemma TimelyIsSafe<S(!new), E(!new)>(s: Store<S, E>, step: Step<E>)
    requires Timely(s) && DisciplinedStep(s, step)
    ensures SafeStep(s, step)
  {
    if step.ReplayDelta? && PhaseOf(s, step.who).Loaded? && PhaseOf(s, step.who).base.Some? {
      var ph := PhaseOf(s, step.who);
      var b := ph.base.value;
      assert PhaseInTime(s.log, ph);
      forall i | 0 <= i < |s.log| && s.log[i].seqNo <= b.upto ensures i < b.seen && s.log[i].asOf <= b.asOf {
        NumberAbovePosition(s.log, i);
      }
      MonotoneLog(s.log, b.upto, b.seen, b.asOf, ph.asOf);
    }
  }

  lemma SafeRunExtends<S(!new), E(!new)>(p: Projection<S, E>, front: seq<Step<E>>, last: Step<E>)
    requires SafeRun(p, front) && SafeStep(Run(p, front), last)
    ensures SafeRun(p, front + [last])
  {
    var steps := front + [last];
    forall i | 0 <= i < |steps| ensures SafeStep(Run(p, steps[..i]), steps[i]) {
      assert steps[..i] == front[..i];
      if i < |front| { assert steps[i] == front[i]; } else { assert front[..i] == front; }
    }
  }

  lemma DisciplinedPrefix<S(!new), E(!new)>(p: Projection<S, E>, front: seq<Step<E>>, last: Step<E>)
    requires DisciplinedRun(p, front + [last])
    ensures DisciplinedRun(p, front) && DisciplinedStep(Run(p, front), last)
  {
    var steps := front + [last];
    assert steps[..|front|] == front && steps[|front|] == last;
    forall i | 0 <= i < |front| ensures DisciplinedStep(Run(p, front[..i]), front[i]) {
      assert steps[..i] == front[..i] && steps[i] == front[i];
    }
  }

  /** MAIN: a disciplined run is safe, so all its reads are replays. */
  lemma {:induction false} DisciplinedRunsAreSafe<S(!new), E(!new)>(p: Projection<S, E>, steps: seq<Step<E>>)
    requires DisciplinedRun(p, steps)
    ensures SafeRun(p, steps) && Timely(Run(p, steps))
  {
    if steps != [] {
      var front, last := steps[..|steps| - 1], steps[|steps| - 1];
      assert steps == front + [last];
      DisciplinedPrefix(p, front, last);
      DisciplinedRunsAreSafe(p, front);
      TimelyIsSafe(Run(p, front), last);
      StepKeepsTimely(p, Run(p, front), last);
      SafeRunExtends(p, front, last);
    }
  }

  // ---- Runs that lose an event ----

  const PROPOSAL: Event := Event("e1", "ceo", DecisionRequested("D-1", "Adopt", UNKNOWN_BRIEF))

  lemma Extend<S(!new), E(!new)>(p: Projection<S, E>, steps: seq<Step<E>>, step: Step<E>)
    ensures Run(p, steps + [step]) == Apply(p, Run(p, steps), step)
  {
    assert (steps + [step])[..|steps|] == steps;
  }

  /** An empty store on which one fold, clocked at `time`, has persisted its first snapshot after
      `row` arrived between its clock reading and its count. */
  lemma FirstSnapshot(row: Recorded, time: int) returns (steps: seq<Step<Event>>)
    requires 0 < row.seqNo && time < row.asOf
    ensures Run(DECISIONS, steps).log == [row]
    ensures Run(DECISIONS, steps).snaps == [Snapshot(time, 1, EMPTY, 1)]
    ensures PhaseOf(Run(DECISIONS, steps), 0).Folded?
  {
    hide Run, Replay, Fold, Reduce;
    steps := [];
    NothingRun(DECISIONS);
    Extend(DECISIONS, steps, Now(0, time));
    steps := steps + [Now(0, time)];
    assert Run(DECISIONS, steps) == Store([], [], map[0 := Timed(time)]);
    Extend(DECISIONS, steps, Append(row));
    steps := steps + [Append(row)];
    assert Run(DECISIONS, steps) == Store([row], [], map[0 := Timed(time)]);
    Extend(DECISIONS, steps, Count(0));
    steps := steps + [Count(0)];
    assert Run(DECISIONS, steps) == Store([row], [], map[0 := Counted(time, 1)]);
    Extend(DECISIONS, steps, Load(0));
    steps := steps + [Load(0)];
    assert Run(DECISIONS, steps) == Store([row], [], map[0 := Loaded(time, 1, None)]);
    Extend(DECISIONS, steps, ReplayDelta(0));
    steps := steps + [ReplayDelta(0)];
    ReplayNone([row], 0, time);
    assert Full(DECISIONS, [row], time) == EMPTY by { FoldNone(); }
    assert Run(DECISIONS, steps) == Store([row], [], map[0 := Folded(time, 1, 1, EMPTY)]);
    Extend(DECISIONS, steps, Persist(0, true));
    steps := steps + [Persist(0, true)];
  }

  lemma NothingRun<S(!new), E(!new)>(p: Projection<S, E>)
    ensures Run(p, []) == Store([], [], map[])
  {}

  lemma FoldNone()
    ensures Fold(Reduce, EMPTY, []) == EMPTY
  {}

  lemma RequestIsSeen(row: Recorded, asOf: int)
    requires row.body == PROPOSAL && 0 < row.seqNo && row.asOf <= asOf
    ensures "D-1" in Full(DECISIONS, [row], asOf).rows
  {
    assert [row][..0] == [];
    assert Replay([row], 0, asOf) == [row];
    assert Fold(Reduce, EMPTY, [row]) == Reduce(EMPTY, row);
  }

  /** Counting before folding does not close the race: a row appended between the clock reading and the
      count, dated after the reading, is claimed by the snapshot, was not folded, and is missing from
      the next read although that read is dated after it. */
  lemma RowBetweenClockAndCountIsLost() returns (steps: seq<Step<Event>>)
    ensures var s := Run(DECISIONS, steps);
      && PhaseOf(s, 0).Folded? && |s.log| == 1 && s.log[0].asOf <= PhaseOf(s, 0).asOf
      && "D-1" in Full(DECISIONS, s.log, PhaseOf(s, 0).asOf).rows
      && "D-1" !in PhaseOf(s, 0).state.rows
  {
    hide Run, Replay, Fold, Reduce;
    var row := Entry(1, 11, PROPOSAL);
    steps := FirstSnapshot(row, 10);
    FoldNone();
    Extend(DECISIONS, steps, Now(0, 20));
    steps := steps + [Now(0, 20)];
    Extend(DECISIONS, steps, Count(0));
    steps := steps + [Count(0)];
    var snap := Snapshot(10, 1, EMPTY, 1);
    assert Newest([snap], 20) == Some(snap);
    Extend(DECISIONS, steps, Load(0));
    steps := steps + [Load(0)];
    ReplayNone([row], 1, 20);
    Extend(DECISIONS, steps, ReplayDelta(0));
    steps := steps + [ReplayDelta(0)];
    assert PhaseOf(Run(DECISIONS, steps), 0).state == EMPTY;
    RequestIsSeen(row, 20);
  }

  /** Counting after the fold loses an event too: the row that arrived during the fold is claimed. */
  lemma CountingAfterTheFoldLoses(row: Recorded, asOf: int, later: int)
    requires row.body == PROPOSAL && row.seqNo == 1 && row.asOf <= asOf <= later
    ensures var late := Snapshot(asOf, 1, Full(DECISIONS, [], asOf), 0);
      && "D-1" !in ReadFrom(DECISIONS, [row], late, 1, later).rows
      && "D-1" in Full(DECISIONS, [row], later).rows
    ensures var early := Snapshot(asOf, 0, Full(DECISIONS, [], asOf), 0);
      ReadFrom(DECISIONS, [row], early, 0, later) == Full(DECISIONS, [row], later)
  {
    ReplayNone([row], 1, later);
    RequestIsSeen(row, later);
    ReplaySame([row], 0, later, 0, later);
  }

  /** One whole fold by `who`, with nothing else in between. */
  lemma WholeFold(steps: seq<Step<Event>>, who: nat, time: int) returns (longer: seq<Step<Event>>)
    requires PhaseOf(Run(DECISIONS, steps), who).Idle? && Run(DECISIONS, steps).snaps == []
    ensures var s, t := Run(DECISIONS, steps), Run(DECISIONS, longer);
      && t.log == s.log
      && t.snaps == [Snapshot(time, |s.log|, Full(DECISIONS, s.log, time), |s.log|)]
      && (forall other | other != who :: PhaseOf(t, other) == PhaseOf(s, other))
      && PhaseOf(t, who).Folded?
  {
    hide Run, Replay, Fold, Reduce, Full;
    longer := steps + [Now(who, time)];
    Extend(DECISIONS, steps, Now(who, time));
    Extend(DECISIONS, longer, Count(who));
    longer := longer + [Count(who)];
    Extend(DECISIONS, longer, Load(who));
    longer := longer + [Load(who)];
    Extend(DECISIONS, longer, ReplayDelta(who));
    longer := longer + [ReplayDelta(who)];
    Extend(DECISIONS, longer, Persist(who, true));
    longer := longer + [Persist(who, true)];
  }

  /** The two look-ups of one replay can disagree: while fold 0 is between them, fold 1 reads and
      persists; fold 0's delta then starts after that newer snapshot and its older seed never receives
      the row. */
  lemma NewerSnapshotBetweenLookupsLoses() returns (steps: seq<Step<Event>>)
    ensures var s := Run(DECISIONS, steps);
      && PhaseOf(s, 0).Folded? && |s.log| == 1 && s.log[0].asOf <= PhaseOf(s, 0).asOf
      && "D-1" in Full(DECISIONS, s.log, PhaseOf(s, 0).asOf).rows
      && "D-1" !in PhaseOf(s, 0).state.rows
  {
    hide Run, Replay, Fold, Reduce, Full;
    var row := Entry(1, 6, PROPOSAL);
    var older := Snapshot(5, 0, EMPTY, 0);
    steps := OlderLoaded(row, older);
    steps := SecondFold(steps, row, older);
    var newer := Snapshot(10, 1, Full(DECISIONS, [row], 10), 1);
    assert [older, newer][..1] == [older];
    ReplayNone([row], 1, 10);
    FoldNone();
    Extend(DECISIONS, steps, ReplayDelta(0));
    steps := steps + [ReplayDelta(0)];
    RequestIsSeen(row, 10);
  }

  lemma OlderLoaded(row: Recorded, older: Snapshot<Register>) returns (steps: seq<Step<Event>>)
    requires row == Entry(1, 6, PROPOSAL) && older == Snapshot(5, 0, EMPTY, 0)
    ensures Run(DECISIONS, steps).log == [row] && Run(DECISIONS, steps).snaps == [older]
    ensures PhaseOf(Run(DECISIONS, steps), 0) == Loaded(10, 1, Some(older)) && PhaseOf(Run(DECISIONS, steps), 1).Folded?
  {
    assert Full(DECISIONS, [], 5) == EMPTY;
    NothingRun(DECISIONS);
    hide Run, Replay, Fold, Reduce, Full;
    steps := WholeFold([], 1, 5);
    assert PhaseOf(Run(DECISIONS, steps), 0).Idle?;
    Extend(DECISIONS, steps, Append(row));
    steps := steps + [Append(row)];
    assert PhaseOf(Run(DECISIONS, steps), 0).Idle? && PhaseOf(Run(DECISIONS, steps), 1).Folded?;
    Extend(DECISIONS, steps, Now(0, 10));
    steps := steps + [Now(0, 10)];
    Extend(DECISIONS, steps, Count(0));
    steps := steps + [Count(0)];
    assert PhaseOf(Run(DECISIONS, steps), 0) == Counted(10, 1);
    assert Newest([older], 10) == Some(older);
    Extend(DECISIONS, steps, Load(0));
    steps := steps + [Load(0)];
  }

  lemma SecondFold(steps: seq<Step<Event>>, row: Recorded, older: Snapshot<Register>) returns (longer: seq<Step<Event>>)
    requires row == Entry(1, 6, PROPOSAL) && older == Snapshot(5, 0, EMPTY, 0)
    requires Run(DECISIONS, steps).log == [row] && Run(DECISIONS, steps).snaps == [older]
    requires PhaseOf(Run(DECISIONS, steps), 1).Folded?
    ensures Run(DECISIONS, longer).log == [row]
    ensures Run(DECISIONS, longer).snaps == [older, Snapshot(10, 1, Full(DECISIONS, [row], 10), 1)]
    ensures PhaseOf(Run(DECISIONS, longer), 0) == PhaseOf(Run(DECISIONS, steps), 0)
  {
    hide Run, Replay, Reduce;
    longer := steps + [Now(1, 10)];
    Extend(DECISIONS, steps, Now(1, 10));
    Extend(DECISIONS, longer, Count(1));
    longer := longer + [Count(1)];
    assert Newest([older], 10) == Some(older);
    Extend(DECISIONS, longer, Load(1));
    longer := longer + [Load(1)];
    ReplaySame([row], 0, 10, 0, 10);
    Extend(DECISIONS, longer, ReplayDelta(1));
    longer := longer + [ReplayDelta(1)];
    assert PhaseOf(Run(DECISIONS, longer), 1).state == Full(DECISIONS, [row], 10);
    Extend(DECISIONS, longer, Persist(1, true));
    longer := longer + [Persist(1, true)];
  }

  // ---- The store's own rules ----

  /** Snapshot `k` has the greatest claim of those at or before the time, the last stored among equals. */
  ghost predicate IsNewest<S(!new)>(snaps: seq<Snapshot<S>>, asOf: int, k: nat) {
    && k < |snaps| && snaps[k].asOf <= asOf
    && forall j | 0 <= j < |snaps| && snaps[j].asOf <= asOf ::
         snaps[j].upto < snaps[k].upto || (snaps[j].upto == snaps[k].upto && j <= k)
  }

  lemma {:induction false} NewestMeans<S(!new)>(snaps: seq<Snapshot<S>>, asOf: int)
    ensures Newest(snaps, asOf).None? <==> forall j | 0 <= j < |snaps| :: asOf < snaps[j].asOf
    ensures Newest(snaps, asOf).Some? ==>
              exists k: nat :: IsNewest(snaps, asOf, k) && snaps[k] == Newest(snaps, asOf).value
  {
    if snaps != [] {
      hide IsNewest;
      var n := |snaps| - 1;
      var front := snaps[..n];
      NewestMeans(front, asOf);
      if Newest(front, asOf).Some? {
        var k: nat :| IsNewest(front, asOf, k) && front[k] == Newest(front, asOf).value;
        IsNewestStill(snaps, asOf, k);
      } else if snaps[n].asOf <= asOf {
        assert forall j | 0 <= j < n :: snaps[j] == front[j];
        IsNewestFirst(snaps, asOf);
      }
    }
  }

  lemma IsNewestFirst<S(!new)>(snaps: seq<Snapshot<S>>, asOf: int)
    requires snaps != [] && snaps[|snaps| - 1].asOf <= asOf
    requires forall j | 0 <= j < |snaps| - 1 :: asOf < snaps[j].asOf
    ensures IsNewest(snaps, asOf, |snaps| - 1)
  {}

  lemma IsNewestStill<S(!new)>(snaps: seq<Snapshot<S>>, asOf: int, k: nat)
    requires snaps != [] && IsNewest(snaps[..|snaps| - 1], asOf, k)
    ensures k < |snaps| - 1 && snaps[k] == snaps[..|snaps| - 1][k] && snaps[k].asOf <= asOf
    ensures IsNewest(snaps, asOf, if snaps[|snaps| - 1].asOf <= asOf && snaps[k].upto <= snaps[|snaps| - 1].upto
                                  then |snaps| - 1 else k)
  {
    assert forall j | 0 <= j < |snaps| - 1 :: snaps[..|snaps| - 1][j] == snaps[j];
  }

  /** The rows a delta replays: those above the claim of the newest snapshot its own look-up finds, and all of them when
      it finds none, be there one in hand or not. */
  lemma DeltaRows<S(!new), E(!new)>(log: seq<Entry<E>>, snaps: seq<Snapshot<S>>, asOf: int, e: Entry<E>)
    requires WellNumbered(log)
    ensures e in Replay(log, DeltaStart(snaps, asOf), asOf) <==>
            e in log && e.asOf <= asOf && forall k: nat | IsNewest(snaps, asOf, k) :: snaps[k].upto < e.seqNo
  {
    ReplayMembers(log, DeltaStart(snaps, asOf), asOf);
    NewestMeans(snaps, asOf);
    forall j: nat, k: nat | IsNewest(snaps, asOf, j) && IsNewest(snaps, asOf, k) ensures j == k {}
  }

  ghost predicate ClaimsDiffer<S(!new)>(snaps: seq<Snapshot<S>>) {
    forall i, j | 0 <= i < j < |snaps| :: snaps[i].asOf != snaps[j].asOf || snaps[i].upto != snaps[j].upto
  }

  /** In every run no two snapshots are stored for the same time and claim. */
  lemma {:induction false} OneSnapshotPerClaim<S(!new), E(!new)>(p: Projection<S, E>, steps: seq<Step<E>>)
    ensures ClaimsDiffer(Run(p, steps).snaps)
  {
    if steps != [] {
      var n := |steps| - 1;
      OneSnapshotPerClaim(p, steps[..n]);
      ClaimsStayDifferent(p, Run(p, steps[..n]), steps[n]);
    }
  }

  /** Offering a snapshot leaves one for its time and claim, after all that were there. */
  lemma ClaimIsStored<S(!new), E(!new)>(p: Projection<S, E>, s: Store<S, E>, who: nat)
    requires PhaseOf(s, who).Folded?
    ensures var t := Apply(p, s, Persist(who, true));
            && s.snaps <= t.snaps
            && exists i | 0 <= i < |t.snaps| ::
                 t.snaps[i].asOf == PhaseOf(s, who).asOf && t.snaps[i].upto == PhaseOf(s, who).upto
  {
    var t := Apply(p, s, Persist(who, true));
    if t.snaps != s.snaps {
      assert t.snaps[|s.snaps|].upto == PhaseOf(s, who).upto;
    }
  }

  lemma ClaimsStayDifferent<S(!new), E(!new)>(p: Projection<S, E>, s: Store<S, E>, step: Step<E>)
    requires ClaimsDiffer(s.snaps)
    ensures ClaimsDiffer(Apply(p, s, step).snaps)
  {
    hide Delta, Newest;
    if step.Evict? {
      EvictedDiffer(s.snaps, step.index);
    }
  }

  lemma EvictedDiffer<S(!new)>(snaps: seq<Snapshot<S>>, i: nat)
    requires ClaimsDiffer(snaps)
    ensures i < |snaps| ==> ClaimsDiffer(snaps[..i] + snaps[i + 1..])
  {}
}
