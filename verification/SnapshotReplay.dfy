/**
 Snapshot plus delta against full replay.

 `buildRmsRegistersFold` takes its clock reading, then the row count, then asks the projector for
 "newest snapshot plus later rows", and finally persists the result as a snapshot covering "all rows
 up to the count".  Other processes append, and fold and persist snapshots of their own, between any
 two of those calls.  This module models the event table, the snapshot table, and every fold as a
 process that takes one store call at a time.
 */
module SnapshotReplay {
  import opened Wrappers

  /** One row of the event table.  Row numbers increase but may have gaps, so a row's number can
      exceed its position. */
  datatype Entry<+E> = Entry(seqNo: nat, asOf: int, body: E)

  /** One row of the snapshot table.  `seen` is a history variable: the number of event rows that
      existed when the state was folded.  The store does not keep it. */
  datatype Snapshot<+S> = Snapshot(asOf: int, upto: nat, state: S, seen: nat)

  datatype Projection<!S, !E> = Projection(initial: S, reduce: (S, Entry<E>) -> S)

  ghost predicate WellNumbered<E(!new)>(log: seq<Entry<E>>) {
    && (forall i | 0 <= i < |log| :: 0 < log[i].seqNo)
    && (forall i, j | 0 <= i < j < |log| :: log[i].seqNo < log[j].seqNo)
  }

  /** The fold loop of the projector, oldest row first. */
  function Fold<S(!new), E(!new)>(reduce: (S, Entry<E>) -> S, s: S, rows: seq<Entry<E>>): S {
    if rows == [] then s
    else reduce(Fold(reduce, s, rows[..|rows| - 1]), rows[|rows| - 1])
  }

  /** The rows numbered above `after` whose business time is at most `asOf`, in order. */
  function Replay<E(!new)>(log: seq<Entry<E>>, after: nat, asOf: int): (rows: seq<Entry<E>>) {
    if log == [] then []
    else
      var e := log[|log| - 1];
      var before := Replay(log[..|log| - 1], after, asOf);
      if after < e.seqNo && e.asOf <= asOf then before + [e] else before
  }

  /** What a fold with no snapshot computes. */
  function Full<S(!new), E(!new)>(p: Projection<S, E>, log: seq<Entry<E>>, asOf: int): S {
    Fold(p.reduce, p.initial, Replay(log, 0, asOf))
  }

  /** Re-applying a batch of rows that was just applied, in the same order, changes nothing. */
  ghost predicate Reapplicable<S(!new), E(!new)>(reduce: (S, Entry<E>) -> S) {
    forall s: S, rows: seq<Entry<E>> :: Fold(reduce, Fold(reduce, s, rows), rows) == Fold(reduce, s, rows)
  }

  /** The snapshot is a full replay, at its own time, of the rows it had seen. */
  ghost predicate Faithful<S(!new), E(!new)>(p: Projection<S, E>, log: seq<Entry<E>>, snap: Snapshot<S>) {
    snap.seen <= |log| && snap.state == Full(p, log[..snap.seen], snap.asOf)
  }

  /** The condition on the rows for a snapshot of the first `seen` rows taken at `a1`, read at `a2` with
      the rows numbered above `after` on top.  Every row up to `a2` was folded by the snapshot or is
      numbered above `after`; and no row dated between the two times comes before one the snapshot
      folded. */
  ghost predicate Undisturbed<E(!new)>(log: seq<Entry<E>>, after: nat, seen: nat, a1: int, a2: int)
    requires seen <= |log|
  {
    && (forall i | 0 <= i < |log| && log[i].seqNo <= after && log[i].asOf <= a2 :: i < seen && log[i].asOf <= a1)
    && (forall i, j | 0 <= i < j < seen && a1 < log[i].asOf <= a2 :: a1 < log[j].asOf)
  }

  /** Snapshot plus delta: the seed state with the rows above `after` folded on top. */
  function ReadFrom<S(!new), E(!new)>(p: Projection<S, E>, log: seq<Entry<E>>, snap: Snapshot<S>, after: nat,
                                      asOf: int): S {
    Fold(p.reduce, snap.state, Replay(log, after, asOf))
  }

  // ---- Folding and replaying over concatenations ----

  lemma {:induction false} FoldConcat<S(!new), E(!new)>(reduce: (S, Entry<E>) -> S, s: S, xs: seq<Entry<E>>,
                                                        ys: seq<Entry<E>>)
    ensures Fold(reduce, s, xs + ys) == Fold(reduce, Fold(reduce, s, xs), ys)
    decreases |ys|
  {
    if ys == [] {
      assert xs + ys == xs;
    } else {
      var zs := xs + ys;
      assert zs[..|zs| - 1] == xs + ys[..|ys| - 1] && zs[|zs| - 1] == ys[|ys| - 1];
      FoldConcat(reduce, s, xs, ys[..|ys| - 1]);
    }
  }

  lemma {:induction false} ReplayConcat<E(!new)>(xs: seq<Entry<E>>, ys: seq<Entry<E>>, after: nat, asOf: int)
    ensures Replay(xs + ys, after, asOf) == Replay(xs, after, asOf) + Replay(ys, after, asOf)
    decreases |ys|
  {
    if ys == [] {
      assert xs + ys == xs;
    } else {
      var zs := xs + ys;
      assert zs[..|zs| - 1] == xs + ys[..|ys| - 1] && zs[|zs| - 1] == ys[|ys| - 1];
      ReplayConcat(xs, ys[..|ys| - 1], after, asOf);
    }
  }

  lemma {:induction false} ReplayMembers<E(!new)>(log: seq<Entry<E>>, after: nat, asOf: int)
    ensures forall e :: e in Replay(log, after, asOf) <==> e in log && after < e.seqNo && e.asOf <= asOf
  {
    if log != [] {
      ReplayMembers(log[..|log| - 1], after, asOf);
      assert log == log[..|log| - 1] + [log[|log| - 1]];
    }
  }

  /** Two replays that select the same rows of a log are equal. */
  lemma {:induction false} ReplaySame<E(!new)>(log: seq<Entry<E>>, u: nat, a: int, v: nat, b: int)
    requires forall i | 0 <= i < |log| ::
             (u < log[i].seqNo && log[i].asOf <= a) == (v < log[i].seqNo && log[i].asOf <= b)
    ensures Replay(log, u, a) == Replay(log, v, b)
  {
    if log != [] {
      ReplaySame(log[..|log| - 1], u, a, v, b);
      assert log[|log| - 1] == log[|log| - 1];
    }
  }

  lemma {:induction false} ReplayNone<E(!new)>(log: seq<Entry<E>>, after: nat, asOf: int)
    requires forall i | 0 <= i < |log| :: log[i].seqNo <= after || asOf < log[i].asOf
    ensures Replay(log, after, asOf) == []
  {
    if log != [] {
      ReplayNone(log[..|log| - 1], after, asOf);
      assert log[|log| - 1] == log[|log| - 1];
    }
  }

  /** Where the rows above `upto` begin. */
  function Boundary<E(!new)>(log: seq<Entry<E>>, upto: nat): (k: nat)
    requires forall i, j | 0 <= i < j < |log| :: log[i].seqNo < log[j].seqNo
    ensures k <= |log|
    ensures forall i | 0 <= i < |log| :: log[i].seqNo <= upto <==> i < k
  {
    if log == [] then 0
    else if log[|log| - 1].seqNo <= upto then |log|
    else Boundary(log[..|log| - 1], upto)
  }

  /** The first of the first `to` rows that is dated between the two times. */
  ghost function FirstBetween<E(!new)>(log: seq<Entry<E>>, from: nat, to: nat, a1: int, a2: int): (k: nat)
    requires from <= to <= |log|
    ensures from <= k <= to
    ensures forall i | from <= i < k :: !(a1 < log[i].asOf <= a2)
    ensures k < to ==> a1 < log[k].asOf <= a2
    decreases |log| - from
  {
    if from == to || a1 < log[from].asOf <= a2 then from else FirstBetween(log, from + 1, to, a1, a2)
  }

  lemma Cut<T>(s: seq<T>, i: nat, j: nat, k: nat)
    requires i <= j <= k <= |s|
    ensures s == s[..i] + s[i..j] + s[j..]
    ensures s[..k] == s[..i] + s[i..j] + s[j..k]
  {
  }

  lemma ReplayParts<E(!new)>(l0: seq<Entry<E>>, l1: seq<Entry<E>>, l2: seq<Entry<E>>, after: nat, asOf: int)
    ensures Replay(l0 + l1 + l2, after, asOf) ==
            Replay(l0, after, asOf) + Replay(l1, after, asOf) + Replay(l2, after, asOf)
  {
    ReplayConcat(l0 + l1, l2, after, asOf);
    ReplayConcat(l0, l1, after, asOf);
  }

  /** Where the delta's rows and the snapshot's rows part: the delta starts in the first segment's end, the
      snapshot's rows end with the second segment. */
  ghost predicate Parted<E(!new)>(log: seq<Entry<E>>, after: nat, seen: nat, a1: int, a2: int, k: nat, m: nat)
  {
    && k <= m <= seen <= |log|
    && (forall i | 0 <= i < m :: log[i].asOf <= a1 <==> log[i].asOf <= a2)
    && (forall i | m <= i < seen :: a1 < log[i].asOf)
    && (forall i | 0 <= i < k :: log[i].seqNo <= after)
    && (forall i | k <= i < |log| && log[i].asOf <= a2 :: after < log[i].seqNo)
  }

  lemma UndisturbedParts<E(!new)>(log: seq<Entry<E>>, after: nat, seen: nat, a1: int, a2: int)
    returns (k: nat, m: nat)
    requires WellNumbered(log) && seen <= |log| && a1 <= a2
    requires Undisturbed(log, after, seen, a1, a2)
    ensures Parted(log, after, seen, a1, a2, k, m)
  {
    m := FirstBetween(log, 0, seen, a1, a2);
    var boundary := Boundary(log, after);
    k := if boundary <= m then boundary else m;
  }

  lemma Segment<T>(s: seq<T>, i: nat, j: nat)
    requires i <= j <= |s|
    ensures forall k | 0 <= k < j - i :: s[i..j][k] == s[i + k]
  {
  }

  /** The snapshot's rows are those of the first two segments. */
  lemma SnapshotRows<E(!new)>(log: seq<Entry<E>>, after: nat, seen: nat, a1: int, a2: int, k: nat, m: nat)
    requires Parted(log, after, seen, a1, a2, k, m)
    ensures Replay(log[..seen], 0, a1) == Replay(log[..k], 0, a2) + Replay(log[k..m], 0, a2)
  {
    hide Replay;
    Cut(log, k, m, seen);
    Segment(log, k, m);
    Segment(log, m, seen);
    ReplayParts(log[..k], log[k..m], log[m..seen], 0, a1);
    ReplaySame(log[..k], 0, a1, 0, a2);
    ReplaySame(log[k..m], 0, a1, 0, a2);
    ReplayNone(log[m..seen], 0, a1);
  }

  /** The delta's rows are those of the last two segments. */
  lemma DeltaRows<E(!new)>(log: seq<Entry<E>>, after: nat, seen: nat, a1: int, a2: int, k: nat, m: nat)
    requires WellNumbered(log) && Parted(log, after, seen, a1, a2, k, m)
    ensures Replay(log, after, a2) == Replay(log[k..m], 0, a2) + Replay(log[m..], 0, a2)
  {
    hide Replay;
    Cut(log, k, m, seen);
    Segment(log, k, m);
    Segment(log, m, |log|);
    assert log[m..|log|] == log[m..];
    ReplayParts(log[..k], log[k..m], log[m..], after, a2);
    ReplayNone(log[..k], after, a2);
    ReplaySame(log[k..m], after, a2, 0, a2);
    ReplaySame(log[m..], after, a2, 0, a2);
  }

  /** Under `Undisturbed`, the rows of a full replay are A + X + Y where the snapshot folded exactly
      A + X and the delta is exactly X + Y. */
  lemma Decomposition<E(!new)>(log: seq<Entry<E>>, after: nat, seen: nat, a1: int, a2: int)
    returns (a: seq<Entry<E>>, x: seq<Entry<E>>, y: seq<Entry<E>>)
    requires WellNumbered(log) && seen <= |log| && a1 <= a2
    requires Undisturbed(log, after, seen, a1, a2)
    ensures Replay(log, 0, a2) == a + x + y
    ensures Replay(log[..seen], 0, a1) == a + x
    ensures Replay(log, after, a2) == x + y
  {
    hide Replay, Undisturbed, WellNumbered;
    var k, m := UndisturbedParts(log, after, seen, a1, a2);
    a, x, y := Replay(log[..k], 0, a2), Replay(log[k..m], 0, a2), Replay(log[m..], 0, a2);
    Cut(log, k, m, seen);
    ReplayParts(log[..k], log[k..m], log[m..], 0, a2);
    SnapshotRows(log, after, seen, a1, a2, k, m);
    DeltaRows(log, after, seen, a1, a2, k, m);
  }

  /** MAIN: reading through a faithful snapshot equals full replay, for every reducer that tolerates
      ordered re-application, wherever the delta starts. */
  lemma ReadEqualsReplay<S(!new), E(!new)>(p: Projection<S, E>, log: seq<Entry<E>>, snap: Snapshot<S>, after: nat,
                                           asOf: int)
    requires WellNumbered(log) && Faithful(p, log, snap) && snap.asOf <= asOf
    requires Reapplicable(p.reduce)
    requires Undisturbed(log, after, snap.seen, snap.asOf, asOf)
    ensures ReadFrom(p, log, snap, after, asOf) == Full(p, log, asOf)
  {
    hide Undisturbed, Replay, WellNumbered;
    var a, x, y := Decomposition(log, after, snap.seen, snap.asOf, asOf);
    var s0 := Fold(p.reduce, p.initial, a);
    FoldConcat(p.reduce, p.initial, a, x);
    FoldConcat(p.reduce, snap.state, x, y);
    FoldConcat(p.reduce, p.initial, a + x, y);
    assert Fold(p.reduce, Fold(p.reduce, s0, x), x) == Fold(p.reduce, s0, x);
  }

  // ---- The condition is exact: a reducer that tolerates re-application and needs it ----

  /** Remembers every row it has folded, in order of first arrival. */
  function Remember<E(==,!new)>(s: seq<Entry<E>>, e: Entry<E>): seq<Entry<E>> {
    if e in s then s else s + [e]
  }

  function Recorder<E(==,!new)>(): Projection<seq<Entry<E>>, E> {
    Projection([], Remember)
  }

  lemma {:induction false} RememberGrows<E(!new)>(s: seq<Entry<E>>, rows: seq<Entry<E>>)
    ensures s <= Fold(Remember, s, rows)
    ensures forall e :: e in Fold(Remember, s, rows) <==> e in s || e in rows
  {
    if rows != [] {
      var front := rows[..|rows| - 1];
      RememberGrows(s, front);
      assert rows == front + [rows[|rows| - 1]];
    }
  }

  lemma {:induction false} RememberKnown<E(!new)>(s: seq<Entry<E>>, rows: seq<Entry<E>>)
    requires forall e | e in rows :: e in s
    ensures Fold(Remember, s, rows) == s
  {
    if rows != [] {
      RememberKnown(s, rows[..|rows| - 1]);
      assert rows[|rows| - 1] in rows;
    }
  }

  lemma RecorderReapplicable<E(!new)>()
    ensures Reapplicable<seq<Entry<E>>, E>(Remember)
  {
    forall s: seq<Entry<E>>, rows: seq<Entry<E>>
      ensures Fold(Remember, Fold(Remember, s, rows), rows) == Fold(Remember, s, rows)
    {
      RememberGrows(s, rows);
      RememberKnown(Fold(Remember, s, rows), rows);
    }
  }

  lemma LastIsNew<E(!new)>(rows: seq<Entry<E>>)
    requires WellNumbered(rows) && rows != []
    ensures WellNumbered(rows[..|rows| - 1])
    ensures rows[|rows| - 1] !in rows[..|rows| - 1]
  {
    var front, last := rows[..|rows| - 1], rows[|rows| - 1];
    assert forall i | 0 <= i < |front| :: front[i] == rows[i] && rows[i].seqNo < last.seqNo;
  }

  lemma RememberLast<E(!new)>(rows: seq<Entry<E>>)
    requires rows != [] && rows[|rows| - 1] !in rows[..|rows| - 1]
    requires Fold(Remember, [], rows[..|rows| - 1]) == rows[..|rows| - 1]
    ensures Fold(Remember, [], rows) == rows
  {
    var front, last := rows[..|rows| - 1], rows[|rows| - 1];
    assert Fold(Remember, [], rows) == Remember(front, last);
    hide Fold;
    assert Remember(front, last) == front + [last];
    Restored(rows);
  }

  lemma Restored<T>(rows: seq<T>)
    requires rows != []
    ensures rows[..|rows| - 1] + [rows[|rows| - 1]] == rows
  {
  }

  /** Folding fresh, distinct rows into the recorder appends exactly those rows. */
  lemma {:induction false} RememberFresh<E(!new)>(rows: seq<Entry<E>>)
    requires WellNumbered(rows)
    ensures Fold(Remember, [], rows) == rows
  {
    hide WellNumbered, Remember;
    if rows != [] {
      LastIsNew(rows);
      RememberFresh(rows[..|rows| - 1]);
      RememberLast(rows);
    }
  }

  lemma {:induction false} ReplayNumbered<E(!new)>(log: seq<Entry<E>>, after: nat, asOf: int)
    requires WellNumbered(log)
    ensures WellNumbered(Replay(log, after, asOf))
  {
    if log != [] {
      var front, last := log[..|log| - 1], log[|log| - 1];
      ReplayNumbered(front, after, asOf);
      var before := Replay(front, after, asOf);
      ReplayMembers(front, after, asOf);
      forall i | 0 <= i < |before| ensures before[i].seqNo < last.seqNo {
        assert before[i] in front;
        var j :| 0 <= j < |front| && front[j] == before[i];
        assert log[j].seqNo < last.seqNo;
      }
    }
  }

  /** MAIN: for the recorder, reading through a faithful snapshot equals full replay if and only if
      the rows are undisturbed.  Together with `ReadEqualsReplay` this makes `Undisturbed` the exact
      condition for "every re-applicable projection reads correctly". */
  lemma UndisturbedIsExact<E(!new)>(log: seq<Entry<E>>, snap: Snapshot<seq<Entry<E>>>, after: nat, asOf: int)
    requires WellNumbered(log) && Faithful(Recorder<E>(), log, snap) && snap.asOf <= asOf
    ensures ReadFrom(Recorder<E>(), log, snap, after, asOf) == Full(Recorder<E>(), log, asOf) <==>
            Undisturbed(log, after, snap.seen, snap.asOf, asOf)
  {
    hide ReadFrom, Full, WellNumbered, Undisturbed;
    if Undisturbed(log, after, snap.seen, snap.asOf, asOf) {
      RecorderReapplicable<E>();
      ReadEqualsReplay(Recorder<E>(), log, snap, after, asOf);
    } else {
      DisturbedReadDiffers(log, snap, after, asOf);
    }
  }

  lemma RecorderRead<E(!new)>(log: seq<Entry<E>>, snap: Snapshot<seq<Entry<E>>>, after: nat, asOf: int)
    requires WellNumbered(log) && Faithful(Recorder<E>(), log, snap)
    ensures Full(Recorder<E>(), log, asOf) == Replay(log, 0, asOf)
    ensures snap.state == Replay(log[..snap.seen], 0, snap.asOf)
    ensures snap.state <= ReadFrom(Recorder<E>(), log, snap, after, asOf)
    ensures forall e :: e in ReadFrom(Recorder<E>(), log, snap, after, asOf) <==>
                        e in snap.state || e in Replay(log, after, asOf)
  {
    ReplayNumbered(log, 0, asOf);
    RememberFresh(Replay(log, 0, asOf));
    ReplayNumbered(log[..snap.seen], 0, snap.asOf);
    RememberFresh(Replay(log[..snap.seen], 0, snap.asOf));
    RememberGrows(snap.state, Replay(log, after, asOf));
  }

  /** A row that neither the snapshot nor the delta holds is in the full replay and not in the read. */
  lemma UncoveredRowIsMissing<E(!new)>(log: seq<Entry<E>>, snap: Snapshot<seq<Entry<E>>>, after: nat, asOf: int,
                                       i: nat)
    requires WellNumbered(log) && Faithful(Recorder<E>(), log, snap)
    requires i < |log| && log[i].seqNo <= after && log[i].asOf <= asOf
    requires snap.seen <= i || snap.asOf < log[i].asOf
    ensures ReadFrom(Recorder<E>(), log, snap, after, asOf) != Full(Recorder<E>(), log, asOf)
  {
    RecorderRead(log, snap, after, asOf);
    ReplayMembers(log, 0, asOf);
    ReplayMembers(log, after, asOf);
    ReplayMembers(log[..snap.seen], 0, snap.asOf);
    hide ReadFrom, Full, Replay, Faithful;
    assert log[i] in Replay(log, 0, asOf) && log[i] !in Replay(log, after, asOf);
    assert log[i] !in snap.state;
  }

  lemma DisturbedReadDiffers<E(!new)>(log: seq<Entry<E>>, snap: Snapshot<seq<Entry<E>>>, after: nat, asOf: int)
    requires WellNumbered(log) && Faithful(Recorder<E>(), log, snap)
    requires !Undisturbed(log, after, snap.seen, snap.asOf, asOf)
    ensures ReadFrom(Recorder<E>(), log, snap, after, asOf) != Full(Recorder<E>(), log, asOf)
  {
    hide Replay, Fold, ReadFrom, Full;
    if i :|
         0 <= i < |log| && log[i].seqNo <= after && log[i].asOf <= asOf &&
         !(i < snap.seen && log[i].asOf <= snap.asOf)
    {
      UncoveredRowIsMissing(log, snap, after, asOf, i);
    } else {
      RecorderRead(log, snap, after, asOf);
      var i, j :| 0 <= i < j < snap.seen && snap.asOf < log[i].asOf <= asOf && log[j].asOf <= snap.asOf;
      SkippedRowComesLate(log, snap.seen, snap.asOf, asOf, i, j);
    }
  }

  lemma SkippedRowComesLate<E(!new)>(log: seq<Entry<E>>, seen: nat, a1: int, a2: int, i: nat, j: nat)
    requires WellNumbered(log) && i < j < seen <= |log| && a1 < log[i].asOf <= a2 && log[j].asOf <= a1
    ensures !(Replay(log[..seen], 0, a1) <= Replay(log, 0, a2))
  {
    ReplayMembers(log, 0, a2);
    ReplayMembers(log[..seen], 0, a1);
    ReplayNumbered(log, 0, a2);
    assert log[..seen][j] == log[j];
    if Replay(log[..seen], 0, a1) <= Replay(log, 0, a2) {
      OrderedPrefix(Replay(log, 0, a2), Replay(log[..seen], 0, a1), log[i], log[j]);
    }
  }

  /** In a well-numbered sequence every prefix that holds a row holds all earlier-numbered ones. */
  lemma OrderedPrefix<E(!new)>(rows: seq<Entry<E>>, prefix: seq<Entry<E>>, early: Entry<E>, late: Entry<E>)
    requires WellNumbered(rows) && prefix <= rows
    requires early in rows && late in prefix && early.seqNo < late.seqNo
    ensures early in prefix
  {
    var i :| 0 <= i < |rows| && rows[i] == early;
    var j :| 0 <= j < |prefix| && prefix[j] == late;
    assert rows[j] == late && rows[i].seqNo < rows[j].seqNo;
    assert i < j;
    assert prefix[i] == early;
  }

  /** When business times never decrease down the table, only the rows the delta leaves out matter. */
  lemma MonotoneLog<E(!new)>(log: seq<Entry<E>>, after: nat, seen: nat, a1: int, a2: int)
    requires seen <= |log|
    requires forall i, j | 0 <= i < j < |log| :: log[i].asOf <= log[j].asOf
    ensures Undisturbed(log, after, seen, a1, a2) <==>
            forall i | 0 <= i < |log| && log[i].seqNo <= after && log[i].asOf <= a2 :: i < seen && log[i].asOf <= a1
  {
  }
}
