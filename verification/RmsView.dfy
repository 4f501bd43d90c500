/** The dashboard's own fold, as the store calls it makes when nothing else runs in between. */
module RmsView {
  import opened Wrappers
  import opened SnapshotReplay
  import opened SnapshotRuns
  import opened DecisionsRegister
  import opened DecisionsMeaning

  class EventStore {
    var log: seq<Recorded>
    var snaps: seq<Snapshot<Register>>

    constructor ()
      ensures log == [] && snaps == []
    {
      log, snaps := [], [];
    }

    ghost predicate Valid()
      reads this
    {
      WellNumbered(log) && forall i | 0 <= i < |snaps| :: GoodSnapshot(DECISIONS, log, snaps[i])
    }

    method Count() returns (n: nat)
      ensures n == |log|
    {
      n := |log|;
    }

    method LoadSnapshot(asOf: int) returns (best: Option<Snapshot<Register>>)
      ensures best == Newest(snaps, asOf)
    {
      best := None;
      for i := 0 to |snaps|
        invariant best == Newest(snaps[..i], asOf)
      {
        assert snaps[..i + 1][..i] == snaps[..i];
        if snaps[i].asOf <= asOf && (best.None? || best.value.upto <= snaps[i].upto) {
          best := Some(snaps[i]);
        }
      }
      assert snaps[..|snaps|] == snaps;
    }

    method FoldRows(seed: Register, after: nat, asOf: int) returns (state: Register)
      ensures state == Fold(Reduce, seed, Replay(log, after, asOf))
    {
      state := seed;
      for i := 0 to |log|
        invariant state == Fold(Reduce, seed, Replay(log[..i], after, asOf))
      {
        assert log[..i + 1][..i] == log[..i];
        var e := log[i];
        if after < e.seqNo && e.asOf <= asOf {
          var before := Replay(log[..i], after, asOf);
          assert (before + [e])[..|before|] == before;
          state := Reduce(state, e);
        }
      }
      assert log[..|log|] == log;
    }

    /** The newest snapshot in the window tells the truth about its own rows, and the rows since it
        are undisturbed. */
    ghost predicate Readable(asOf: int)
      reads this
    {
      Valid() && (Newest(snaps, asOf).Some? ==>
        var b := Newest(snaps, asOf).value;
        b.seen <= |log| && Undisturbed(log, b.upto, b.seen, b.asOf, asOf))
    }

    method ProjectFromSnapshot(asOf: int) returns (state: Register)
      ensures Readable(asOf) ==> state == Full(DECISIONS, log, asOf)
      ensures state == Delta(DECISIONS, Store(log, snaps, map[]), asOf, Newest(snaps, asOf))
    {
      var base := LoadSnapshot(asOf);
      if base.None? {
        state := FoldRows(EMPTY, 0, asOf);
      } else {
        var again := LoadSnapshot(asOf);
        state := FoldRows(base.value.state, again.value.upto, asOf);
        if Readable(asOf) {
          DecisionsReapplicable();
          ReadEqualsReplay(DECISIONS, log, base.value, base.value.upto, asOf);
        }
      }
    }

    /** Persists the state unless the cadence is quiet or a snapshot of that time and claim exists. */
    method MaybeSnapshot(asOf: int, upto: nat, state: Register, fires: bool)
      modifies this`snaps
      ensures !fires ==> snaps == old(snaps)
      ensures fires ==>
              snaps == if exists k | 0 <= k < |old(snaps)| :: old(snaps[k].asOf) == asOf && old(snaps[k].upto) == upto
                                 then old(snaps) else old(snaps) + [Snapshot(asOf, upto, state, |log|)]
    {
      if fires {
        var known := false;
        for i := 0 to |snaps|
          invariant known <==> exists k | 0 <= k < i :: snaps[k].asOf == asOf && snaps[k].upto == upto
        {
          if snaps[i].asOf == asOf && snaps[i].upto == upto { known := true; }
        }
        if !known { snaps := snaps + [Snapshot(asOf, upto, state, |log|)]; }
      }
    }

    /** Count, then fold through the newest snapshot, then offer the result as a snapshot. */
    method BuildDecisionsFold(asOf: int, fires: bool) returns (state: Register)
      modifies this`snaps
      ensures old(Readable(asOf)) ==> state == Full(DECISIONS, log, asOf) && Valid()
      ensures old(Readable(asOf)) ==> forall id :: RowSays(Replay(log, 0, asOf), id, Lookup(state, id))
      ensures snaps == old(snaps) || snaps == old(snaps) + [Snapshot(asOf, |log|, state, |log|)]
      ensures !fires ==> snaps == old(snaps)
    {
      var upto := Count();
      state := ProjectFromSnapshot(asOf);
      MaybeSnapshot(asOf, upto, state, fires);
      assert log[..|log|] == log;
      forall id ensures RowSays(Replay(log, 0, asOf), id, Lookup(Full(DECISIONS, log, asOf), id)) {
        RegisterSaysLog(log, asOf, id);
      }
    }
  }
}
