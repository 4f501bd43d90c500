/**
 The counterparty eligibility view: one pass over the event log, a row per counterparty, latest wins.

 The pass keeps three values per counterparty (latest screening, latest breach, latest
 revalidation) so that a revalidation does not hide a breach.  The declarative reading is proved
 equivalent, and the breach flag is shown not to depend on the order of the log.
 */
module Eligibility {
  import opened Wrappers

  /** The records of the shared log that the pre-trade checks read. */
  datatype Record =
    | Screened(party: string, screeningId: string, outcome: string, asOf: int)
    | Revalidated(party: string, screeningId: string, outcome: string, asOf: int)
    | Breached(party: string, asOf: int)
    | SanctionsCleared(party: string)
    | ClientAccepted(names: set<string>)
    | FaisClassified(party: string, category: string)
    | AgreementSigned(party: string, form: string)
    | RwaComputed(total: int)
    | LimitApplied(party: string, asOf: int, currency: string)
    | LimitApproved(party: string, asOf: int, limit: nat, currency: string, at: int, expiry: Option<int>)
    | LimitLoaded(party: string, asOf: int, limit: nat, currency: string)
    | LimitReviewed(party: string, asOf: int, at: int, revised: nat, currency: string)
    | LimitBreached(party: string, asOf: int, critical: bool)
    | BreachDisposed(party: string, asOf: int, accepted: bool)
    | LimitWithdrawn(party: string, asOf: int)
    | EadComputed(party: string, asOf: int, nettingSet: string, on: int, currency: string, amount: int)
    | CostComputed(party: string, asOf: int, nettingSet: string, on: int, currency: string, amount: int)
    | OtherRecord(kind: string, party: string, value: int)

  const INSTITUTIONAL := "institutional-eligible"

  predicate IsScreening(r: Record, party: string) {
    (r.Screened? || r.Revalidated?) && r.party == party
  }

  predicate IsRevalidation(r: Record, party: string) {
    r.Revalidated? && r.party == party
  }

  predicate IsBreach(r: Record, party: string) {
    r.Breached? && r.party == party
  }

  // ---------------------------------------------------------------- the pass

  datatype Row = Row(screening: Option<Record>, breach: Option<int>, revalidation: Option<int>)

  const EMPTY := Row(None, None, None)

  /** `latest <= asOf` replaces: on equal times the later record in the log wins. */
  function Later(latest: Option<int>, asOf: int): Option<int> {
    if latest.None? || latest.value <= asOf then Some(asOf) else latest
  }

  function Absorb(row: Row, r: Record): Row {
    match r
    case Breached(_, asOf) => row.(breach := Later(row.breach, asOf))
    case Screened(_, _, _, asOf) => row.(screening := NewerScreening(row.screening, r))
    case Revalidated(_, _, _, asOf) =>
      row.(screening := NewerScreening(row.screening, r), revalidation := Later(row.revalidation, asOf))
    case _ => row
  }

  function NewerScreening(latest: Option<Record>, r: Record): Option<Record>
    requires r.Screened? || r.Revalidated?
  {
    if latest.None? || !(latest.value.Screened? || latest.value.Revalidated?) || latest.value.asOf <= r.asOf
    then Some(r)
    else latest
  }

  predicate Concerns(r: Record, party: string) {
    (r.Screened? || r.Revalidated? || r.Breached?) && r.party == party
  }

  /** The row one counterparty ends up with. */
  function RowOf(records: seq<Record>, party: string): Row {
    if records == [] then EMPTY
    else
      var before := RowOf(records[..|records| - 1], party);
      var r := records[|records| - 1];
      if Concerns(r, party) then Absorb(before, r) else before
  }

  predicate IsBreached(row: Row) {
    row.breach.Some? && (row.revalidation.None? || row.revalidation.value <= row.breach.value)
  }

  predicate Passes(row: Row) {
    && row.screening.Some?
    && (row.screening.value.Screened? || row.screening.value.Revalidated?)
    && row.screening.value.outcome == INSTITUTIONAL
    && !IsBreached(row)
  }

  /** A counterparty with an empty id is skipped by the pass. */
  predicate IsEligible(records: seq<Record>, party: string) {
    party != "" && Passes(RowOf(records, party))
  }

  /** The loop over the log with its table of rows, and the loop over the rows; answers the ids that
      pass, each once. */
  method BuildCounterpartiesView(records: seq<Record>) returns (passing: seq<string>, totalSeen: nat)
    ensures forall p :: p in passing <==> IsEligible(records, p)
    ensures forall i, j | 0 <= i < j < |passing| :: passing[i] != passing[j]
    ensures totalSeen == |set i | 0 <= i < |records| && Replayed(records[i])|
  {
    var byParty: map<string, Row> := map[];
    var order: seq<string> := [];
    totalSeen := 0;
    for i := 0 to |records|
      invariant totalSeen == |EligibilityRecords(records[..i])|
      invariant forall p <- order :: p in byParty && p != ""
      invariant forall p <- byParty :: p in order
      invariant forall i, j | 0 <= i < j < |order| :: order[i] != order[j]
      invariant forall p :: p in byParty ==> byParty[p] == RowOf(records[..i], p)
      invariant forall p :: p != "" && p !in byParty ==> RowOf(records[..i], p) == EMPTY
    {
      var r := records[i];
      assert records[..i + 1][..i] == records[..i] && records[..i + 1][i] == r;
      assert |records[..i + 1]| == i + 1;
      if r.Screened? || r.Revalidated? || r.Breached? {
        totalSeen := totalSeen + 1;
        if r.party != "" {
          var row := if r.party in byParty then byParty[r.party] else EMPTY;
          if r.party !in byParty {
            order := order + [r.party];
          }
          byParty := byParty[r.party := Absorb(row, r)];
        }
      }
    }
    assert records[..|records|] == records;
    passing := [];
    for i := 0 to |order|
      invariant forall p :: p in passing <==> p in order[..i] && IsEligible(records, p)
      invariant forall i, j | 0 <= i < j < |passing| :: passing[i] != passing[j]
    {
      if Passes(byParty[order[i]]) {
        assert order[i] !in passing;
        passing := passing + [order[i]];
      }
    }
    assert order[..|order|] == order;
    EligibilityCount(records);
  }

  /** A screening, a breach or a revalidation. */
  predicate Replayed(r: Record) {
    r.Screened? || r.Breached? || r.Revalidated?
  }

  lemma {:induction false} EligibilityCount(records: seq<Record>)
    ensures |EligibilityRecords(records)| == |set i | 0 <= i < |records| && Replayed(records[i])|
  {
    if records != [] {
      var n := |records| - 1;
      EligibilityCount(records[..n]);
      ReplayedOneMore(records);
    }
  }

  lemma ReplayedOneMore(records: seq<Record>)
    requires records != []
    ensures var n := |records| - 1;
            var before := |set i | 0 <= i < |records[..n]| && Replayed(records[..n][i])|;
            |set i | 0 <= i < |records| && Replayed(records[i])| == before + if Replayed(records[n]) then 1 else 0
  {
    hide Replayed;
    var n := |records| - 1;
    var front := records[..n];
    var before := set i | 0 <= i < |front| && Replayed(front[i]);
    var all := set i | 0 <= i < |records| && Replayed(records[i]);
    assert forall i | 0 <= i < n :: front[i] == records[i];
    assert all == before + if Replayed(records[n]) then {n} else {};
  }

  /** The three event types the view replays. */
  function EligibilityRecords(records: seq<Record>): seq<Record> {
    if records == [] then []
    else
      var r := records[|records| - 1];
      EligibilityRecords(records[..|records| - 1]) +
      (if r.Screened? || r.Revalidated? || r.Breached? then [r] else [])
  }

  // ---------------------------------------------------------------- the declarative reading

  /** Position `k` holds the party's screening of greatest time, the last in the log among equals. */
  ghost predicate IsLatestScreening(records: seq<Record>, party: string, k: nat) {
    && k < |records| && IsScreening(records[k], party)
    && forall j | 0 <= j < |records| && IsScreening(records[j], party) ::
         records[j].asOf < records[k].asOf || (records[j].asOf == records[k].asOf && j <= k)
  }

  /** Some breach is not followed by a strictly later revalidation. */
  ghost predicate Uncured(records: seq<Record>, party: string) {
    exists b :: b in records && IsBreach(b, party) &&
                forall r :: r in records && IsRevalidation(r, party) ==> r.asOf <= b.asOf
  }

  ghost predicate Eligible(records: seq<Record>, party: string) {
    && party != ""
    && (exists k: nat :: IsLatestScreening(records, party, k) && records[k].outcome == "institutional-eligible")
    && !Uncured(records, party)
  }

  ghost predicate IsMaximum(records: seq<Record>, party: string, latest: Option<int>, breach: bool) {
    && (latest.Some? ==> exists r :: r in records && Picked(r, party, breach) && r.asOf == latest.value)
    && (forall r :: r in records && Picked(r, party, breach) ==> latest.Some? && r.asOf <= latest.value)
  }

  predicate Picked(r: Record, party: string, breach: bool) {
    if breach then IsBreach(r, party) else IsRevalidation(r, party)
  }

  ghost predicate ScreeningIsLatest(records: seq<Record>, party: string, screening: Option<Record>) {
    && (screening.None? ==> forall r <- records :: !IsScreening(r, party))
    && (screening.Some? ==> exists k: nat :: IsLatestScreening(records, party, k) && records[k] == screening.value)
  }

  lemma {:induction false} LatestAreMaxima(records: seq<Record>, party: string, breach: bool)
    ensures var row := RowOf(records, party);
            IsMaximum(records, party, if breach then row.breach else row.revalidation, breach)
  {
    if records != [] {
      var n := |records| - 1;
      var before, r := records[..n], records[n];
      LatestAreMaxima(before, party, breach);
      assert forall x :: x in records <==> x in before || x == r;
      var was := if breach then RowOf(before, party).breach else RowOf(before, party).revalidation;
      var now := if breach then RowOf(records, party).breach else RowOf(records, party).revalidation;
      if Picked(r, party, breach) {
        assert now == Later(was, r.asOf);
        if was.Some? && r.asOf < was.value {
          var x :| x in before && Picked(x, party, breach) && x.asOf == was.value;
          assert x in records;
        } else {
          assert r in records && r.asOf == now.value;
        }
      } else {
        assert now == was;
        if was.Some? {
          var x :| x in before && Picked(x, party, breach) && x.asOf == was.value;
          assert x in records;
        }
      }
    }
  }

  lemma {:induction false} LatestScreeningKept(records: seq<Record>, party: string)
    ensures ScreeningIsLatest(records, party, RowOf(records, party).screening)
  {
    if records != [] {
      var n := |records| - 1;
      var before, r := records[..n], records[n];
      LatestScreeningKept(before, party);
      var was := RowOf(before, party).screening;
      assert forall j | 0 <= j < n :: before[j] == records[j];
      if IsScreening(r, party) {
        if was.Some? {
          var k: nat :| IsLatestScreening(before, party, k) && before[k] == was.value;
          assert IsLatestScreening(records, party, if was.value.asOf <= r.asOf then n else k);
        } else {
          assert IsLatestScreening(records, party, n);
        }
      } else if was.Some? {
        var k: nat :| IsLatestScreening(before, party, k) && before[k] == was.value;
        assert IsLatestScreening(records, party, k);
      }
    }
  }

  lemma LatestIsUnique(records: seq<Record>, party: string, j: nat, k: nat)
    requires IsLatestScreening(records, party, j) && IsLatestScreening(records, party, k)
    ensures j == k
  {}

  /** The flag of the pass says that some breach has no strictly later revalidation. */
  lemma BreachFlagMeaning(records: seq<Record>, party: string)
    ensures IsBreached(RowOf(records, party)) <==> Uncured(records, party)
  {
    var row := RowOf(records, party);
    LatestAreMaxima(records, party, true);
    LatestAreMaxima(records, party, false);
    if IsBreached(row) {
      var b :| b in records && Picked(b, party, true) && b.asOf == row.breach.value;
      assert forall r :: r in records && IsRevalidation(r, party) ==> Picked(r, party, false);
    } else if row.breach.Some? && row.revalidation.Some? {
      var r :| r in records && Picked(r, party, false) && r.asOf == row.revalidation.value;
      assert forall b :: b in records && IsBreach(b, party) ==> Picked(b, party, true) && b.asOf < r.asOf;
    } else {
      assert forall b :: b in records && IsBreach(b, party) ==> Picked(b, party, true);
    }
  }

  /** The one-pass fold and the declarative reading agree on every log. */
  lemma FoldIsDeclarative(records: seq<Record>, party: string)
    ensures IsEligible(records, party) <==> Eligible(records, party)
  {
    BreachFlagMeaning(records, party);
    LatestScreeningKept(records, party);
    var screening := RowOf(records, party).screening;
    if screening.Some? {
      var k: nat :| IsLatestScreening(records, party, k) && records[k] == screening.value;
      forall j: nat | IsLatestScreening(records, party, j) ensures j == k {
        LatestIsUnique(records, party, j, k);
      }
    }
  }

  /** Whether a counterparty is held as breached does not depend on the order of the log. */
  lemma BreachFlagIsOrderFree(x: seq<Record>, y: seq<Record>, party: string)
    requires multiset(x) == multiset(y)
    ensures IsBreached(RowOf(x, party)) <==> IsBreached(RowOf(y, party))
  {
    BreachFlagMeaning(x, party);
    BreachFlagMeaning(y, party);
    assert forall r :: r in x <==> r in multiset(x);
    assert forall r :: r in y <==> r in multiset(y);
  }

  lemma RowOfOne(records: seq<Record>, r: Record, party: string)
    ensures RowOf(records + [r], party) ==
            if Concerns(r, party) then Absorb(RowOf(records, party), r) else RowOf(records, party)
  {
    assert (records + [r])[..|records|] == records;
  }

  lemma RowOfTwo(a: Record, b: Record, party: string)
    requires Concerns(a, party) && Concerns(b, party)
    ensures RowOf([a, b], party) == Absorb(Absorb(EMPTY, a), b)
  {
    hide Absorb, Concerns;
    RowOfOne([], a, party);
    RowOfOne([a], b, party);
    assert [] + [a] == [a] && [a] + [b] == [a, b];
  }

  /** Whether it passes does: of two screenings at one instant the later in the log decides. */
  lemma OutcomeDependsOnOrder()
    ensures var good, bad := Screened("A", "1", INSTITUTIONAL, 5), Screened("A", "2", "indeterminate", 5);
            && multiset([good, bad]) == multiset([bad, good])
            && !IsEligible([good, bad], "A") && IsEligible([bad, good], "A")
  {
    var good, bad := Screened("A", "1", INSTITUTIONAL, 5), Screened("A", "2", "indeterminate", 5);
    hide RowOf;
    RowOfTwo(good, bad, "A");
    RowOfTwo(bad, good, "A");
    assert |INSTITUTIONAL| != |"indeterminate"|;
  }
}
