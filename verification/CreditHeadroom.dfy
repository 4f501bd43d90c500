/**
 The credit engine behind the gateway's limit check: a counterparty's limit as the projection of its
 lifecycle events, its exposure as the latest figure of each netting set, and the headroom between them.

 The projection replays the lifecycle one event type after another, not in log order.  What that makes of
 a limit's status is stated exactly; a breach recorded after an earlier one was disposed of does not show.
 */
module CreditHeadroom {
  import opened Wrappers
  import opened Eligibility
  import opened GatewayLog

  // ---------------------------------------------------------------- the limit

  datatype Status = PendingLimit | ApprovedLimit | LoadedLimit | BreachedLimit | WithdrawnLimit

  /** `critical` is whether the latest undisposed breach was. */
  datatype Limit = Limit(seen: bool, status: Status, amount: nat, currency: string, approvedAt: Option<int>,
                         expiry: Option<int>, reviewedAt: Option<int>, critical: bool)

  const NO_LIMIT := Limit(false, PendingLimit, 0, "ZAR", None, None, None, false)

  datatype Stage = Applying | Approving | Loading | Reviewing | Breaching | Disposing | Withdrawing

  /** The order in which the projection replays the event types. */
  const LIFECYCLE: seq<Stage> := [Applying, Approving, Loading, Reviewing, Breaching, Disposing, Withdrawing]

  predicate IsStage(r: Record, stage: Stage) {
    match stage
    case Applying => r.LimitApplied?
    case Approving => r.LimitApproved?
    case Loading => r.LimitLoaded?
    case Reviewing => r.LimitReviewed?
    case Breaching => r.LimitBreached?
    case Disposing => r.BreachDisposed?
    case Withdrawing => r.LimitWithdrawn?
  }

  predicate Concerns(r: Record, stage: Stage, party: string, asOf: int) {
    IsStage(r, stage) && r.party == party != "" && r.asOf <= asOf
  }

  function Wanted(stage: Stage, party: string, asOf: int): Record -> bool {
    r => Concerns(r, stage, party, asOf)
  }

  function Absorb(l: Limit, r: Record): Limit {
    match r
    case LimitApplied(_, _, currency) => if l.status.PendingLimit? then l.(seen := true, currency := currency) else l
    case LimitApproved(_, _, amount, currency, at, expiry) =>
      l.(seen := true, status := ApprovedLimit, amount := amount, currency := currency, approvedAt := Some(at),
         expiry := if expiry.Some? then expiry else l.expiry)
    case LimitLoaded(_, _, amount, currency) =>
      l.(seen := true, status := LoadedLimit, amount := amount, currency := currency)
    case LimitReviewed(_, _, at, revised, currency) =>
      if revised > 0 then l.(seen := true, reviewedAt := Some(at), amount := revised, currency := currency)
      else l.(seen := true, reviewedAt := Some(at))
    case LimitBreached(_, _, critical) => l.(seen := true, status := BreachedLimit, critical := critical)
    case BreachDisposed(_, _, accepted) =>
      l.(seen := true, status := if l.critical && accepted then l.status else LoadedLimit, critical := false)
    case LimitWithdrawn(_, _) => l.(seen := true, status := WithdrawnLimit)
    case _ => l
  }

  function AbsorbAll(l: Limit, records: seq<Record>): Limit {
    if records == [] then l
    else Absorb(AbsorbAll(l, records[..|records| - 1]), records[|records| - 1])
  }

  /** The limit after replaying the first `n` types. */
  function LimitAfter(log: seq<Entry>, party: string, asOf: int, n: nat): Limit
    requires n <= |LIFECYCLE|
  {
    if n == 0 then NO_LIMIT
    else AbsorbAll(LimitAfter(log, party, asOf, n - 1), Replay(log, Wanted(LIFECYCLE[n - 1], party, asOf)))
  }

  function LimitOf(log: seq<Entry>, party: string, asOf: int): Limit {
    LimitAfter(log, party, asOf, |LIFECYCLE|)
  }

  // ---------------------------------------------------------------- the exposure

  function Computed(ead: bool, party: string, asOf: int): Record -> bool {
    (r: Record) => (if ead then r.EadComputed? else r.CostComputed?) && r.party == party && r.asOf <= asOf
  }

  predicate InSet(r: Record, nettingSet: string) {
    (r.EadComputed? || r.CostComputed?) && r.nettingSet == nettingSet
  }

  /** The figure of greatest computation date, the last in the log among equals. */
  function Latest(records: seq<Record>, nettingSet: string): (r: Option<Record>)
    ensures r.Some? ==> InSet(r.value, nettingSet)
  {
    if records == [] then None
    else
      var before, last := Latest(records[..|records| - 1], nettingSet), records[|records| - 1];
      if InSet(last, nettingSet) && (before.None? || before.value.on <= last.on) then Some(last) else before
  }

  function NettingSets(records: seq<Record>): seq<string> {
    if records == [] then []
    else
      var before, last := NettingSets(records[..|records| - 1]), records[|records| - 1];
      if (last.EadComputed? || last.CostComputed?) && last.nettingSet !in before then before + [last.nettingSet]
      else before
  }

  /** An exposure at default is preferred to a replacement cost; other currencies are skipped. */
  function SetExposure(eads: seq<Record>, costs: seq<Record>, nettingSet: string, currency: string): int {
    var ead, cost := Latest(eads, nettingSet), Latest(costs, nettingSet);
    if ead.Some? then if ead.value.currency == currency then ead.value.amount else 0
    else if cost.Some? && cost.value.currency == currency then cost.value.amount
    else 0
  }

  function SumExposure(eads: seq<Record>, costs: seq<Record>, sets: seq<string>, currency: string): int {
    if sets == [] then 0
    else SetExposure(eads, costs, sets[0], currency) + SumExposure(eads, costs, sets[1..], currency)
  }

  function Exposure(log: seq<Entry>, party: string, currency: string, asOf: int): int {
    var eads, costs := Replay(log, Computed(true, party, asOf)), Replay(log, Computed(false, party, asOf));
    SumExposure(eads, costs, NettingSets(eads + costs), currency)
  }

  // ---------------------------------------------------------------- the headroom

  const MILLIS_A_DAY := 86400000
  const STALE_REVIEW_DAYS := 395

  function Day(instant: int): int {
    instant / MILLIS_A_DAY
  }

  /** The last review, or else the approval, is too long ago; a limit with neither is not stale. */
  predicate IsStale(l: Limit, asOf: int) {
    var anchor := if l.reviewedAt.Some? then l.reviewedAt else l.approvedAt;
    anchor.Some? && Day(asOf) - Day(anchor.value) > STALE_REVIEW_DAYS
  }

  predicate IsExpired(l: Limit, asOf: int) {
    l.expiry.Some? && l.expiry.value < Day(asOf) && !l.status.WithdrawnLimit?
  }

  /** Why an exposure is blocked; a proposal in another currency than the limit's counts for nothing. */
  function HeadroomBlock(log: seq<Entry>, party: string, proposed: nat, currency: string,
                         asOf: int): Option<CreditBlock> {
    var l := LimitOf(log, party, asOf);
    if !l.seen then Some(CounterpartyNotApproved)
    else if IsExpired(l, asOf) then Some(LimitExpired)
    else if !l.status.LoadedLimit? then Some(CounterpartyNotApproved)
    else if IsStale(l, asOf) then Some(AnnualReviewStale)
    else
      var added := if currency == l.currency then proposed else 0;
      if l.amount - (Exposure(log, party, l.currency, asOf) + added) <= 0 then Some(CreditLimitExhausted) else None
  }

  // ---------------------------------------------------------------- what it sees of the log

  lemma SameReplay(x: seq<Entry>, y: seq<Entry>, wanted: Record -> bool)
    requires Records(x) == Records(y)
    ensures Replay(x, wanted) == Replay(y, wanted)
  {
    ReplayIsAmong(x, wanted);
    ReplayIsAmong(y, wanted);
  }

  lemma {:induction false} SameLimit(x: seq<Entry>, y: seq<Entry>, party: string, asOf: int, n: nat)
    requires Records(x) == Records(y) && n <= |LIFECYCLE|
    ensures LimitAfter(x, party, asOf, n) == LimitAfter(y, party, asOf, n)
  {
    if n > 0 {
      SameLimit(x, y, party, asOf, n - 1);
      SameReplay(x, y, Wanted(LIFECYCLE[n - 1], party, asOf));
    }
  }

  /** The engine's answer depends on the facts alone: proposals, approvals and rejections are no part of any
      exposure or limit. */
  lemma HeadroomSeesFacts(x: seq<Entry>, y: seq<Entry>, party: string, proposed: nat, currency: string, asOf: int)
    requires Records(x) == Records(y)
    ensures HeadroomBlock(x, party, proposed, currency, asOf) == HeadroomBlock(y, party, proposed, currency, asOf)
  {
    SameLimit(x, y, party, asOf, |LIFECYCLE|);
    SameReplay(x, y, Computed(true, party, asOf));
    SameReplay(x, y, Computed(false, party, asOf));
  }

  // ---------------------------------------------------------------- what the status means

  function StageOf(log: seq<Entry>, stage: Stage, party: string, asOf: int): seq<Record> {
    Replay(log, Wanted(stage, party, asOf))
  }

  /** What replaying one type does to status and severity. */
  ghost predicate StageDid(l: Limit, records: seq<Record>, stage: Stage, after: Limit) {
    match stage
    case Applying => after.status == l.status && after.critical == l.critical
    case Approving =>
      after.status == (if records == [] then l.status else ApprovedLimit) && after.critical == l.critical
    case Loading =>
      after.status == (if records == [] then l.status else LoadedLimit) && after.critical == l.critical
    case Reviewing => after.status == l.status && after.critical == l.critical
    case Breaching =>
      if records == [] then after == l
      else
        var last := records[|records| - 1];
        after.status == BreachedLimit && last.LimitBreached? && after.critical == last.critical
    case Disposing =>
      if records == [] then after == l
      else
        && !after.critical && records[0].BreachDisposed?
        && after.status == if |records| == 1 && l.critical && records[0].accepted then l.status else LoadedLimit
    case Withdrawing => after.status == if records == [] then l.status else WithdrawnLimit
  }

  lemma {:induction false} AbsorbStage(l: Limit, records: seq<Record>, stage: Stage)
    requires forall r <- records :: IsStage(r, stage)
    ensures StageDid(l, records, stage, AbsorbAll(l, records))
  {
    if records != [] {
      var front := records[..|records| - 1];
      assert forall r <- front :: r in records;
      assert records[|records| - 1] in records && records[0] in records;
      AbsorbStage(l, front, stage);
    }
  }

  lemma StageIsAbsorbed(log: seq<Entry>, party: string, asOf: int, n: nat)
    requires n < |LIFECYCLE|
    ensures forall r <- StageOf(log, LIFECYCLE[n], party, asOf) :: IsStage(r, LIFECYCLE[n])
    ensures StageDid(LimitAfter(log, party, asOf, n), StageOf(log, LIFECYCLE[n], party, asOf), LIFECYCLE[n],
                     LimitAfter(log, party, asOf, n + 1))
  {
    ReplayWanted(log, Wanted(LIFECYCLE[n], party, asOf));
    AbsorbStage(LimitAfter(log, party, asOf, n), StageOf(log, LIFECYCLE[n], party, asOf), LIFECYCLE[n]);
    hide AbsorbAll, StageDid;
  }

  /** A disposal puts the limit back, unless it is the only one and accepts a critical breach. */
  ghost predicate Restored(breaches: seq<Record>, disposals: seq<Record>)
    requires forall r <- breaches :: r.LimitBreached?
    requires forall r <- disposals :: r.BreachDisposed?
  {
    disposals != [] &&
    (|disposals| >= 2 || breaches == [] || !breaches[|breaches| - 1].critical || !disposals[0].accepted)
  }

  /** A limit is live exactly when it was never withdrawn and either it was loaded and never breached, or some
      disposal put it back, whenever the breaches and disposals happened. */
  lemma StatusMeans(log: seq<Entry>, party: string, asOf: int)
    ensures var breaches := StageOf(log, Breaching, party, asOf);
            var disposals := StageOf(log, Disposing, party, asOf);
            && (forall r <- breaches :: r.LimitBreached?) && (forall r <- disposals :: r.BreachDisposed?)
            && (LimitOf(log, party, asOf).status.LoadedLimit? <==>
                && StageOf(log, Withdrawing, party, asOf) == []
                && if disposals == [] then breaches == [] && StageOf(log, Loading, party, asOf) != []
                   else Restored(breaches, disposals))
  {
    hide LimitAfter, StageOf, AbsorbAll;
    NothingAbsorbed(log, party, asOf);
    StageIsAbsorbed(log, party, asOf, 0);
    StageIsAbsorbed(log, party, asOf, 1);
    StageIsAbsorbed(log, party, asOf, 2);
    StageIsAbsorbed(log, party, asOf, 3);
    StageIsAbsorbed(log, party, asOf, 4);
    StageIsAbsorbed(log, party, asOf, 5);
    StageIsAbsorbed(log, party, asOf, 6);
  }

  lemma NothingAbsorbed(log: seq<Entry>, party: string, asOf: int)
    ensures LimitAfter(log, party, asOf, 0) == NO_LIMIT
  {}

  /** Once a breach has been disposed of other than by accepting a critical one, a new breach does not block. */
  lemma LaterBreachIsHidden(log: seq<Entry>, party: string, breach: Record, asOf: int)
    requires breach.LimitBreached? && LimitOf(log, party, asOf).status.LoadedLimit?
    requires StageOf(log, Disposing, party, asOf) != []
    requires forall r <- StageOf(log, Disposing, party, asOf) :: r.BreachDisposed? && !r.accepted
    ensures LimitOf(log + [Fact(breach)], party, asOf).status.LoadedLimit?
  {
    hide LimitOf;
    StatusMeans(log, party, asOf);
    StatusMeans(log + [Fact(breach)], party, asOf);
    ReplayOfOne(log, Fact(breach), Wanted(Withdrawing, party, asOf));
    ReplayOfOne(log, Fact(breach), Wanted(Disposing, party, asOf));
    assert StageOf(log, Disposing, party, asOf)[0] in StageOf(log, Disposing, party, asOf);
  }
}
