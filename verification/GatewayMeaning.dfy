/**
 What each of the gateway's eight checks says: the exact condition on the facts for every reason it can give.
 */
module GatewayMeaning {
  import opened Wrappers
  import opened Eligibility
  import opened GatewayLog
  import opened OrderGateway
  import opened CreditMeaning

  /** The nearest whole number, halves upwards. */
  predicate Rounds(x: real, n: int) {
    n as real - 0.5 <= x < n as real + 0.5
  }

  lemma RoundsOnce(x: real, m: int, n: int)
    requires Rounds(x, m) && Rounds(x, n)
    ensures m == n
  {}

  lemma FloorRounds(x: real)
    ensures Rounds(x, (x + 0.5).Floor)
  {}

  /** What the order is worth in cents of its quote currency, and nothing if that is negative. */
  ghost predicate InCents(order: Order, cents: nat) {
    var x := order.notional * order.rate * 100.0;
    Rounds(x, cents) || (cents == 0 && x < 0.0)
  }

  lemma MinorIsInCents(order: Order)
    ensures forall cents: nat :: InCents(order, cents) <==> cents == NotionalMinor(order)
  {
    var x := order.notional * order.rate * 100.0;
    assert NotionalMinor(order) == if (x + 0.5).Floor < 0 then 0 else (x + 0.5).Floor;
    FloorRounds(x);
    forall cents: nat ensures InCents(order, cents) <==> cents == NotionalMinor(order) {
      if Rounds(x, cents) {
        RoundsOnce(x, cents, (x + 0.5).Floor);
      }
    }
  }

  // ---------------------------------------------------------------- the facts the checks ask for

  function Recognised(party: string): Record -> bool {
    (r: Record) => r.FaisClassified? && r.party == party &&
                   r.category in {"professional-client", "retail-client", "market-counterparty"}
  }

  function Totals(): Record -> bool {
    (r: Record) => r.RwaComputed?
  }

  ghost predicate OnRecord(records: seq<Record>, party: string) {
    exists r <- records :: r.Screened? && r.party == party
  }

  ghost predicate AcceptedAs(records: seq<Record>, party: string) {
    exists r <- records :: (r.SanctionsCleared? && r.party == party) || (r.ClientAccepted? && party in r.names)
  }

  ghost predicate HasAgreement(records: seq<Record>, party: string) {
    exists r <- records ::
      r.AgreementSigned? && r.party == party && r.form in {"isda-2002", "isda-2025", "fx-bilateral"}
  }

  /** The last total computed, or else the baseline. */
  ghost function WeightedAssets(desk: Desk, records: seq<Record>): int {
    var r := LastOf(records, Totals()); if r.Some? then r.value.total else desk.rwaBaseline
  }

  /** What the order adds to the weighted assets. */
  predicate Adds(cents: nat, weight: real, added: int) {
    Rounds(cents as real * weight, added)
  }

  ghost predicate OverCeiling(desk: Desk, records: seq<Record>, order: Order, weight: real) {
    exists cents: nat, added: int :: InCents(order, cents) && Adds(cents, weight, added) &&
                                     WeightedAssets(desk, records) + added > desk.rwaCeiling
  }

  ghost predicate UnderFloor(desk: Desk, order: Order) {
    exists cents: nat :: InCents(order, cents) &&
                         desk.lcrNow - cents as real / 100000000.0 * desk.lcrPerMillion < desk.lcrFloor
  }

  // ---------------------------------------------------------------- the reasons

  /** When a check rejects, and for what reason. */
  ghost predicate Fails(desk: Desk, records: seq<Record>, order: Order, asOf: int, kind: Kind, reason: Reason) {
    var p := order.party;
    match kind
    case Identity =>
      || (reason == NeitherRecordNorKyc && !OnRecord(records, p) && !AcceptedAs(records, p))
      || (reason == NoPartyRecord && !OnRecord(records, p) && AcceptedAs(records, p))
      || (reason == NoKyc && OnRecord(records, p) && !AcceptedAs(records, p))
    case Sanctions =>
      reason == OnBlockedList && ((desk.lei(p) != "" && desk.lei(p) in desk.blocked) || (p != "" && p in desk.blocked))
    case CounterpartyEligibility => reason == NotEligible && !Eligible(records, p)
    case Suitability =>
      var last := LastOf(records, Recognised(p));
      || (reason == Unclassified && last == None)
      || (reason == RetailClient && last.Some? && last.value.category == "retail-client")
    case Documentation => reason == NoAgreement && !HasAgreement(records, p)
    case CreditLimit =>
      reason.NoHeadroom? && exists cents: nat :: InCents(order, cents) &&
                                                 BlockedFor(records, p, cents, order.quoteCurrency, asOf, reason.block)
    case CapitalImpact =>
      && !order.sells
      && (|| (reason == NotRandQuoted && order.quoteCurrency != "ZAR")
          || (reason == NoRiskWeight && order.quoteCurrency == "ZAR" && desk.rwaWeight == None)
          || (reason == CapitalCeiling && order.quoteCurrency == "ZAR" && desk.rwaWeight.Some? &&
              OverCeiling(desk, records, order, desk.rwaWeight.value)))
    case Funding =>
      && !order.sells
      && (|| (reason == NotRandQuoted && order.quoteCurrency != "ZAR")
          || (reason == LiquidityFloor && order.quoteCurrency == "ZAR" && UnderFloor(desk, order)))
  }

  // ---------------------------------------------------------------- each check

  lemma IdentityMeans(records: seq<Record>, party: string)
    ensures (exists i | 0 <= i < |records| :: records[i].Screened? && records[i].party == party) <==>
            OnRecord(records, party)
    ensures (exists i | 0 <= i < |records| :: Accepts(records[i], party)) <==> AcceptedAs(records, party)
  {
    if OnRecord(records, party) {
      var r :| r in records && r.Screened? && r.party == party;
      var i :| 0 <= i < |records| && records[i] == r;
    }
    if AcceptedAs(records, party) {
      var r :| r in records && Accepts(r, party);
      var i :| 0 <= i < |records| && records[i] == r;
    }
  }

  lemma DocumentationMeans(records: seq<Record>, party: string)
    ensures CheckDocumentation(records, party) == if HasAgreement(records, party) then Approve else Reject(NoAgreement)
  {
    if HasAgreement(records, party) {
      var r :| r in records && r.AgreementSigned? && r.party == party && r.form in AGREEMENTS;
      var i :| 0 <= i < |records| && records[i] == r;
    }
  }

  lemma {:induction false} CategoryIsLast(records: seq<Record>, party: string)
    ensures var last := LastOf(records, Recognised(party));
            FaisCategory(records, party) == if last.Some? then Some(last.value.category) else None
  {
    LastOneMore(records, Recognised(party));
    hide LastOf, Any;
    if records != [] {
      CategoryIsLast(records[..|records| - 1], party);
    }
  }

  lemma {:induction false} TotalIsLast(records: seq<Record>)
    ensures var last := LastOf(records, Totals());
            LatestRwa(records) == if last.Some? then Some(last.value.total) else None
  {
    LastOneMore(records, Totals());
    hide LastOf, Any;
    if records != [] {
      TotalIsLast(records[..|records| - 1]);
    }
  }

  lemma CapitalMeans(desk: Desk, records: seq<Record>, order: Order, asOf: int, reason: Reason)
    ensures CheckCapital(desk, records, order) == Reject(reason) <==>
            Fails(desk, records, order, asOf, CapitalImpact, reason)
  {
    hide LastOf, LatestRwa, NotionalMinor, OverCeiling;
    TotalIsLast(records);
    if desk.rwaWeight.Some? {
      CeilingIs(desk, records, order, desk.rwaWeight.value);
    }
  }

  lemma CeilingIs(desk: Desk, records: seq<Record>, order: Order, weight: real)
    ensures OverCeiling(desk, records, order, weight) <==>
            WeightedAssets(desk, records) + (NotionalMinor(order) as real * weight + 0.5).Floor > desk.rwaCeiling
  {
    hide WeightedAssets, NotionalMinor, InCents;
    MinorIsInCents(order);
    var x := NotionalMinor(order) as real * weight;
    FloorRounds(x);
    assert InCents(order, NotionalMinor(order)) && Adds(NotionalMinor(order), weight, (x + 0.5).Floor);
    if cents: nat, added: int :| InCents(order, cents) && Adds(cents, weight, added) &&
                                 WeightedAssets(desk, records) + added > desk.rwaCeiling {
      RoundsOnce(x, added, (x + 0.5).Floor);
    }
  }

  lemma FundingMeans(desk: Desk, records: seq<Record>, order: Order, asOf: int, reason: Reason)
    ensures CheckFunding(desk, order) == Reject(reason) <==> Fails(desk, records, order, asOf, Funding, reason)
  {
    hide NotionalMinor, InCents;
    MinorIsInCents(order);
    assert NotionalMinor(order) as real / 100.0 / 1000000.0 == NotionalMinor(order) as real / 100000000.0;
    assert InCents(order, NotionalMinor(order));
  }

  lemma CreditMeans(desk: Desk, log: seq<Entry>, order: Order, asOf: int, reason: Reason)
    ensures Verdict(desk, log, order, asOf, CreditLimit) == Reject(reason) <==>
            Fails(desk, Records(log), order, asOf, CreditLimit, reason)
  {
    hide NotionalMinor, InCents, BlockedFor, HasHeadroom, Records, C.HeadroomBlock;
    MinorIsInCents(order);
    BlockMeans(log, order.party, NotionalMinor(order), order.quoteCurrency, asOf);
  }

  /** MAIN: a check rejects for a reason exactly when the facts on record, the order and the desk's thresholds
      say so. */
  lemma VerdictMeans(desk: Desk, log: seq<Entry>, order: Order, asOf: int, kind: Kind, reason: Reason)
    ensures Verdict(desk, log, order, asOf, kind) == Reject(reason) <==>
            Fails(desk, Records(log), order, asOf, kind, reason)
  {
    hide Records, LastOf, FaisCategory, CheckDocumentation, CheckCapital, CheckFunding, C.HeadroomBlock, Eligible,
         IsEligible, InCents, NotionalMinor, OverCeiling, UnderFloor, BlockedFor, HasAgreement, OnRecord, AcceptedAs;
    var records, p := Records(log), order.party;
    match kind
    case Identity => IdentityMeans(records, p);
    case Sanctions =>
    case CounterpartyEligibility => FoldIsDeclarative(records, p);
    case Suitability => CategoryIsLast(records, p);
    case Documentation => DocumentationMeans(records, p);
    case CreditLimit => CreditMeans(desk, log, order, asOf, reason);
    case CapitalImpact => CapitalMeans(desk, records, order, asOf, reason);
    case Funding => FundingMeans(desk, records, order, asOf, reason);
  }

  lemma ApprovesUnlessFails(desk: Desk, log: seq<Entry>, order: Order, asOf: int, kind: Kind)
    ensures Verdict(desk, log, order, asOf, kind).Approve? <==>
            forall reason :: !Fails(desk, Records(log), order, asOf, kind, reason)
  {
    hide Verdict, Fails, Records;
    forall reason
      ensures Verdict(desk, log, order, asOf, kind) == Reject(reason) <==>
              Fails(desk, Records(log), order, asOf, kind, reason)
    {
      VerdictMeans(desk, log, order, asOf, kind, reason);
    }
    if Verdict(desk, log, order, asOf, kind).Reject? {
      assert Fails(desk, Records(log), order, asOf, kind, Verdict(desk, log, order, asOf, kind).reason);
    }
  }

  /** The order in which the checks are run. */
  function Place(kind: Kind): nat {
    match kind
    case Identity => 0
    case Sanctions => 1
    case CounterpartyEligibility => 2
    case Suitability => 3
    case Documentation => 4
    case CreditLimit => 5
    case CapitalImpact => 6
    case Funding => 7
  }

  lemma PlacesAreKinds(kind: Kind)
    ensures Place(kind) < |KINDS| && KINDS[Place(kind)] == kind
  {}

  // ---------------------------------------------------------------- clearance

  /** A sell is not tested; a buy must be quoted in rand and stay within the ceiling and above the floor. */
  ghost predicate Affordable(desk: Desk, records: seq<Record>, order: Order, cents: nat) {
    order.sells ||
    (&& order.quoteCurrency == "ZAR" && desk.rwaWeight.Some?
     && (forall added: int :: Adds(cents, desk.rwaWeight.value, added) ==>
           WeightedAssets(desk, records) + added <= desk.rwaCeiling)
     && desk.lcrNow - cents as real / 100000000.0 * desk.lcrPerMillion >= desk.lcrFloor)
  }

  /** What it takes for an order to be approved. */
  ghost predicate Cleared(desk: Desk, records: seq<Record>, order: Order, asOf: int) {
    var p := order.party;
    && OnRecord(records, p) && AcceptedAs(records, p)
    && (desk.lei(p) == "" || desk.lei(p) !in desk.blocked) && (p == "" || p !in desk.blocked)
    && Eligible(records, p)
    && (var last := LastOf(records, Recognised(p)); last.Some? && last.value.category != "retail-client")
    && HasAgreement(records, p)
    && exists cents: nat ::
         && InCents(order, cents) && HasHeadroom(records, p, cents, order.quoteCurrency, asOf)
         && Affordable(desk, records, order, cents)
  }

  lemma CreditClears(records: seq<Record>, party: string, cents: nat, currency: string, asOf: int)
    ensures HasHeadroom(records, party, cents, currency, asOf) <==>
            forall block :: !BlockedFor(records, party, cents, currency, asOf, block)
  {
    hide Live, Expired, Stale, HasRoom;
    assert BlockedFor(records, party, cents, currency, asOf, CounterpartyNotApproved) ||
           BlockedFor(records, party, cents, currency, asOf, LimitExpired) ||
           BlockedFor(records, party, cents, currency, asOf, AnnualReviewStale) ||
           BlockedFor(records, party, cents, currency, asOf, CreditLimitExhausted) ||
           HasHeadroom(records, party, cents, currency, asOf);
  }

  /** The affordability of the one amount the order is worth. */
  lemma AffordableMeans(desk: Desk, records: seq<Record>, order: Order, asOf: int, cents: nat)
    requires InCents(order, cents)
    ensures Affordable(desk, records, order, cents) <==>
            forall reason :: !Fails(desk, records, order, asOf, CapitalImpact, reason) &&
                             !Fails(desk, records, order, asOf, Funding, reason)
  {
    MinorIsInCents(order);
    hide InCents, WeightedAssets;
    forall reason | Affordable(desk, records, order, cents)
      ensures !Fails(desk, records, order, asOf, CapitalImpact, reason) &&
              !Fails(desk, records, order, asOf, Funding, reason) {}
    if !Affordable(desk, records, order, cents) {
      if order.quoteCurrency != "ZAR" {
        assert Fails(desk, records, order, asOf, CapitalImpact, NotRandQuoted);
      } else if desk.rwaWeight.None? {
        assert Fails(desk, records, order, asOf, CapitalImpact, NoRiskWeight);
      } else if OverCeiling(desk, records, order, desk.rwaWeight.value) {
        assert Fails(desk, records, order, asOf, CapitalImpact, CapitalCeiling);
      } else {
        assert UnderFloor(desk, order);
        assert Fails(desk, records, order, asOf, Funding, LiquidityFloor);
      }
    }
  }

  lemma CreditMeansCleared(desk: Desk, records: seq<Record>, order: Order, asOf: int, cents: nat)
    requires InCents(order, cents)
    ensures HasHeadroom(records, order.party, cents, order.quoteCurrency, asOf) <==>
            forall reason :: !Fails(desk, records, order, asOf, CreditLimit, reason)
  {
    MinorIsInCents(order);
    CreditClears(records, order.party, cents, order.quoteCurrency, asOf);
    hide InCents, HasHeadroom, BlockedFor;
    if block: CreditBlock :| BlockedFor(records, order.party, cents, order.quoteCurrency, asOf, block) {
      assert NoHeadroom(block).block == block;
      assert Fails(desk, records, order, asOf, CreditLimit, NoHeadroom(block));
    }
  }

  lemma PartyMeans(desk: Desk, records: seq<Record>, order: Order, asOf: int)
    ensures (forall reason :: !Fails(desk, records, order, asOf, Identity, reason)) <==>
            OnRecord(records, order.party) && AcceptedAs(records, order.party)
    ensures (forall reason :: !Fails(desk, records, order, asOf, Suitability, reason)) <==>
            var last := LastOf(records, Recognised(order.party));
            last.Some? && last.value.category != "retail-client"
    ensures (forall reason :: !Fails(desk, records, order, asOf, Sanctions, reason)) <==>
            (desk.lei(order.party) == "" || desk.lei(order.party) !in desk.blocked) &&
            (order.party == "" || order.party !in desk.blocked)
    ensures (forall reason :: !Fails(desk, records, order, asOf, CounterpartyEligibility, reason)) <==>
            Eligible(records, order.party)
    ensures (forall reason :: !Fails(desk, records, order, asOf, Documentation, reason)) <==>
            HasAgreement(records, order.party)
  {
    hide OnRecord, AcceptedAs, HasAgreement, Eligible, LastOf;
    assert Fails(desk, records, order, asOf, Identity, NeitherRecordNorKyc) ||
           Fails(desk, records, order, asOf, Identity, NoPartyRecord) ||
           Fails(desk, records, order, asOf, Identity, NoKyc) ||
           (OnRecord(records, order.party) && AcceptedAs(records, order.party));
    assert LastOf(records, Recognised(order.party)) == None ==>
             Fails(desk, records, order, asOf, Suitability, Unclassified);
    assert LastOf(records, Recognised(order.party)).Some? &&
           LastOf(records, Recognised(order.party)).value.category == "retail-client" ==>
             Fails(desk, records, order, asOf, Suitability, RetailClient);
    assert !Eligible(records, order.party) ==> Fails(desk, records, order, asOf, CounterpartyEligibility, NotEligible);
    assert !HasAgreement(records, order.party) ==> Fails(desk, records, order, asOf, Documentation, NoAgreement);
    assert Fails(desk, records, order, asOf, Sanctions, OnBlockedList) ||
           ((desk.lei(order.party) == "" || desk.lei(order.party) !in desk.blocked) &&
            (order.party == "" || order.party !in desk.blocked));
  }

  /** Cleared is that nothing fails. */
  lemma ClearedIsNoFailure(desk: Desk, records: seq<Record>, order: Order, asOf: int)
    ensures Cleared(desk, records, order, asOf) <==>
            forall kind, reason :: !Fails(desk, records, order, asOf, kind, reason)
  {
    var cents := NotionalMinor(order);
    MinorIsInCents(order);
    PartyMeans(desk, records, order, asOf);
    CreditMeansCleared(desk, records, order, asOf, cents);
    AffordableMeans(desk, records, order, asOf, cents);
    hide Fails, OnRecord, AcceptedAs, HasAgreement, Eligible, LastOf, Affordable, HasHeadroom, InCents, NotionalMinor;
    if Cleared(desk, records, order, asOf) {
      forall kind, reason ensures !Fails(desk, records, order, asOf, kind, reason) {
        match kind { case Identity => case Sanctions => case CounterpartyEligibility => case Suitability =>
                     case Documentation => case CreditLimit => case CapitalImpact => case Funding => }
      }
    }
  }
}
