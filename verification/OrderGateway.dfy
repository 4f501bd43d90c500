/**
 The pre-trade order gateway.

 An order appends a proposal, then for each of eight checks a request and a completion, then one
 verdict.  Every check reads the shared log while the gateway is itself appending to it, and other
 parties append facts between orders.  The class below does it one append at a time; the theorems
 cover any number of orders and facts in any order.
 */
module OrderGateway {
  import opened Wrappers
  import opened Eligibility
  import opened GatewayLog
  import CreditHeadroom

  const KINDS: seq<Kind> := [Identity, Sanctions, CounterpartyEligibility, Suitability, Documentation,
                             CreditLimit, CapitalImpact, Funding]

  datatype Order = Order(party: string, quoteCurrency: string, sells: bool, notional: real, rate: real)

  /** What the checks read outside the log: the blocked list, the synthetic LEI and the ratified
      thresholds. */
  datatype Desk = Desk(blocked: set<string>, lei: string -> string,
                       rwaWeight: Option<real>, rwaCeiling: int, rwaBaseline: int,
                       lcrNow: real, lcrFloor: real, lcrPerMillion: real)

  // ---------------------------------------------------------------- the eight checks

  /** A sanctions clearance or an acceptance that names the party. */
  predicate Accepts(r: Record, party: string) {
    (r.SanctionsCleared? && r.party == party) || (r.ClientAccepted? && party in r.names)
  }

  function CheckIdentity(records: seq<Record>, party: string): Outcome {
    var known := exists i | 0 <= i < |records| :: records[i].Screened? && records[i].party == party;
    var accepted := exists i | 0 <= i < |records| :: Accepts(records[i], party);
    if !known && !accepted then Reject(NeitherRecordNorKyc)
    else if !known then Reject(NoPartyRecord)
    else if !accepted then Reject(NoKyc)
    else Approve
  }

  predicate IsBlocked(desk: Desk, name: string) {
    name != "" && name in desk.blocked
  }

  const CATEGORIES: set<string> := {"professional-client", "retail-client", "market-counterparty"}

  /** The last recognised classification in the log. */
  function FaisCategory(records: seq<Record>, party: string): Option<string> {
    if records == [] then None
    else
      var r := records[|records| - 1];
      if r.FaisClassified? && r.party == party && r.category in CATEGORIES then Some(r.category)
      else FaisCategory(records[..|records| - 1], party)
  }

  function CheckSuitability(records: seq<Record>, party: string): Outcome {
    var category := FaisCategory(records, party);
    if category.None? then Reject(Unclassified)
    else if category.value == "retail-client" then Reject(RetailClient)
    else Approve
  }

  const AGREEMENTS: set<string> := {"isda-2002", "isda-2025", "fx-bilateral"}

  function CheckDocumentation(records: seq<Record>, party: string): Outcome {
    if exists i | 0 <= i < |records| ::
         records[i].AgreementSigned? && records[i].party == party && records[i].form in AGREEMENTS
    then Approve
    else Reject(NoAgreement)
  }

  /** `Math.round`, then clamped at zero. */
  function NotionalMinor(order: Order): nat {
    var n := (order.notional * order.rate * 100.0 + 0.5).Floor;
    if n < 0 then 0 else n
  }

  function LatestRwa(records: seq<Record>): Option<int> {
    if records == [] then None
    else
      var r := records[|records| - 1];
      if r.RwaComputed? then Some(r.total) else LatestRwa(records[..|records| - 1])
  }

  function CheckCapital(desk: Desk, records: seq<Record>, order: Order): Outcome {
    if order.sells then Approve
    else if order.quoteCurrency != "ZAR" then Reject(NotRandQuoted)
    else if desk.rwaWeight.None? then Reject(NoRiskWeight)
    else
      var latest := LatestRwa(records);
      var current := if latest.None? then desk.rwaBaseline else latest.value;
      var added := (NotionalMinor(order) as real * desk.rwaWeight.value + 0.5).Floor;
      if current + added > desk.rwaCeiling then Reject(CapitalCeiling) else Approve
  }

  function CheckFunding(desk: Desk, order: Order): Outcome {
    if order.sells then Approve
    else if order.quoteCurrency != "ZAR" then Reject(NotRandQuoted)
    else
      var outflow := NotionalMinor(order) as real / 100.0 / 1000000.0 * desk.lcrPerMillion;
      if desk.lcrNow - outflow < desk.lcrFloor then Reject(LiquidityFloor) else Approve
  }

  function Verdict(desk: Desk, log: seq<Entry>, order: Order, asOf: int, kind: Kind): Outcome {
    match kind
    case Identity => CheckIdentity(Records(log), order.party)
    case Sanctions =>
      if IsBlocked(desk, desk.lei(order.party)) || IsBlocked(desk, order.party) then Reject(OnBlockedList) else Approve
    case CounterpartyEligibility => if IsEligible(Records(log), order.party) then Approve else Reject(NotEligible)
    case Suitability => CheckSuitability(Records(log), order.party)
    case Documentation => CheckDocumentation(Records(log), order.party)
    case CreditLimit =>
      var block := CreditHeadroom.HeadroomBlock(log, order.party, NotionalMinor(order), order.quoteCurrency, asOf);
      if block.Some? then Reject(NoHeadroom(block.value)) else Approve
    case CapitalImpact => CheckCapital(desk, Records(log), order)
    case Funding => CheckFunding(desk, order)
  }

  // ---------------------------------------------------------------- what an order appends

  /** The request and completion of the first `n` checks, for a proposal at position `base`. */
  function Pairs(desk: Desk, log: seq<Entry>, order: Order, id: string, asOf: int, base: nat, n: nat): seq<Entry>
    requires n <= |KINDS|
  {
    if n == 0 then []
    else
      var kind := KINDS[n - 1];
      Pairs(desk, log, order, id, asOf, base, n - 1) +
      [Requested(id, kind, base, asOf),
       Completed(id, kind, Verdict(desk, log, order, asOf, kind), base + 2 * n - 1, asOf)]
  }

  /** The earliest of the first `n` checks to reject. */
  function FirstRejecting(desk: Desk, log: seq<Entry>, order: Order, asOf: int, n: nat): Option<nat>
    requires n <= |KINDS|
  {
    if n == 0 then None
    else
      var earlier := FirstRejecting(desk, log, order, asOf, n - 1);
      if earlier.Some? then earlier
      else if Verdict(desk, log, order, asOf, KINDS[n - 1]).Reject? then Some(n - 1)
      else None
  }

  function Terminal(desk: Desk, log: seq<Entry>, order: Order, id: string, asOf: int): Entry {
    var r := FirstRejecting(desk, log, order, asOf, |KINDS|);
    if r.Some? && r.value < |KINDS| then
      var verdict := Verdict(desk, log, order, asOf, KINDS[r.value]);
      Rejected(id, KINDS[r.value], if verdict.Reject? then verdict.reason else NotEligible, asOf)
    else Approved(id, asOf)
  }

  function Trace(desk: Desk, log: seq<Entry>, order: Order, id: string, asOf: int, base: nat): seq<Entry> {
    [Proposed(id, order.party, asOf)] + Pairs(desk, log, order, id, asOf, base, |KINDS|) +
    [Terminal(desk, log, order, id, asOf)]
  }

  // ---------------------------------------------------------------- look-up

  datatype Result =
    | ApprovedResult(id: string, asOf: int)
    | RejectedResult(id: string, check: Kind, reason: Reason, asOf: int)

  function FirstApproved(log: seq<Entry>, id: string): Option<Entry> {
    if log == [] then None
    else if log[0].Approved? && log[0].id == id then Some(log[0])
    else FirstApproved(log[1..], id)
  }

  function FirstRejected(log: seq<Entry>, id: string): Option<Entry> {
    if log == [] then None
    else if log[0].Rejected? && log[0].id == id then Some(log[0])
    else FirstRejected(log[1..], id)
  }

  function ResultOf(e: Entry): Result
    requires e.Approved? || e.Rejected?
  {
    if e.Approved? then ApprovedResult(e.id, e.asOf) else RejectedResult(e.id, e.check, e.reason, e.asOf)
  }

  /** Approvals are searched before rejections. */
  function ExistingResult(log: seq<Entry>, id: string): Option<Result> {
    var approved := FirstApproved(log, id);
    if approved.Some? && approved.value.Approved? then Some(ResultOf(approved.value))
    else
      var rejected := FirstRejected(log, id);
      if rejected.Some? && rejected.value.Rejected? then Some(ResultOf(rejected.value)) else None
  }

  function Route(desk: Desk, log: seq<Entry>, order: Order, id: string, asOf: int): seq<Entry> {
    if ExistingResult(log, id).Some? then log else log + Trace(desk, log, order, id, asOf, |log|)
  }

  // ---------------------------------------------------------------- what the checks see

  /** A verdict depends on the facts in the log alone: the gateway's own entries, approvals included, are
      invisible to every check. */
  lemma VerdictSeesFacts(desk: Desk, x: seq<Entry>, y: seq<Entry>, order: Order, asOf: int, kind: Kind)
    requires Records(x) == Records(y)
    ensures Verdict(desk, x, order, asOf, kind) == Verdict(desk, y, order, asOf, kind)
  {
    CreditHeadroom.HeadroomSeesFacts(x, y, order.party, NotionalMinor(order), order.quoteCurrency, asOf);
  }

  // ---------------------------------------------------------------- the gateway

  class Gateway {
    var log: seq<Entry>

    constructor ()
      ensures log == []
    {
      log := [];
    }

    method Observe(r: Record)
      modifies this
      ensures log == old(log) + [Fact(r)]
    {
      log := log + [Fact(r)];
    }

    /** Every check reads the log as it then stands, the gateway's own entries included. */
    method RouteOrder(desk: Desk, order: Order, id: string, asOf: int) returns (result: Result)
      modifies this
      ensures log == Route(desk, old(log), order, id, asOf)
      ensures old(ExistingResult(log, id)).Some? ==> result == old(ExistingResult(log, id)).value
      ensures old(ExistingResult(log, id)).None? ==>
                result == ResultOf(Terminal(desk, old(log), order, id, asOf))
    {
      var existing := ExistingResult(log, id);
      if existing.Some? {
        return existing.value;
      }
      result := RunChecks(desk, order, id, asOf);
    }

    method RunChecks(desk: Desk, order: Order, id: string, asOf: int) returns (result: Result)
      modifies this
      ensures log == old(log) + Trace(desk, old(log), order, id, asOf, |old(log)|)
      ensures result == ResultOf(Terminal(desk, old(log), order, id, asOf))
    {
      hide Verdict, Records;
      ghost var before := log;
      var base := |log|;
      log := log + [Proposed(id, order.party, asOf)];
      RecordsAfter(before, [Proposed(id, order.party, asOf)]);
      var rejecting: Option<Kind> := None;
      var reason := NotEligible;
      for i := 0 to |KINDS|
        invariant Records(log) == Records(before)
        invariant log == before + [Proposed(id, order.party, asOf)] + Pairs(desk, before, order, id, asOf, base, i)
        invariant |log| == base + 1 + 2 * i
        invariant rejecting.Some? == FirstRejecting(desk, before, order, asOf, i).Some?
        invariant rejecting.Some? ==>
                    var r := FirstRejecting(desk, before, order, asOf, i).value;
                    && r < i && rejecting == Some(KINDS[r])
                    && Verdict(desk, before, order, asOf, KINDS[r]) == Reject(reason)
      {
        ghost var start := log;
        var kind := KINDS[i];
        var request := |log|;
        log := log + [Requested(id, kind, base, asOf)];
        RecordsAfter(start, [Requested(id, kind, base, asOf)]);
        var outcome := Verdict(desk, log, order, asOf, kind);
        VerdictSeesFacts(desk, log, before, order, asOf, kind);
        ghost var asked := log;
        log := log + [Completed(id, kind, outcome, request, asOf)];
        RecordsAfter(asked, [Completed(id, kind, outcome, request, asOf)]);
        TwoMore(before + [Proposed(id, order.party, asOf)], Pairs(desk, before, order, id, asOf, base, i),
                Requested(id, kind, base, asOf), Completed(id, kind, outcome, request, asOf));
        if outcome.Reject? && rejecting.None? {
          rejecting := Some(kind);
          reason := outcome.reason;
        }
      }
      if rejecting.Some? {
        log := log + [Rejected(id, rejecting.value, reason, asOf)];
        result := RejectedResult(id, rejecting.value, reason, asOf);
      } else {
        log := log + [Approved(id, asOf)];
        result := ApprovedResult(id, asOf);
      }
      assert log == before + Trace(desk, before, order, id, asOf, base);
    }
  }

  lemma TwoMore(prefix: seq<Entry>, pairs: seq<Entry>, p: Entry, q: Entry)
    ensures prefix + pairs + [p] + [q] == prefix + (pairs + [p, q])
  {}
}
