/**
 The manual FX desk: book, settle and convert over one append-only event log.

 Every command looks the log up, decides, and appends.  There is no other state.  The three commands
 are written once as functions from log to log, and once as methods of `TradeDesk` that append to the
 log one event at a time in the order of the source; each method is proved to append exactly what the
 function says.  What the functions guarantee is proved in FxLifecycle, FxProvenance and FxLedger.

 Money is in integer hundredths of its currency; rates are reals; dates are day numbers.
 */
module FxTradeBook {
  import opened Wrappers

  type Currency = string
  const ZAR: Currency := "ZAR"

  datatype Money = Money(currency: Currency, minor: nat)

  /** The two scenarios the booking route tags its events with. */
  datatype Provenance = DeskBooking | SimBooking

  datatype Side = Received | Paid

  /** An instrument urn: the trade itself, or the cash holding of one of its settled legs. */
  datatype Instance = Fx(tradeId: string) | Cash(tradeId: string, side: Side)

  datatype Terms =
    | FxTerms(settlementDate: int, buy: Money, sell: Money)
    | CashTerms(notional: Money, long: bool, costBasis: Money)

  datatype Event =
    | ConfirmationSent(asOf: int, prov: Provenance, tradeId: string)
    | Affirmed(asOf: int, prov: Provenance, tradeId: string)
    | Created(asOf: int, prov: Provenance, instance: Instance, terms: Terms)
    | SettlementConfirmed(asOf: int, prov: Provenance, tradeId: string, pay: Money, receive: Money)
    | SettlementExecuted(asOf: int, prov: Provenance, trade: Instance, holding: Instance,
                         currency: Currency, movement: int, booked: nat)
    | ConversionExecuted(asOf: int, prov: Provenance, cash: Instance, sold: Money, proceeds: Money,
                         costBasis: Money, unrealised: int)
    | Terminated(asOf: int, prov: Provenance, instance: Instance)

  // ---------------------------------------------------------------- look-ups

  /** The look-ups the commands make: an event type and the one field they compare. */
  datatype Key =
    | AffirmedKey(tradeId: string)
    | CreatedKey(instance: Instance)
    | ConfirmedKey(tradeId: string)
    | ExecutedKey(instance: Instance)
    | TerminatedKey(instance: Instance)

  predicate Matches(e: Event, key: Key) {
    match key
    case AffirmedKey(id) => e.Affirmed? && e.tradeId == id
    case CreatedKey(inst) => e.Created? && e.instance == inst
    case ConfirmedKey(id) => e.SettlementConfirmed? && e.tradeId == id
    case ExecutedKey(inst) => e.SettlementExecuted? && e.holding == inst
    case TerminatedKey(inst) => e.Terminated? && e.instance == inst
  }

  /** `[...replay({type})].find(...)`: the earliest matching event. */
  function First(log: seq<Event>, key: Key): (r: Option<Event>)
    ensures r.Some? ==> Matches(r.value, key)
  {
    if log == [] then None
    else if Matches(log[0], key) then Some(log[0])
    else First(log[1..], key)
  }

  predicate Has(log: seq<Event>, key: Key) {
    First(log, key).Some?
  }

  lemma {:induction false} FirstOfConcat(a: seq<Event>, b: seq<Event>, key: Key)
    ensures First(a + b, key) == if First(a, key).Some? then First(a, key) else First(b, key)
  {
    if a == [] {
      assert a + b == b;
    } else {
      assert (a + b)[1..] == a[1..] + b;
      FirstOfConcat(a[1..], b, key);
    }
  }

  // ---------------------------------------------------------------- booking

  /** Rounding to an integer, halves up, for amounts that are not negative. */
  function HalfUp(x: real): (n: nat)
    requires x >= 0.0
    ensures n as real - 0.5 <= x < n as real + 0.5
  {
    (x + 0.5).Floor
  }

  /** What the operator types.  Dates are not ordered with respect to each other. */
  datatype Ticket = Ticket(base: Currency, quote: Currency, buys: bool, notional: real,
                           notionalCurrency: Currency, rate: real, tradeDate: int, settlementDate: int,
                           counterparty: string, simulated: bool)

  predicate Acceptable(t: Ticket) {
    && |t.base| >= 2
    && |t.quote| >= 2
    && t.base != t.quote
    && t.notional > 0.0
    && (t.notionalCurrency == t.base || t.notionalCurrency == t.quote)
    && t.rate > 0.0
    && t.counterparty != ""
  }

  /** The notional in the base currency; a quote-currency notional is divided by the rate and kept to
      eight decimals. */
  function BaseNotional(t: Ticket): (n: real)
    requires Acceptable(t)
    ensures n >= 0.0
  {
    if t.notionalCurrency == t.base then t.notional
    else HalfUp(t.notional / t.rate * 100000000.0) as real / 100000000.0
  }

  datatype Deal = Deal(tradeDate: int, settlementDate: int, buy: Money, sell: Money, prov: Provenance)

  /** The two amounts are rounded separately, each from the unrounded base notional. */
  function DealOf(t: Ticket): Deal
    requires Acceptable(t)
  {
    var n := BaseNotional(t);
    var base := Money(t.base, HalfUp(n * 100.0));
    assert n * t.rate >= 0.0;
    var quote := Money(t.quote, HalfUp(n * t.rate * 100.0));
    var prov := if t.simulated then SimBooking else DeskBooking;
    if t.buys then Deal(t.tradeDate, t.settlementDate, base, quote, prov)
    else Deal(t.tradeDate, t.settlementDate, quote, base, prov)
  }

  function CreatedOf(id: string, d: Deal): Event {
    Created(d.tradeDate, d.prov, Fx(id), FxTerms(d.settlementDate, d.buy, d.sell))
  }

  function BookStep(log: seq<Event>, id: string, t: Ticket): seq<Event> {
    if !Acceptable(t) then log
    else
      var d := DealOf(t);
      var agreed := log + [ConfirmationSent(d.tradeDate, d.prov, id)] + [Affirmed(d.tradeDate, d.prov, id)];
      if Has(agreed, AffirmedKey(id)) && !Has(agreed, CreatedKey(Fx(id))) then agreed + [CreatedOf(id, d)]
      else agreed
  }

  // ---------------------------------------------------------------- settling

  datatype CashLeg = CashLeg(side: Side, amount: Money)

  /** The currency the holdings' cost basis is carried in. */
  function Reporting(pay: Money, receive: Money): Currency {
    if pay.currency == ZAR then ZAR
    else if receive.currency == ZAR then ZAR
    else pay.currency
  }

  /** A leg that rounded to nothing is dropped. */
  function CashLegs(pay: Money, receive: Money): seq<CashLeg> {
    (if receive.minor != 0 then [CashLeg(Received, receive)] else []) +
    (if pay.minor != 0 then [CashLeg(Paid, pay)] else [])
  }

  /** The first leg on the other side that is in the reporting currency. */
  function CounterLeg(leg: CashLeg, legs: seq<CashLeg>, reporting: Currency): Option<nat> {
    if legs == [] then None
    else if legs[0].side != leg.side && legs[0].amount.currency == reporting then Some(legs[0].amount.minor)
    else CounterLeg(leg, legs[1..], reporting)
  }

  /** A foreign leg costs what its counter leg moved; without one the settlement fails. */
  function CostBasis(leg: CashLeg, legs: seq<CashLeg>, reporting: Currency): Option<nat> {
    if leg.amount.currency == reporting then Some(leg.amount.minor)
    else CounterLeg(leg, legs, reporting)
  }

  predicate AllCosted(legs: seq<CashLeg>, all: seq<CashLeg>, reporting: Currency) {
    legs == [] || (CostBasis(legs[0], all, reporting).Some? && AllCosted(legs[1..], all, reporting))
  }

  function ExecutedOf(c: Event, leg: CashLeg, prov: Provenance): Event
    requires c.SettlementConfirmed?
  {
    var moved: int := if leg.side.Received? then leg.amount.minor else -(leg.amount.minor as int);
    SettlementExecuted(c.asOf, prov, Fx(c.tradeId), Cash(c.tradeId, leg.side), leg.amount.currency,
                       moved, leg.amount.minor)
  }

  function HoldingOf(c: Event, leg: CashLeg, cost: nat, reporting: Currency, prov: Provenance): Event
    requires c.SettlementConfirmed?
  {
    Created(c.asOf, prov, Cash(c.tradeId, leg.side),
            CashTerms(leg.amount, leg.side.Received?, Money(reporting, cost)))
  }

  /** The loop over the settlement payloads, each guarded by its own look-up. */
  function ExecuteAll(log: seq<Event>, legs: seq<CashLeg>, c: Event, prov: Provenance): seq<Event>
    requires c.SettlementConfirmed?
    decreases |legs|
  {
    if legs == [] then log
    else if Has(log, ExecutedKey(Cash(c.tradeId, legs[0].side))) then ExecuteAll(log, legs[1..], c, prov)
    else ExecuteAll(log + [ExecutedOf(c, legs[0], prov)], legs[1..], c, prov)
  }

  /** The loop over the built cash holdings. */
  function MaterialiseAll(log: seq<Event>, legs: seq<CashLeg>, all: seq<CashLeg>, c: Event,
                          reporting: Currency, prov: Provenance): seq<Event>
    requires c.SettlementConfirmed?
    requires AllCosted(legs, all, reporting)
    decreases |legs|
  {
    if legs == [] then log
    else if Has(log, CreatedKey(Cash(c.tradeId, legs[0].side))) then
      MaterialiseAll(log, legs[1..], all, c, reporting, prov)
    else
      var cost := CostBasis(legs[0], all, reporting).value;
      MaterialiseAll(log + [HoldingOf(c, legs[0], cost, reporting, prov)], legs[1..], all, c, reporting, prov)
  }

  function CloseFx(log: seq<Event>, c: Event, prov: Provenance): seq<Event>
    requires c.SettlementConfirmed?
  {
    if Has(log, CreatedKey(Fx(c.tradeId))) && !Has(log, TerminatedKey(Fx(c.tradeId))) then
      log + [Terminated(c.asOf, prov, Fx(c.tradeId))]
    else log
  }

  /** The settlement seam.  It throws, having appended nothing, when a leg has no cost basis. */
  function SettleLeg(log: seq<Event>, id: string, reporting: Currency, prov: Provenance): seq<Event> {
    match First(log, ConfirmedKey(id))
    case None => log
    case Some(c) =>
      var legs := CashLegs(c.pay, c.receive);
      if !AllCosted(legs, legs, reporting) then log
      else CloseFx(MaterialiseAll(ExecuteAll(log, legs, c, prov), legs, legs, c, reporting, prov), c, prov)
  }

  function ConfirmedOf(created: Event): Event
    requires created.Created? && created.terms.FxTerms?
  {
    SettlementConfirmed(created.terms.settlementDate, created.prov, created.instance.tradeId,
                        created.terms.sell, created.terms.buy)
  }

  function Confirm(log: seq<Event>, created: Event): seq<Event>
    requires created.Created? && created.terms.FxTerms?
  {
    if Has(log, ConfirmedKey(created.instance.tradeId)) then log else log + [ConfirmedOf(created)]
  }

  /** The seam has a confirmation and can cost every leg. */
  predicate SeamSettles(log: seq<Event>, id: string, reporting: Currency) {
    var c := First(log, ConfirmedKey(id));
    c.Some? && AllCosted(CashLegs(c.value.pay, c.value.receive), CashLegs(c.value.pay, c.value.receive), reporting)
  }

  /** What the route answers: settled now, or settled before. */
  predicate Settles(log: seq<Event>, inst: Instance, runDate: int) {
    match First(log, CreatedKey(inst))
    case None => false
    case Some(created) =>
      && created.terms.FxTerms?
      && (|| Has(log, TerminatedKey(inst))
          || (&& created.terms.settlementDate <= runDate
              && SeamSettles(Confirm(log, created), inst.tradeId, Reporting(created.terms.sell, created.terms.buy))))
  }

  function SettleStep(log: seq<Event>, inst: Instance, runDate: int): seq<Event> {
    match First(log, CreatedKey(inst))
    case None => log
    case Some(created) =>
      if !created.terms.FxTerms? then log
      else if Has(log, TerminatedKey(inst)) then log
      else if runDate < created.terms.settlementDate then log
      else
        SettleLeg(Confirm(log, created), inst.tradeId, Reporting(created.terms.sell, created.terms.buy), created.prov)
  }

  // ---------------------------------------------------------------- converting

  /** `unrealised` is the operator's figure for the gain to reclassify, already in hundredths. */
  datatype Conversion = Conversion(asOf: int, rate: real, unrealised: int)

  function Proceeds(held: nat, rate: real): nat
    requires rate > 0.0
  {
    assert held as real * rate >= 0.0;
    HalfUp(held as real * rate)
  }

  function ConvertedOf(created: Event, v: Conversion): Event
    requires created.Created? && created.terms.CashTerms? && v.rate > 0.0
  {
    var t := created.terms;
    ConversionExecuted(v.asOf, created.prov, created.instance, t.notional,
                       Money(t.costBasis.currency, Proceeds(t.notional.minor, v.rate)), t.costBasis, v.unrealised)
  }

  function ConvertStep(log: seq<Event>, inst: Instance, v: Conversion): seq<Event> {
    if v.rate <= 0.0 then log
    else
      match First(log, CreatedKey(inst))
      case None => log
      case Some(created) =>
        if !created.terms.CashTerms? then log
        else if created.terms.notional.currency == created.terms.costBasis.currency then log
        else if Has(log, TerminatedKey(inst)) then log
        else log + [ConvertedOf(created, v)] + [Terminated(v.asOf, created.prov, inst)]
  }

  /** What the route answers: converted now, or converted before. */
  predicate Converts(log: seq<Event>, inst: Instance, v: Conversion) {
    match First(log, CreatedKey(inst))
    case None => false
    case Some(created) =>
      && v.rate > 0.0
      && created.terms.CashTerms?
      && created.terms.notional.currency != created.terms.costBasis.currency
  }

  // ---------------------------------------------------------------- commands and runs

  datatype Command =
    | Book(id: string, ticket: Ticket)
    | Settle(instance: Instance, runDate: int)
    | Convert(instance: Instance, conversion: Conversion)

  function Step(log: seq<Event>, c: Command): seq<Event> {
    match c
    case Book(id, t) => BookStep(log, id, t)
    case Settle(inst, d) => SettleStep(log, inst, d)
    case Convert(inst, v) => ConvertStep(log, inst, v)
  }

  function Run(commands: seq<Command>): seq<Event> {
    if commands == [] then [] else Step(Run(commands[..|commands| - 1]), commands[|commands| - 1])
  }

  /** Booking mints a new trade id each time. */
  predicate Minted(commands: seq<Command>) {
    forall i, j | 0 <= i < j < |commands| && commands[i].Book? && commands[j].Book? ::
      commands[i].id != commands[j].id
  }

  // ---------------------------------------------------------------- the desk itself

  /** The shared event store as the routes see it. */
  class TradeDesk {
    var log: seq<Event>

    constructor ()
      ensures log == []
    {
      log := [];
    }

    method Book(id: string, ticket: Ticket) returns (ok: bool)
      modifies this
      ensures log == BookStep(old(log), id, ticket)
      ensures ok <==> Acceptable(ticket) && !Has(old(log), CreatedKey(Fx(id)))
    {
      if !Acceptable(ticket) {
        return false;
      }
      var d := DealOf(ticket);
      log := log + [ConfirmationSent(d.tradeDate, d.prov, id)];
      log := log + [Affirmed(d.tradeDate, d.prov, id)];
      FirstOfConcat(old(log), [ConfirmationSent(d.tradeDate, d.prov, id)], CreatedKey(Fx(id)));
      FirstOfConcat(old(log) + [ConfirmationSent(d.tradeDate, d.prov, id)], [Affirmed(d.tradeDate, d.prov, id)],
                    CreatedKey(Fx(id)));
      FirstOfConcat(old(log) + [ConfirmationSent(d.tradeDate, d.prov, id)], [Affirmed(d.tradeDate, d.prov, id)],
                    AffirmedKey(id));
      if !Has(log, AffirmedKey(id)) || Has(log, CreatedKey(Fx(id))) {
        return false;
      }
      log := log + [CreatedOf(id, d)];
      ok := true;
    }

    method Settle(inst: Instance, runDate: int) returns (ok: bool)
      modifies this
      ensures log == SettleStep(old(log), inst, runDate)
      ensures ok <==> Settles(old(log), inst, runDate)
    {
      var created := First(log, CreatedKey(inst));
      if created.None? || !created.value.terms.FxTerms? {
        return false;
      }
      if Has(log, TerminatedKey(inst)) {
        return true;
      }
      if runDate < created.value.terms.settlementDate {
        return false;
      }
      if !Has(log, ConfirmedKey(inst.tradeId)) {
        log := log + [ConfirmedOf(created.value)];
      }
      ok := SettleSeam(inst.tradeId, Reporting(created.value.terms.sell, created.value.terms.buy),
                       created.value.prov);
    }

    /** `settleFxLeg`: the settlement events of record first, then the holdings, then the close. */
    method SettleSeam(id: string, reporting: Currency, prov: Provenance) returns (ok: bool)
      modifies this
      ensures log == SettleLeg(old(log), id, reporting, prov)
      ensures ok <==> SeamSettles(old(log), id, reporting)
    {
      var confirmed := First(log, ConfirmedKey(id));
      if confirmed.None? {
        return false;
      }
      var c := confirmed.value;
      var legs := CashLegs(c.pay, c.receive);
      if !AllCosted(legs, legs, reporting) {
        return false;
      }
      ExecuteLegs(legs, c, prov);
      MaterialiseLegs(legs, c, reporting, prov);
      if Has(log, CreatedKey(Fx(c.tradeId))) && !Has(log, TerminatedKey(Fx(c.tradeId))) {
        log := log + [Terminated(c.asOf, prov, Fx(c.tradeId))];
      }
      ok := true;
    }

    method ExecuteLegs(legs: seq<CashLeg>, c: Event, prov: Provenance)
      requires c.SettlementConfirmed?
      modifies this
      ensures log == ExecuteAll(old(log), legs, c, prov)
    {
      for i := 0 to |legs|
        invariant ExecuteAll(log, legs[i..], c, prov) == ExecuteAll(old(log), legs, c, prov)
      {
        assert legs[i..][0] == legs[i] && legs[i..][1..] == legs[i + 1..];
        if !Has(log, ExecutedKey(Cash(c.tradeId, legs[i].side))) {
          log := log + [ExecutedOf(c, legs[i], prov)];
        }
      }
    }

    method MaterialiseLegs(legs: seq<CashLeg>, c: Event, reporting: Currency, prov: Provenance)
      requires c.SettlementConfirmed?
      requires AllCosted(legs, legs, reporting)
      modifies this
      ensures log == MaterialiseAll(old(log), legs, legs, c, reporting, prov)
    {
      for i := 0 to |legs|
        invariant AllCosted(legs[i..], legs, reporting)
        invariant MaterialiseAll(log, legs[i..], legs, c, reporting, prov) ==
                  MaterialiseAll(old(log), legs, legs, c, reporting, prov)
      {
        assert legs[i..][0] == legs[i] && legs[i..][1..] == legs[i + 1..];
        if !Has(log, CreatedKey(Cash(c.tradeId, legs[i].side))) {
          var cost := CostBasis(legs[i], legs, reporting).value;
          log := log + [HoldingOf(c, legs[i], cost, reporting, prov)];
        }
      }
    }

    method Convert(inst: Instance, v: Conversion) returns (ok: bool)
      modifies this
      ensures log == ConvertStep(old(log), inst, v)
      ensures ok <==> Converts(old(log), inst, v)
    {
      if v.rate <= 0.0 {
        return false;
      }
      var created := First(log, CreatedKey(inst));
      if created.None? || !created.value.terms.CashTerms? {
        return false;
      }
      if created.value.terms.notional.currency == created.value.terms.costBasis.currency {
        return false;
      }
      if Has(log, TerminatedKey(inst)) {
        return true;
      }
      log := log + [ConvertedOf(created.value, v)];
      log := log + [Terminated(v.asOf, created.value.prov, inst)];
      ok := true;
    }
  }
}
