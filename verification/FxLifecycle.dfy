/**
 What every run of the desk's commands does to each trade.

 The log is shared by all trades and every command decides by looking the log up.  The main theorem
 says that this is the same as running one small state machine per trade: the events of a trade, in
 log order, are exactly the trace of the state its own commands lead to, whatever the commands for
 other trades did in between.  That each instrument is terminated at most once, that a trade is
 confirmed at most once, that nothing settles early and that a repeated command is silent are then
 read off the machine.
 */
module FxLifecycle {
  import opened Wrappers
  import opened FxTradeBook

  // ---------------------------------------------------------------- one trade's part of the log

  function TradeOf(e: Event): string {
    match e
    case ConfirmationSent(_, _, id) => id
    case Affirmed(_, _, id) => id
    case Created(_, _, inst, _) => inst.tradeId
    case SettlementConfirmed(_, _, id, _, _) => id
    case SettlementExecuted(_, _, _, holding, _, _, _) => holding.tradeId
    case ConversionExecuted(_, _, cash, _, _, _, _) => cash.tradeId
    case Terminated(_, _, inst) => inst.tradeId
  }

  function View(log: seq<Event>, id: string): seq<Event> {
    if log == [] then []
    else if TradeOf(log[0]) == id then [log[0]] + View(log[1..], id)
    else View(log[1..], id)
  }

  function TradeOfCommand(c: Command): string {
    match c
    case Book(id, _) => id
    case Settle(inst, _) => inst.tradeId
    case Convert(inst, _) => inst.tradeId
  }

  function TradeOfKey(key: Key): string {
    match key
    case AffirmedKey(id) => id
    case CreatedKey(inst) => inst.tradeId
    case ConfirmedKey(id) => id
    case ExecutedKey(inst) => inst.tradeId
    case TerminatedKey(inst) => inst.tradeId
  }

  // ---------------------------------------------------------------- the machine

  /** A trade's life.  `Unsettled` is confirmed by the correspondent but cannot settle. */
  datatype Life =
    | Absent
    | Booked(deal: Deal)
    | Unsettled(deal: Deal)
    | Settled(deal: Deal)
    | Realised(deal: Deal, conversion: Conversion)

  function Home(d: Deal): Currency {
    Reporting(d.sell, d.buy)
  }

  /** The amount in the reporting currency, and the foreign one. */
  function HomeAmount(d: Deal): nat {
    if d.buy.currency == Home(d) then d.buy.minor else d.sell.minor
  }

  function ForeignSide(d: Deal): Side {
    if d.buy.currency == Home(d) then Paid else Received
  }

  function ForeignAmount(d: Deal): Money {
    if d.buy.currency == Home(d) then d.sell else d.buy
  }

  /** The reporting leg rounded away while the foreign one did not. */
  predicate Stuck(d: Deal) {
    HomeAmount(d) == 0 && ForeignAmount(d).minor != 0
  }

  function Next(life: Life, c: Command): Life {
    match (life, c)
    case (Absent, Book(_, t)) => if Acceptable(t) then Booked(DealOf(t)) else Absent
    case (Booked(d), Settle(Fx(_), date)) =>
      if date < d.settlementDate then life else if Stuck(d) then Unsettled(d) else Settled(d)
    case (Settled(d), Convert(Cash(_, side), v)) =>
      if v.rate > 0.0 && side == ForeignSide(d) && ForeignAmount(d).minor != 0 then Realised(d, v) else life
    case _ => life
  }

  /** The state after a run, from the trade's own commands alone. */
  function LifeAfter(commands: seq<Command>, id: string): Life {
    if commands == [] then Absent
    else
      var last := commands[|commands| - 1];
      var before := LifeAfter(commands[..|commands| - 1], id);
      if TradeOfCommand(last) == id then Next(before, last) else before
  }

  // ---------------------------------------------------------------- what each state has left in the log

  function Opening(id: string, d: Deal): seq<Event> {
    [ConfirmationSent(d.tradeDate, d.prov, id), Affirmed(d.tradeDate, d.prov, id), CreatedOf(id, d)]
  }

  function Confirmation(id: string, d: Deal): Event {
    SettlementConfirmed(d.settlementDate, d.prov, id, d.sell, d.buy)
  }

  function ExecutedLeg(id: string, d: Deal, side: Side): seq<Event> {
    var amount := if side.Received? then d.buy else d.sell;
    if amount.minor == 0 then [] else [ExecutedOf(Confirmation(id, d), CashLeg(side, amount), d.prov)]
  }

  /** Either holding costs what moved in the reporting currency. */
  function HoldingLeg(id: string, d: Deal, side: Side): seq<Event> {
    var amount := if side.Received? then d.buy else d.sell;
    if amount.minor == 0 then []
    else [HoldingOf(Confirmation(id, d), CashLeg(side, amount), HomeAmount(d), Home(d), d.prov)]
  }

  function Closing(id: string, d: Deal): Event {
    Terminated(d.settlementDate, d.prov, Fx(id))
  }

  function Settlement(id: string, d: Deal): seq<Event> {
    ExecutedLeg(id, d, Received) + ExecutedLeg(id, d, Paid) +
    HoldingLeg(id, d, Received) + HoldingLeg(id, d, Paid) + [Closing(id, d)]
  }

  function Holding(id: string, d: Deal): Event {
    HoldingOf(Confirmation(id, d), CashLeg(ForeignSide(d), ForeignAmount(d)), HomeAmount(d), Home(d), d.prov)
  }

  function Realisation(id: string, d: Deal, v: Conversion): seq<Event>
    requires v.rate > 0.0
  {
    [ConvertedOf(Holding(id, d), v), Terminated(v.asOf, d.prov, Cash(id, ForeignSide(d)))]
  }

  /** The states a run can lead to. */
  predicate Proper(life: Life) {
    match life
    case Absent => true
    case Booked(d) => Two(d)
    case Unsettled(d) => Two(d) && Stuck(d)
    case Settled(d) => Two(d) && !Stuck(d)
    case Realised(d, v) => Two(d) && !Stuck(d) && ForeignAmount(d).minor != 0 && v.rate > 0.0
  }

  predicate Two(d: Deal) {
    d.buy.currency != d.sell.currency
  }

  function Trace(id: string, life: Life): seq<Event>
    requires Proper(life)
  {
    match life
    case Absent => []
    case Booked(d) => Opening(id, d)
    case Unsettled(d) => Opening(id, d) + [Confirmation(id, d)]
    case Settled(d) => Opening(id, d) + [Confirmation(id, d)] + Settlement(id, d)
    case Realised(d, v) => Opening(id, d) + [Confirmation(id, d)] + Settlement(id, d) + Realisation(id, d, v)
  }

  // ---------------------------------------------------------------- commands are local to their trade

  lemma {:induction false} ViewOfConcat(a: seq<Event>, b: seq<Event>, id: string)
    ensures View(a + b, id) == View(a, id) + View(b, id)
  {
    if a == [] {
      assert a + b == b;
    } else {
      assert (a + b)[1..] == a[1..] + b;
      ViewOfConcat(a[1..], b, id);
    }
  }

  lemma ViewOfOne(log: seq<Event>, e: Event, id: string)
    ensures View(log + [e], id) == if TradeOf(e) == id then View(log, id) + [e] else View(log, id)
  {
    ViewOfConcat(log, [e], id);
  }

  lemma {:induction false} LookUpsAreLocal(log: seq<Event>, key: Key)
    ensures First(log, key) == First(View(log, TradeOfKey(key)), key)
  {
    if log != [] {
      LookUpsAreLocal(log[1..], key);
      if TradeOf(log[0]) == TradeOfKey(key) {
        FirstOfConcat([log[0]], View(log[1..], TradeOfKey(key)), key);
        FirstOfConcat([log[0]], log[1..], key);
        assert log == [log[0]] + log[1..];
      } else {
        assert !Matches(log[0], key);
      }
    }
  }

  lemma {:induction false} ExecuteIsLocal(log: seq<Event>, legs: seq<CashLeg>, c: Event, prov: Provenance, id: string)
    requires c.SettlementConfirmed?
    ensures View(ExecuteAll(log, legs, c, prov), id) ==
            if c.tradeId == id then ExecuteAll(View(log, id), legs, c, prov) else View(log, id)
    decreases |legs|
  {
    if legs != [] {
      LookUpsAreLocal(log, ExecutedKey(Cash(c.tradeId, legs[0].side)));
      ViewOfOne(log, ExecutedOf(c, legs[0], prov), id);
      ExecuteIsLocal(log, legs[1..], c, prov, id);
      ExecuteIsLocal(log + [ExecutedOf(c, legs[0], prov)], legs[1..], c, prov, id);
    }
  }

  lemma {:induction false} MaterialiseIsLocal(log: seq<Event>, legs: seq<CashLeg>, all: seq<CashLeg>, c: Event,
                                              reporting: Currency, prov: Provenance, id: string)
    requires c.SettlementConfirmed?
    requires AllCosted(legs, all, reporting)
    ensures View(MaterialiseAll(log, legs, all, c, reporting, prov), id) ==
            if c.tradeId == id then MaterialiseAll(View(log, id), legs, all, c, reporting, prov) else View(log, id)
    decreases |legs|
  {
    if legs != [] {
      var e := HoldingOf(c, legs[0], CostBasis(legs[0], all, reporting).value, reporting, prov);
      LookUpsAreLocal(log, CreatedKey(Cash(c.tradeId, legs[0].side)));
      ViewOfOne(log, e, id);
      MaterialiseIsLocal(log, legs[1..], all, c, reporting, prov, id);
      MaterialiseIsLocal(log + [e], legs[1..], all, c, reporting, prov, id);
    }
  }

  lemma CloseIsLocal(log: seq<Event>, c: Event, prov: Provenance, id: string)
    requires c.SettlementConfirmed?
    ensures View(CloseFx(log, c, prov), id) ==
            if c.tradeId == id then CloseFx(View(log, id), c, prov) else View(log, id)
  {
    LookUpsAreLocal(log, CreatedKey(Fx(c.tradeId)));
    LookUpsAreLocal(log, TerminatedKey(Fx(c.tradeId)));
    ViewOfOne(log, Terminated(c.asOf, prov, Fx(c.tradeId)), id);
  }

  lemma SeamIsLocal(log: seq<Event>, trade: string, reporting: Currency, prov: Provenance, id: string)
    ensures View(SettleLeg(log, trade, reporting, prov), id) ==
            if trade == id then SettleLeg(View(log, id), trade, reporting, prov) else View(log, id)
  {
    LookUpsAreLocal(log, ConfirmedKey(trade));
    if First(log, ConfirmedKey(trade)).Some? {
      var c := First(log, ConfirmedKey(trade)).value;
      var legs := CashLegs(c.pay, c.receive);
      if AllCosted(legs, legs, reporting) {
        var executed := ExecuteAll(log, legs, c, prov);
        ExecuteIsLocal(log, legs, c, prov, id);
        MaterialiseIsLocal(executed, legs, legs, c, reporting, prov, id);
        CloseIsLocal(MaterialiseAll(executed, legs, legs, c, reporting, prov), c, prov, id);
      }
    }
  }

  lemma BookIsLocal(log: seq<Event>, trade: string, t: Ticket, id: string)
    ensures View(BookStep(log, trade, t), id) ==
            if trade == id then BookStep(View(log, id), trade, t) else View(log, id)
  {
    if Acceptable(t) {
      var d := DealOf(t);
      var sent := log + [ConfirmationSent(d.tradeDate, d.prov, trade)];
      var agreed := sent + [Affirmed(d.tradeDate, d.prov, trade)];
      ViewOfOne(log, ConfirmationSent(d.tradeDate, d.prov, trade), id);
      ViewOfOne(sent, Affirmed(d.tradeDate, d.prov, trade), id);
      ViewOfOne(agreed, CreatedOf(trade, d), id);
      LookUpsAreLocal(agreed, AffirmedKey(trade));
      LookUpsAreLocal(agreed, CreatedKey(Fx(trade)));
    }
  }

  lemma SettleIsLocal(log: seq<Event>, inst: Instance, date: int, id: string)
    ensures View(SettleStep(log, inst, date), id) ==
            if inst.tradeId == id then SettleStep(View(log, id), inst, date) else View(log, id)
  {
    LookUpsAreLocal(log, CreatedKey(inst));
    LookUpsAreLocal(log, TerminatedKey(inst));
    LookUpsAreLocal(log, ConfirmedKey(inst.tradeId));
    var r := First(log, CreatedKey(inst));
    if r.Some? && r.value.terms.FxTerms? {
      var created := r.value;
      assert created.instance == inst;
      ViewOfOne(log, ConfirmedOf(created), id);
      SeamIsLocal(Confirm(log, created), inst.tradeId, Reporting(created.terms.sell, created.terms.buy),
                  created.prov, id);
    }
  }

  lemma ConvertIsLocal(log: seq<Event>, inst: Instance, v: Conversion, id: string)
    ensures View(ConvertStep(log, inst, v), id) ==
            if inst.tradeId == id then ConvertStep(View(log, id), inst, v) else View(log, id)
  {
    LookUpsAreLocal(log, CreatedKey(inst));
    LookUpsAreLocal(log, TerminatedKey(inst));
    var r := First(log, CreatedKey(inst));
    if v.rate > 0.0 && r.Some? && r.value.terms.CashTerms? {
      ViewOfOne(log, ConvertedOf(r.value, v), id);
      ViewOfOne(log + [ConvertedOf(r.value, v)], Terminated(v.asOf, r.value.prov, inst), id);
    }
  }

  /** A command reads and writes the events of its own trade only. */
  lemma StepIsLocal(log: seq<Event>, c: Command, id: string)
    ensures View(Step(log, c), id) ==
            if TradeOfCommand(c) == id then Step(View(log, id), c) else View(log, id)
  {
    match c
    case Book(trade, t) => BookIsLocal(log, trade, t, id);
    case Settle(inst, d) => SettleIsLocal(log, inst, d, id);
    case Convert(inst, v) => ConvertIsLocal(log, inst, v, id);
  }

  // ---------------------------------------------------------------- one command on one trace

  /** Appending to a log in which the key does not occur. */
  lemma FirstOfOne(log: seq<Event>, e: Event, key: Key)
    ensures First(log + [e], key) ==
            if First(log, key).Some? then First(log, key) else if Matches(e, key) then Some(e) else None
  {
    FirstOfConcat(log, [e], key);
  }

  lemma OpeningLookUps(id: string, d: Deal, side: Side)
    ensures First(Opening(id, d), CreatedKey(Fx(id))) == Some(CreatedOf(id, d))
    ensures !Has(Opening(id, d), CreatedKey(Cash(id, side)))
    ensures !Has(Opening(id, d), ConfirmedKey(id))
    ensures !Has(Opening(id, d), ExecutedKey(Cash(id, side)))
    ensures !Has(Opening(id, d), TerminatedKey(Fx(id)))
    ensures !Has(Opening(id, d), TerminatedKey(Cash(id, side)))
  {
    var one := ConfirmationSent(d.tradeDate, d.prov, id);
    var two := Affirmed(d.tradeDate, d.prov, id);
    forall key: Key ensures First(Opening(id, d), key) == First([one] + [two] + [CreatedOf(id, d)], key) {
      assert Opening(id, d) == [one] + [two] + [CreatedOf(id, d)];
    }
    forall key: Key
      ensures First([one] + [two] + [CreatedOf(id, d)], key) ==
              if Matches(one, key) then Some(one) else if Matches(two, key) then Some(two)
              else if Matches(CreatedOf(id, d), key) then Some(CreatedOf(id, d)) else None
    {
      FirstOfOne([one] + [two], CreatedOf(id, d), key);
      FirstOfOne([one], two, key);
    }
  }

  lemma ConfirmedLookUps(id: string, d: Deal, side: Side)
    ensures var log := Opening(id, d) + [Confirmation(id, d)];
            && First(log, CreatedKey(Fx(id))) == Some(CreatedOf(id, d))
            && !Has(log, CreatedKey(Cash(id, side)))
            && First(log, ConfirmedKey(id)) == Some(Confirmation(id, d))
            && !Has(log, ExecutedKey(Cash(id, side)))
            && !Has(log, TerminatedKey(Fx(id)))
            && !Has(log, TerminatedKey(Cash(id, side)))
  {
    OpeningLookUps(id, d, side);
    FirstOfOne(Opening(id, d), Confirmation(id, d), CreatedKey(Fx(id)));
    FirstOfOne(Opening(id, d), Confirmation(id, d), CreatedKey(Cash(id, side)));
    FirstOfOne(Opening(id, d), Confirmation(id, d), ConfirmedKey(id));
    FirstOfOne(Opening(id, d), Confirmation(id, d), ExecutedKey(Cash(id, side)));
    FirstOfOne(Opening(id, d), Confirmation(id, d), TerminatedKey(Fx(id)));
    FirstOfOne(Opening(id, d), Confirmation(id, d), TerminatedKey(Cash(id, side)));
  }

  lemma ExecutesOne(log: seq<Event>, leg: CashLeg, c: Event, prov: Provenance)
    requires c.SettlementConfirmed? && !Has(log, ExecutedKey(Cash(c.tradeId, leg.side)))
    ensures ExecuteAll(log, [leg], c, prov) == log + [ExecutedOf(c, leg, prov)]
  {
    assert [leg][1..] == [];
  }

  lemma MaterialisesOne(log: seq<Event>, leg: CashLeg, all: seq<CashLeg>, c: Event, reporting: Currency,
                        prov: Provenance)
    requires c.SettlementConfirmed? && !Has(log, CreatedKey(Cash(c.tradeId, leg.side)))
    requires CostBasis(leg, all, reporting).Some?
    ensures AllCosted([leg], all, reporting)
    ensures MaterialiseAll(log, [leg], all, c, reporting, prov) ==
            log + [HoldingOf(c, leg, CostBasis(leg, all, reporting).value, reporting, prov)]
  {
    assert [leg][1..] == [];
  }

  /** The two-leg loop on a log with neither leg executed. */
  lemma ExecutesBothLegs(log: seq<Event>, id: string, d: Deal)
    requires !Has(log, ExecutedKey(Cash(id, Received))) && !Has(log, ExecutedKey(Cash(id, Paid)))
    ensures ExecuteAll(log, CashLegs(d.sell, d.buy), Confirmation(id, d), d.prov) ==
            log + ExecutedLeg(id, d, Received) + ExecutedLeg(id, d, Paid)
  {
    var c := Confirmation(id, d);
    var received, paid := CashLeg(Received, d.buy), CashLeg(Paid, d.sell);
    FirstOfOne(log, ExecutedOf(c, received, d.prov), ExecutedKey(Cash(id, Paid)));
    var legs := CashLegs(d.sell, d.buy);
    if d.buy.minor != 0 && d.sell.minor != 0 {
      assert legs == [received, paid] && legs[1..] == [paid];
      ExecutesOne(log + [ExecutedOf(c, received, d.prov)], paid, c, d.prov);
    } else if d.buy.minor != 0 {
      assert legs == [received];
      ExecutesOne(log, received, c, d.prov);
    } else if d.sell.minor != 0 {
      assert legs == [paid];
      ExecutesOne(log, paid, c, d.prov);
    }
  }

  lemma CostOfLegs(d: Deal)
    requires Two(d)
    ensures var legs := CashLegs(d.sell, d.buy);
            && AllCosted(legs, legs, Home(d)) == !Stuck(d)
            && (!Stuck(d) && d.buy.minor != 0 ==>
                  CostBasis(CashLeg(Received, d.buy), legs, Home(d)) == Some(HomeAmount(d)))
            && (!Stuck(d) && d.sell.minor != 0 ==>
                  CostBasis(CashLeg(Paid, d.sell), legs, Home(d)) == Some(HomeAmount(d)))
  {
    var received, paid := CashLeg(Received, d.buy), CashLeg(Paid, d.sell);
    var legs := CashLegs(d.sell, d.buy);
    if d.buy.minor != 0 && d.sell.minor != 0 {
      assert legs == [received, paid] && legs[1..] == [paid] && legs[1..][1..] == [];
      assert CounterLeg(received, [paid], Home(d)) ==
             if d.sell.currency == Home(d) then Some(d.sell.minor) else None;
      assert AllCosted([paid], legs, Home(d)) == CostBasis(paid, legs, Home(d)).Some?;
    } else if d.buy.minor != 0 {
      assert legs == [received] && legs[1..] == [];
      assert CounterLeg(received, legs, Home(d)) == CounterLeg(received, [], Home(d)) == None;
    } else if d.sell.minor != 0 {
      assert legs == [paid] && legs[1..] == [];
      assert CounterLeg(paid, legs, Home(d)) == CounterLeg(paid, [], Home(d)) == None;
    }
  }

  lemma MaterialisesBothLegs(log: seq<Event>, id: string, d: Deal)
    requires Two(d) && !Stuck(d)
    requires !Has(log, CreatedKey(Cash(id, Received))) && !Has(log, CreatedKey(Cash(id, Paid)))
    ensures var legs := CashLegs(d.sell, d.buy);
            && AllCosted(legs, legs, Home(d))
            && MaterialiseAll(log, legs, legs, Confirmation(id, d), Home(d), d.prov) ==
               log + HoldingLeg(id, d, Received) + HoldingLeg(id, d, Paid)
  {
    CostOfLegs(d);
    var c := Confirmation(id, d);
    var received, paid := CashLeg(Received, d.buy), CashLeg(Paid, d.sell);
    FirstOfOne(log, HoldingOf(c, received, HomeAmount(d), Home(d), d.prov), CreatedKey(Cash(id, Paid)));
    var legs := CashLegs(d.sell, d.buy);
    if d.buy.minor != 0 && d.sell.minor != 0 {
      assert legs == [received, paid] && legs[1..] == [paid];
      MaterialisesOne(log + [HoldingOf(c, received, HomeAmount(d), Home(d), d.prov)], paid, legs, c, Home(d), d.prov);
    } else if d.buy.minor != 0 {
      assert legs == [received];
      MaterialisesOne(log, received, legs, c, Home(d), d.prov);
    } else if d.sell.minor != 0 {
      assert legs == [paid];
      MaterialisesOne(log, paid, legs, c, Home(d), d.prov);
    }
  }

  /** None of the leg events answers a look-up for another kind of event. */
  lemma LegsAnswerNothingElse(log: seq<Event>, id: string, d: Deal, key: Key)
    requires key.CreatedKey? || key.TerminatedKey? || key.ConfirmedKey?
    ensures First(log + ExecutedLeg(id, d, Received) + ExecutedLeg(id, d, Paid), key) == First(log, key)
    ensures key.TerminatedKey? || key.ConfirmedKey? || key.instance.Fx? ==>
              First(log + HoldingLeg(id, d, Received) + HoldingLeg(id, d, Paid), key) == First(log, key)
  {
    FirstOfConcat(log, ExecutedLeg(id, d, Received), key);
    FirstOfConcat(log + ExecutedLeg(id, d, Received), ExecutedLeg(id, d, Paid), key);
    FirstOfConcat(log, HoldingLeg(id, d, Received), key);
    FirstOfConcat(log + HoldingLeg(id, d, Received), HoldingLeg(id, d, Paid), key);
  }

  lemma SettlementInOrder(log: seq<Event>, id: string, d: Deal)
    ensures log + Settlement(id, d) ==
            log + ExecutedLeg(id, d, Received) + ExecutedLeg(id, d, Paid) +
            HoldingLeg(id, d, Received) + HoldingLeg(id, d, Paid) + [Closing(id, d)]
  {}

  /** The seam on a confirmed trade. */
  lemma SeamOnConfirmed(id: string, d: Deal)
    requires Two(d)
    ensures var log := Opening(id, d) + [Confirmation(id, d)];
            && SettleLeg(log, id, Home(d), d.prov) == (if Stuck(d) then log else log + Settlement(id, d))
            && SeamSettles(log, id, Home(d)) == !Stuck(d)
  {
    var log := Opening(id, d) + [Confirmation(id, d)];
    ConfirmedLookUps(id, d, Received);
    ConfirmedLookUps(id, d, Paid);
    CostOfLegs(d);
    if !Stuck(d) {
      var executed := log + ExecutedLeg(id, d, Received) + ExecutedLeg(id, d, Paid);
      ExecutesBothLegs(log, id, d);
      LegsAnswerNothingElse(log, id, d, CreatedKey(Cash(id, Received)));
      LegsAnswerNothingElse(log, id, d, CreatedKey(Cash(id, Paid)));
      LegsAnswerNothingElse(log, id, d, CreatedKey(Fx(id)));
      LegsAnswerNothingElse(log, id, d, TerminatedKey(Fx(id)));
      MaterialisesBothLegs(executed, id, d);
      LegsAnswerNothingElse(executed, id, d, CreatedKey(Fx(id)));
      LegsAnswerNothingElse(executed, id, d, TerminatedKey(Fx(id)));
      SettlementInOrder(log, id, d);
    }
  }

  lemma BookOnAbsent(id: string, t: Ticket)
    requires Acceptable(t)
    ensures BookStep([], id, t) == Opening(id, DealOf(t))
    ensures Two(DealOf(t))
  {
    var d := DealOf(t);
    var one := ConfirmationSent(d.tradeDate, d.prov, id);
    var two := Affirmed(d.tradeDate, d.prov, id);
    assert [] + [one] == [one];
    FirstOfOne([one], two, AffirmedKey(id));
    FirstOfOne([one], two, CreatedKey(Fx(id)));
    assert [one] + [two] + [CreatedOf(id, d)] == Opening(id, d);
  }

  lemma SettleOnOpened(id: string, d: Deal, side: Side, date: int)
    requires Two(d)
    ensures SettleStep(Opening(id, d), Fx(id), date) ==
            Trace(id, if date < d.settlementDate then Booked(d) else if Stuck(d) then Unsettled(d) else Settled(d))
    ensures SettleStep(Opening(id, d), Cash(id, side), date) == Opening(id, d)
    ensures Settles(Opening(id, d), Fx(id), date) <==> d.settlementDate <= date && !Stuck(d)
  {
    OpeningLookUps(id, d, side);
    SeamOnConfirmed(id, d);
  }

  lemma SettleOnUnsettled(id: string, d: Deal, side: Side, date: int)
    requires Two(d) && Stuck(d)
    ensures var log := Opening(id, d) + [Confirmation(id, d)];
            && SettleStep(log, Fx(id), date) == log
            && SettleStep(log, Cash(id, side), date) == log
            && !Settles(log, Fx(id), date)
  {
    ConfirmedLookUps(id, d, side);
    SeamOnConfirmed(id, d);
  }

  /** The look-ups on a settled trade. */
  lemma SettledLookUps(id: string, d: Deal, side: Side)
    requires Two(d)
    ensures var log := Opening(id, d) + [Confirmation(id, d)] + Settlement(id, d);
            && First(log, CreatedKey(Fx(id))) == Some(CreatedOf(id, d))
            && Has(log, TerminatedKey(Fx(id)))
            && !Has(log, TerminatedKey(Cash(id, side)))
            && First(log, CreatedKey(Cash(id, side))) ==
               if HoldingLeg(id, d, side) == [] then None else Some(HoldingLeg(id, d, side)[0])
  {
    var log := Opening(id, d) + [Confirmation(id, d)];
    var executed := log + ExecutedLeg(id, d, Received) + ExecutedLeg(id, d, Paid);
    var held := executed + HoldingLeg(id, d, Received) + HoldingLeg(id, d, Paid);
    SettlementInOrder(log, id, d);
    ConfirmedLookUps(id, d, side);
    var keys := [CreatedKey(Fx(id)), TerminatedKey(Fx(id)), TerminatedKey(Cash(id, side))];
    forall i | 0 <= i < 3 ensures First(held, keys[i]) == First(log, keys[i]) {
      LegsAnswerNothingElse(log, id, d, keys[i]);
      LegsAnswerNothingElse(executed, id, d, keys[i]);
    }
    assert keys[0] == CreatedKey(Fx(id)) && keys[1] == TerminatedKey(Fx(id)) &&
           keys[2] == TerminatedKey(Cash(id, side));
    FirstOfOne(held, Closing(id, d), CreatedKey(Fx(id)));
    FirstOfOne(held, Closing(id, d), TerminatedKey(Fx(id)));
    FirstOfOne(held, Closing(id, d), TerminatedKey(Cash(id, side)));
    FirstOfOne(held, Closing(id, d), CreatedKey(Cash(id, side)));
    LegsAnswerNothingElse(log, id, d, CreatedKey(Cash(id, side)));
    FirstOfConcat(executed, HoldingLeg(id, d, Received), CreatedKey(Cash(id, side)));
    FirstOfConcat(executed + HoldingLeg(id, d, Received), HoldingLeg(id, d, Paid), CreatedKey(Cash(id, side)));
  }

  lemma HomeFacts(d: Deal)
    requires Two(d)
    ensures ForeignAmount(d).currency != Home(d)
    ensures ForeignSide(d).Received? ==> d.sell.currency == Home(d)
    ensures ForeignSide(d).Paid? ==> d.buy.currency == Home(d)
  {}

  /** An instance of the trade is the trade itself or one of its two holdings. */
  function SideOf(inst: Instance): Side {
    if inst.Cash? then inst.side else Paid
  }

  lemma ConvertOnSettled(id: string, d: Deal, side: Side, v: Conversion)
    requires Two(d) && !Stuck(d)
    ensures var c := Convert(Cash(id, side), v);
            && Proper(Next(Settled(d), c))
            && Step(Trace(id, Settled(d)), c) == Trace(id, Next(Settled(d), c))
  {
    HomeFacts(d);
    SettledLookUps(id, d, side);
    var log := Trace(id, Settled(d));
    if v.rate > 0.0 && side == ForeignSide(d) && ForeignAmount(d).minor != 0 {
      assert HoldingLeg(id, d, side) == [Holding(id, d)];
      assert log + [ConvertedOf(Holding(id, d), v)] + [Terminated(v.asOf, d.prov, Cash(id, side))] ==
             log + Realisation(id, d, v);
    }
  }

  lemma OnSettled(id: string, d: Deal, c: Command)
    requires Two(d) && !Stuck(d) && TradeOfCommand(c) == id && !c.Book?
    ensures Proper(Next(Settled(d), c))
    ensures Step(Trace(id, Settled(d)), c) == Trace(id, Next(Settled(d), c))
  {
    if c.Convert? && c.instance.Cash? {
      ConvertOnSettled(id, d, c.instance.side, c.conversion);
      assert c == Convert(Cash(id, c.instance.side), c.conversion);
    } else {
      SettledLookUps(id, d, SideOf(c.instance));
      assert c.instance == Fx(id) || c.instance == Cash(id, SideOf(c.instance));
    }
  }

  lemma RealisedLookUps(id: string, d: Deal, v: Conversion, side: Side)
    requires Proper(Realised(d, v))
    ensures var log := Trace(id, Realised(d, v));
            && First(log, CreatedKey(Fx(id))) == Some(CreatedOf(id, d))
            && Has(log, TerminatedKey(Fx(id)))
            && Has(log, TerminatedKey(Cash(id, ForeignSide(d))))
            && First(log, CreatedKey(Cash(id, side))) ==
               if HoldingLeg(id, d, side) == [] then None else Some(HoldingLeg(id, d, side)[0])
  {
    var log := Trace(id, Settled(d));
    SettledLookUps(id, d, side);
    SettledLookUps(id, d, ForeignSide(d));
    var end := Realisation(id, d, v);
    FirstOfConcat(log, end, CreatedKey(Fx(id)));
    FirstOfConcat(log, end, TerminatedKey(Fx(id)));
    FirstOfConcat(log, end, CreatedKey(Cash(id, side)));
    FirstOfConcat(log, end, TerminatedKey(Cash(id, ForeignSide(d))));
    assert end[1..] == [end[1]] && Matches(end[1], TerminatedKey(Cash(id, ForeignSide(d))));
  }

  lemma OnRealised(id: string, d: Deal, v: Conversion, c: Command)
    requires Proper(Realised(d, v)) && TradeOfCommand(c) == id && !c.Book?
    ensures Step(Trace(id, Realised(d, v)), c) == Trace(id, Realised(d, v))
  {
    HomeFacts(d);
    RealisedLookUps(id, d, v, SideOf(c.instance));
    assert c.instance == Fx(id) || c.instance == Cash(id, SideOf(c.instance));
  }

  lemma OnOpened(id: string, d: Deal, c: Command)
    requires Two(d) && TradeOfCommand(c) == id && !c.Book?
    ensures Proper(Next(Booked(d), c))
    ensures Step(Trace(id, Booked(d)), c) == Trace(id, Next(Booked(d), c))
  {
    OpeningLookUps(id, d, SideOf(c.instance));
    assert c.instance == Fx(id) || c.instance == Cash(id, SideOf(c.instance));
    if c.Settle? {
      SettleOnOpened(id, d, SideOf(c.instance), c.runDate);
    }
  }

  lemma OnUnsettled(id: string, d: Deal, c: Command)
    requires Two(d) && Stuck(d) && TradeOfCommand(c) == id && !c.Book?
    ensures Step(Trace(id, Unsettled(d)), c) == Trace(id, Unsettled(d))
  {
    ConfirmedLookUps(id, d, SideOf(c.instance));
    assert c.instance == Fx(id) || c.instance == Cash(id, SideOf(c.instance));
    if c.Settle? {
      SettleOnUnsettled(id, d, SideOf(c.instance), c.runDate);
    }
  }

  /** The desk on a trade's own events follows the machine. */
  lemma StepFollowsMachine(id: string, life: Life, c: Command)
    requires Proper(life) && TradeOfCommand(c) == id
    requires c.Book? ==> life.Absent?
    ensures Proper(Next(life, c))
    ensures Step(Trace(id, life), c) == Trace(id, Next(life, c))
  {
    match life
    case Absent => if c.Book? && Acceptable(c.ticket) { BookOnAbsent(id, c.ticket); }
    case Booked(d) => OnOpened(id, d, c);
    case Unsettled(d) => OnUnsettled(id, d, c);
    case Settled(d) => OnSettled(id, d, c);
    case Realised(d, v) => OnRealised(id, d, v, c);
  }

  // ---------------------------------------------------------------- the refinement

  lemma {:induction false} UnbookedIsAbsent(commands: seq<Command>, id: string)
    requires forall c <- commands :: c.Book? ==> c.id != id
    ensures LifeAfter(commands, id) == Absent
  {
    if commands != [] {
      UnbookedIsAbsent(commands[..|commands| - 1], id);
      assert commands[|commands| - 1] in commands;
    }
  }

  /** After any run, the events of each trade are the trace of that trade's own machine. */
  lemma {:induction false} DeskRefinesLifecycle(commands: seq<Command>, id: string)
    requires Minted(commands)
    ensures Proper(LifeAfter(commands, id))
    ensures View(Run(commands), id) == Trace(id, LifeAfter(commands, id))
  {
    if commands != [] {
      var n := |commands| - 1;
      var last := commands[n];
      DeskRefinesLifecycle(commands[..n], id);
      StepIsLocal(Run(commands[..n]), last, id);
      if TradeOfCommand(last) == id {
        if last.Book? {
          UnbookedIsAbsent(commands[..n], id);
        }
        StepFollowsMachine(id, LifeAfter(commands[..n], id), last);
      }
    }
  }
}
