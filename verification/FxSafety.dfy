/**
 What the desk guarantees over every run of book, settle and convert commands.
 Each result is read off the per-trade machine of FxLifecycle through `DeskRefinesLifecycle`.
 */
module FxSafety {
  import opened Wrappers
  import opened FxTradeBook
  import opened FxLifecycle
  import FxTickets

  // ---------------------------------------------------------------- every fact is recorded once

  function Count(log: seq<Event>, key: Key): nat {
    if log == [] then 0 else (if Matches(log[0], key) then 1 else 0) + Count(log[1..], key)
  }

  lemma {:induction false} CountOfConcat(a: seq<Event>, b: seq<Event>, key: Key)
    ensures Count(a + b, key) == Count(a, key) + Count(b, key)
  {
    if a == [] {
      assert a + b == b;
    } else {
      assert (a + b)[1..] == a[1..] + b;
      CountOfConcat(a[1..], b, key);
    }
  }

  lemma {:induction false} CountIsLocal(log: seq<Event>, key: Key)
    ensures Count(log, key) == Count(View(log, TradeOfKey(key)), key)
  {
    if log != [] {
      CountIsLocal(log[1..], key);
      if TradeOf(log[0]) == TradeOfKey(key) {
        CountOfConcat([log[0]], View(log[1..], TradeOfKey(key)), key);
      } else {
        assert !Matches(log[0], key);
      }
    }
  }

  lemma CountOfOne(log: seq<Event>, e: Event, key: Key)
    ensures Count(log + [e], key) == Count(log, key) + if Matches(e, key) then 1 else 0
  {
    CountOfConcat(log, [e], key);
  }

  lemma CountInOpening(id: string, d: Deal, key: Key)
    ensures Count(Opening(id, d) + [Confirmation(id, d)], key) ==
            Count(Opening(id, d), key) + (if key == ConfirmedKey(id) then 1 else 0)
    ensures Count(Opening(id, d), key) == if key == AffirmedKey(id) || key == CreatedKey(Fx(id)) then 1 else 0
  {
    var one := ConfirmationSent(d.tradeDate, d.prov, id);
    var two := Affirmed(d.tradeDate, d.prov, id);
    assert Opening(id, d) == [one] + [two] + [CreatedOf(id, d)];
    CountOfOne([one], two, key);
    CountOfOne([one] + [two], CreatedOf(id, d), key);
    CountOfOne(Opening(id, d), Confirmation(id, d), key);
  }

  lemma CountInSettlement(id: string, d: Deal, key: Key)
    ensures Count(Settlement(id, d), key) <=
            if key == TerminatedKey(Fx(id)) || key == ExecutedKey(Cash(id, Received)) ||
               key == ExecutedKey(Cash(id, Paid)) || key == CreatedKey(Cash(id, Received)) ||
               key == CreatedKey(Cash(id, Paid)) then 1 else 0
  {
    var er, ep := ExecutedLeg(id, d, Received), ExecutedLeg(id, d, Paid);
    var hr, hp := HoldingLeg(id, d, Received), HoldingLeg(id, d, Paid);
    CountOfConcat(er, ep, key);
    CountOfConcat(er + ep, hr, key);
    CountOfConcat(er + ep + hr, hp, key);
    CountOfOne(er + ep + hr + hp, Closing(id, d), key);
  }

  lemma CountInRealisation(id: string, d: Deal, v: Conversion, key: Key)
    requires v.rate > 0.0
    ensures Count(Realisation(id, d, v), key) == if key == TerminatedKey(Cash(id, ForeignSide(d))) then 1 else 0
  {
    var converted := ConvertedOf(Holding(id, d), v);
    var closed := Terminated(v.asOf, d.prov, Cash(id, ForeignSide(d)));
    assert Realisation(id, d, v) == [converted] + [closed];
    CountOfOne([converted], closed, key);
  }

  lemma OnceInTrace(id: string, life: Life, key: Key)
    requires Proper(life)
    ensures Count(Trace(id, life), key) <= 1
  {
    if !life.Absent? {
      var d := life.deal;
      CountInOpening(id, d, key);
      CountInSettlement(id, d, key);
      CountOfConcat(Opening(id, d) + [Confirmation(id, d)], Settlement(id, d), key);
      if life.Realised? {
        CountInRealisation(id, d, life.conversion, key);
        CountOfConcat(Opening(id, d) + [Confirmation(id, d)] + Settlement(id, d),
                      Realisation(id, d, life.conversion), key);
      }
    }
  }

  /** In every run each instrument is created at most once and terminated at most once, each trade is
      affirmed and confirmed at most once, and each leg is executed at most once. */
  lemma EachFactOnce(commands: seq<Command>, key: Key)
    requires Minted(commands)
    ensures Count(Run(commands), key) <= 1
  {
    DeskRefinesLifecycle(commands, TradeOfKey(key));
    CountIsLocal(Run(commands), key);
    OnceInTrace(TradeOfKey(key), LifeAfter(commands, TradeOfKey(key)), key);
  }

  // ---------------------------------------------------------------- nothing settles early

  lemma {:induction false} ViewKeeps(log: seq<Event>, e: Event)
    requires e in log
    ensures e in View(log, TradeOf(e))
  {
    if e != log[0] {
      ViewKeeps(log[1..], e);
    }
  }

  predicate IsSettlementFact(e: Event) {
    e.SettlementConfirmed? || e.SettlementExecuted? || (e.Created? && e.instance.Cash?) ||
    (e.Terminated? && e.instance.Fx?)
  }

  lemma SettlementFactsOfTrace(id: string, life: Life, e: Event)
    requires Proper(life) && e in Trace(id, life)
    requires IsSettlementFact(e)
    ensures life.Unsettled? || life.Settled? || life.Realised?
    ensures e.asOf == life.deal.settlementDate
  {
    var d := life.deal;
    assert e !in Opening(id, d);
    if life.Realised? {
      assert e !in Realisation(id, d, life.conversion);
    }
    assert e == Confirmation(id, d) || e in Settlement(id, d);
    if e in Settlement(id, d) {
      SettlementStamps(id, d, e);
    }
  }

  lemma SettlementStamps(id: string, d: Deal, e: Event)
    requires e in Settlement(id, d)
    ensures e.asOf == d.settlementDate && e.prov == d.prov
  {
    assert e in ExecutedLeg(id, d, Received) || e in ExecutedLeg(id, d, Paid) ||
           e in HoldingLeg(id, d, Received) || e in HoldingLeg(id, d, Paid) || e == Closing(id, d);
  }

  ghost predicate Due(commands: seq<Command>, id: string, date: int) {
    exists k :: 0 <= k < |commands| && commands[k].Settle? && commands[k].instance == Fx(id) &&
                commands[k].runDate >= date
  }

  lemma {:induction false} ConfirmedOnlyWhenDue(commands: seq<Command>, id: string)
    requires Minted(commands)
    requires var life := LifeAfter(commands, id); life.Unsettled? || life.Settled? || life.Realised?
    ensures Due(commands, id, LifeAfter(commands, id).deal.settlementDate)
  {
    var n := |commands| - 1;
    var before := LifeAfter(commands[..n], id);
    var last := commands[n];
    if TradeOfCommand(last) == id && before.Booked? {
      assert last.Settle? && last.instance == Fx(id);
    } else {
      if last.Book? && last.id == id {
        UnbookedIsAbsent(commands[..n], id);
      }
      ConfirmedOnlyWhenDue(commands[..n], id);
      var date := before.deal.settlementDate;
      var k :| 0 <= k < n && commands[..n][k].Settle? && commands[..n][k].instance == Fx(id) &&
               commands[..n][k].runDate >= date;
      assert commands[k] == commands[..n][k];
    }
  }

  /** Every confirmation, settlement, cash holding and closing in the log is stamped with the value
      date, and someone asked for that trade to be settled on or after that date. */
  lemma NothingSettlesEarly(commands: seq<Command>, e: Event)
    requires Minted(commands) && e in Run(commands) && IsSettlementFact(e)
    ensures Due(commands, TradeOf(e), e.asOf)
  {
    var id := TradeOf(e);
    ViewKeeps(Run(commands), e);
    DeskRefinesLifecycle(commands, id);
    SettlementFactsOfTrace(id, LifeAfter(commands, id), e);
    ConfirmedOnlyWhenDue(commands, id);
  }

  // ---------------------------------------------------------------- commands only append, to their own trade

  predicate AllOf(events: seq<Event>, id: string) {
    forall e <- events :: TradeOf(e) == id
  }

  /** `after` is `before` with events of one trade added at the end. */
  predicate Extends(before: seq<Event>, after: seq<Event>, id: string) {
    before <= after && AllOf(after[|before|..], id)
  }

  lemma ExtendsOne(log: seq<Event>, e: Event)
    ensures Extends(log, log + [e], TradeOf(e))
  {
    assert (log + [e])[|log|..] == [e];
  }

  lemma ExtendsNone(log: seq<Event>, id: string)
    ensures Extends(log, log, id)
  {}

  lemma ExtendsThen(a: seq<Event>, b: seq<Event>, c: seq<Event>, id: string)
    requires Extends(a, b, id) && Extends(b, c, id)
    ensures Extends(a, c, id)
  {
    assert c[|a|..] == b[|a|..] + c[|b|..];
  }

  lemma {:induction false} ExecuteExtends(log: seq<Event>, legs: seq<CashLeg>, c: Event, prov: Provenance)
    requires c.SettlementConfirmed?
    ensures Extends(log, ExecuteAll(log, legs, c, prov), c.tradeId)
    decreases |legs|
  {
    if legs == [] {
      ExtendsNone(log, c.tradeId);
    } else {
      var e := ExecutedOf(c, legs[0], prov);
      ExtendsOne(log, e);
      ExecuteExtends(log, legs[1..], c, prov);
      ExecuteExtends(log + [e], legs[1..], c, prov);
      ExtendsThen(log, log + [e], ExecuteAll(log + [e], legs[1..], c, prov), c.tradeId);
    }
  }

  lemma {:induction false} MaterialiseExtends(log: seq<Event>, legs: seq<CashLeg>, all: seq<CashLeg>, c: Event,
                                              reporting: Currency, prov: Provenance)
    requires c.SettlementConfirmed? && AllCosted(legs, all, reporting)
    ensures Extends(log, MaterialiseAll(log, legs, all, c, reporting, prov), c.tradeId)
    decreases |legs|
  {
    if legs == [] {
      ExtendsNone(log, c.tradeId);
    } else {
      var e := HoldingOf(c, legs[0], CostBasis(legs[0], all, reporting).value, reporting, prov);
      ExtendsOne(log, e);
      MaterialiseExtends(log, legs[1..], all, c, reporting, prov);
      MaterialiseExtends(log + [e], legs[1..], all, c, reporting, prov);
      ExtendsThen(log, log + [e], MaterialiseAll(log + [e], legs[1..], all, c, reporting, prov), c.tradeId);
    }
  }

  lemma SeamExtends(log: seq<Event>, id: string, reporting: Currency, prov: Provenance)
    ensures Extends(log, SettleLeg(log, id, reporting, prov), id)
  {
    ExtendsNone(log, id);
    if SeamSettles(log, id, reporting) {
      var c := First(log, ConfirmedKey(id)).value;
      var legs := CashLegs(c.pay, c.receive);
      var executed := ExecuteAll(log, legs, c, prov);
      var held := MaterialiseAll(executed, legs, legs, c, reporting, prov);
      ExecuteExtends(log, legs, c, prov);
      MaterialiseExtends(executed, legs, legs, c, reporting, prov);
      ExtendsThen(log, executed, held, id);
      ExtendsOne(held, Terminated(c.asOf, prov, Fx(id)));
      ExtendsNone(held, id);
      ExtendsThen(log, held, CloseFx(held, c, prov), id);
    }
  }

  lemma BookExtends(log: seq<Event>, id: string, t: Ticket)
    ensures Extends(log, BookStep(log, id, t), id)
  {
    ExtendsNone(log, id);
    if Acceptable(t) {
      var d := DealOf(t);
      var one := log + [ConfirmationSent(d.tradeDate, d.prov, id)];
      var two := one + [Affirmed(d.tradeDate, d.prov, id)];
      ExtendsOne(log, ConfirmationSent(d.tradeDate, d.prov, id));
      ExtendsOne(one, Affirmed(d.tradeDate, d.prov, id));
      ExtendsOne(two, CreatedOf(id, d));
      ExtendsThen(log, one, two, id);
      ExtendsThen(log, two, two + [CreatedOf(id, d)], id);
    }
  }

  lemma SettleExtends(log: seq<Event>, inst: Instance, date: int)
    ensures Extends(log, SettleStep(log, inst, date), inst.tradeId)
  {
    ExtendsNone(log, inst.tradeId);
    var r := First(log, CreatedKey(inst));
    if r.Some? && r.value.terms.FxTerms? {
      var confirmed := Confirm(log, r.value);
      var home := Reporting(r.value.terms.sell, r.value.terms.buy);
      ExtendsOne(log, ConfirmedOf(r.value));
      SeamExtends(confirmed, inst.tradeId, home, r.value.prov);
      ExtendsThen(log, confirmed, SettleLeg(confirmed, inst.tradeId, home, r.value.prov), inst.tradeId);
    }
  }

  lemma ConvertExtends(log: seq<Event>, inst: Instance, v: Conversion)
    ensures Extends(log, ConvertStep(log, inst, v), inst.tradeId)
  {
    ExtendsNone(log, inst.tradeId);
    var r := First(log, CreatedKey(inst));
    if v.rate > 0.0 && r.Some? && r.value.terms.CashTerms? {
      var e := ConvertedOf(r.value, v);
      ExtendsOne(log, e);
      ExtendsOne(log + [e], Terminated(v.asOf, r.value.prov, inst));
      ExtendsThen(log, log + [e], log + [e] + [Terminated(v.asOf, r.value.prov, inst)], inst.tradeId);
    }
  }

  /** A command appends, and only events of its own trade. */
  lemma StepExtends(log: seq<Event>, c: Command)
    ensures Extends(log, Step(log, c), TradeOfCommand(c))
  {
    match c
    case Book(id, t) => BookExtends(log, id, t);
    case Settle(inst, d) => SettleExtends(log, inst, d);
    case Convert(inst, v) => ConvertExtends(log, inst, v);
  }

  lemma {:induction false} ViewOfAllOf(events: seq<Event>, id: string)
    requires AllOf(events, id)
    ensures View(events, id) == events
  {
    if events != [] {
      ViewOfAllOf(events[1..], id);
    }
  }

  lemma SameViewSameLog(before: seq<Event>, after: seq<Event>, id: string)
    requires Extends(before, after, id) && View(after, id) == View(before, id)
    ensures after == before
  {
    var added := after[|before|..];
    assert after == before + added;
    ViewOfConcat(before, added, id);
    ViewOfAllOf(added, id);
  }

  // ---------------------------------------------------------------- retries are silent

  /** A command the machine ignores leaves the whole log as it is. */
  lemma IgnoredIsSilent(commands: seq<Command>, c: Command)
    requires Minted(commands) && !c.Book?
    requires Next(LifeAfter(commands, TradeOfCommand(c)), c) == LifeAfter(commands, TradeOfCommand(c))
    ensures Step(Run(commands), c) == Run(commands)
  {
    var id := TradeOfCommand(c);
    DeskRefinesLifecycle(commands, id);
    StepIsLocal(Run(commands), c, id);
    StepFollowsMachine(id, LifeAfter(commands, id), c);
    StepExtends(Run(commands), c);
    SameViewSameLog(Run(commands), Step(Run(commands), c), id);
  }

  lemma RunThen(commands: seq<Command>, c: Command)
    ensures Run(commands + [c]) == Step(Run(commands), c)
    ensures forall id :: LifeAfter(commands + [c], id) ==
              (if TradeOfCommand(c) == id then Next(LifeAfter(commands, id), c) else LifeAfter(commands, id))
    ensures Minted(commands) && !c.Book? ==> Minted(commands + [c])
  {
    assert (commands + [c])[..|commands|] == commands;
  }

  /** Settling or converting again, exactly as before, appends nothing, whatever the first attempt did. */
  lemma RepeatIsSilent(commands: seq<Command>, c: Command)
    requires Minted(commands) && !c.Book?
    ensures Step(Step(Run(commands), c), c) == Step(Run(commands), c)
  {
    RunThen(commands, c);
    var life := LifeAfter(commands, TradeOfCommand(c));
    assert Next(Next(life, c), c) == Next(life, c);
    IgnoredIsSilent(commands + [c], c);
  }

  /** Once an instrument is closed, no later settle or convert of it, at any date or rate, changes the log. */
  lemma ClosedIsClosed(commands: seq<Command>, c: Command)
    requires Minted(commands) && !c.Book?
    requires Has(Run(commands), TerminatedKey(c.instance))
    ensures Step(Run(commands), c) == Run(commands)
  {
    var id := TradeOfCommand(c);
    var life := LifeAfter(commands, id);
    DeskRefinesLifecycle(commands, id);
    LookUpsAreLocal(Run(commands), TerminatedKey(c.instance));
    if life.Settled? || life.Booked? {
      assert c.instance == Fx(id) || c.instance == Cash(id, SideOf(c.instance));
      OpeningLookUps(id, life.deal, SideOf(c.instance));
      SettledLookUps(id, life.deal, SideOf(c.instance));
    }
    IgnoredIsSilent(commands, c);
  }

  // ---------------------------------------------------------------- when settlement completes

  /** The route answers yes exactly when the trade is closed afterwards; for a booked trade that is
      from its value date on, unless the reporting-currency amount rounded to nothing while the other
      one did not. */
  lemma SettlesExactlyWhen(commands: seq<Command>, id: string, date: int)
    requires Minted(commands)
    ensures var life := LifeAfter(commands, id);
            Settles(Run(commands), Fx(id), date) <==>
            life.Settled? || life.Realised? ||
            (life.Booked? && life.deal.settlementDate <= date && !Stuck(life.deal))
    ensures Settles(Run(commands), Fx(id), date) <==>
            Has(Step(Run(commands), Settle(Fx(id), date)), TerminatedKey(Fx(id)))
  {
    var c := Settle(Fx(id), date);
    var log := Run(commands);
    var life := LifeAfter(commands, id);
    DeskRefinesLifecycle(commands, id);
    SettlesIsLocal(log, id, date);
    StepIsLocal(log, c, id);
    StepFollowsMachine(id, life, c);
    LookUpsAreLocal(Step(log, c), TerminatedKey(Fx(id)));
    SettlesOnTrace(id, life, date);
    TerminatedInTrace(id, Next(life, c));
  }

  lemma SettlesIsLocal(log: seq<Event>, id: string, date: int)
    ensures Settles(log, Fx(id), date) == Settles(View(log, id), Fx(id), date)
  {
    LookUpsAreLocal(log, CreatedKey(Fx(id)));
    LookUpsAreLocal(log, TerminatedKey(Fx(id)));
    LookUpsAreLocal(log, ConfirmedKey(id));
    var r := First(log, CreatedKey(Fx(id)));
    if r.Some? && r.value.terms.FxTerms? {
      FirstOfOne(log, ConfirmedOf(r.value), ConfirmedKey(id));
      FirstOfOne(View(log, id), ConfirmedOf(r.value), ConfirmedKey(id));
    }
  }

  lemma SettlesOnTrace(id: string, life: Life, date: int)
    requires Proper(life)
    ensures Settles(Trace(id, life), Fx(id), date) <==>
            life.Settled? || life.Realised? ||
            (life.Booked? && life.deal.settlementDate <= date && !Stuck(life.deal))
  {
    match life
    case Absent =>
    case Booked(d) => SettleOnOpened(id, d, Paid, date);
    case Unsettled(d) => SettleOnUnsettled(id, d, Paid, date);
    case Settled(d) => SettledLookUps(id, d, Paid);
    case Realised(d, v) => RealisedLookUps(id, d, v, Paid);
  }

  lemma TerminatedInTrace(id: string, life: Life)
    requires Proper(life)
    ensures Has(Trace(id, life), TerminatedKey(Fx(id))) <==> life.Settled? || life.Realised?
  {
    match life
    case Absent =>
    case Booked(d) => OpeningLookUps(id, d, Paid);
    case Unsettled(d) => ConfirmedLookUps(id, d, Paid);
    case Settled(d) => SettledLookUps(id, d, Paid);
    case Realised(d, v) => RealisedLookUps(id, d, v, Paid);
  }

  /** The convert route answers yes exactly when the rate is positive and the holding is closed afterwards:
      the foreign holding of a settled trade, converted now or earlier. */
  lemma ConvertsExactlyWhen(commands: seq<Command>, id: string, side: Side, v: Conversion)
    requires Minted(commands)
    ensures var life := LifeAfter(commands, id);
            Converts(Run(commands), Cash(id, side), v) <==>
            (life.Settled? || life.Realised?) && v.rate > 0.0 && side == ForeignSide(life.deal) &&
            ForeignAmount(life.deal).minor != 0
    ensures Converts(Run(commands), Cash(id, side), v) <==>
            v.rate > 0.0 && Has(Step(Run(commands), Convert(Cash(id, side), v)), TerminatedKey(Cash(id, side)))
    ensures !Converts(Run(commands), Fx(id), v)
  {
    var c := Convert(Cash(id, side), v);
    var log := Run(commands);
    var life := LifeAfter(commands, id);
    DeskRefinesLifecycle(commands, id);
    LookUpsAreLocal(log, CreatedKey(Cash(id, side)));
    LookUpsAreLocal(log, CreatedKey(Fx(id)));
    StepIsLocal(log, c, id);
    StepFollowsMachine(id, life, c);
    LookUpsAreLocal(Step(log, c), TerminatedKey(Cash(id, side)));
    ConvertsOnTrace(id, life, side, v);
    HoldingTerminatedInTrace(id, Next(life, c), side);
  }

  lemma ConvertsOnTrace(id: string, life: Life, side: Side, v: Conversion)
    requires Proper(life)
    ensures Converts(Trace(id, life), Cash(id, side), v) <==>
            (life.Settled? || life.Realised?) && v.rate > 0.0 && side == ForeignSide(life.deal) &&
            ForeignAmount(life.deal).minor != 0
    ensures !Converts(Trace(id, life), Fx(id), v)
  {
    match life
    case Absent =>
    case Booked(d) => OpeningLookUps(id, d, side);
    case Unsettled(d) => ConfirmedLookUps(id, d, side);
    case Settled(d) => SettledLookUps(id, d, side); HomeFacts(d);
    case Realised(d, w) => RealisedLookUps(id, d, w, side); HomeFacts(d);
  }

  lemma HoldingTerminatedInTrace(id: string, life: Life, side: Side)
    requires Proper(life)
    ensures Has(Trace(id, life), TerminatedKey(Cash(id, side))) <==> life.Realised? && side == ForeignSide(life.deal)
  {
    match life
    case Absent =>
    case Booked(d) => OpeningLookUps(id, d, side);
    case Unsettled(d) => ConfirmedLookUps(id, d, side);
    case Settled(d) => SettledLookUps(id, d, side);
    case Realised(d, v) =>
      RealisedLookUps(id, d, v, side);
      SettledLookUps(id, d, side);
      var log, e := Trace(id, Settled(d)), ConvertedOf(Holding(id, d), v);
      var closed := Terminated(v.asOf, d.prov, Cash(id, ForeignSide(d)));
      assert log + Realisation(id, d, v) == log + [e] + [closed];
      FirstOfOne(log, e, TerminatedKey(Cash(id, side)));
      FirstOfOne(log + [e], closed, TerminatedKey(Cash(id, side)));
  }

  /** Whether the reporting currency of a ticket is its quote currency: the rand wherever it occurs,
      otherwise the currency sold. */
  predicate QuoteIsHome(t: Ticket) {
    t.quote == ZAR || (t.base != ZAR && t.buys)
  }

  /** The stuck trades are those worth at least half a cent in the foreign currency and less than half a
      cent in the reporting one. */
  lemma StuckTickets(t: Ticket)
    requires Acceptable(t)
    ensures forall n: real | FxTickets.BaseAmount(t, n) ::
              Stuck(DealOf(t)) <==>
              if QuoteIsHome(t) then n >= 0.005 && n * t.rate < 0.005 else n * t.rate >= 0.005 && n < 0.005
  {
    hide HalfUp, BaseNotional, DealOf, FxTickets.BaseAmount, HomeAmount, ForeignAmount;
    FxTickets.BaseAmountIs(t);
    forall n: real | FxTickets.BaseAmount(t, n)
      ensures Stuck(DealOf(t)) <==>
              if QuoteIsHome(t) then n >= 0.005 && n * t.rate < 0.005 else n * t.rate >= 0.005 && n < 0.005
    {
      StuckAtAmount(t, n, n * t.rate);
    }
  }

  lemma StuckAtAmount(t: Ticket, n: real, q: real)
    requires Acceptable(t) && n == BaseNotional(t) && q == n * t.rate
    ensures Stuck(DealOf(t)) <==> if QuoteIsHome(t) then n >= 0.005 && q < 0.005 else q >= 0.005 && n < 0.005
  {
    hide HalfUp, BaseNotional, DealOf, HomeAmount, ForeignAmount, Acceptable;
    AmountsOfTicket(t);
    RoundsAway(n);
    RoundsAway(q);
  }

  lemma AmountsOfTicket(t: Ticket)
    requires Acceptable(t)
    ensures BaseNotional(t) * t.rate >= 0.0
    ensures var d := DealOf(t);
            var base, quote := HalfUp(BaseNotional(t) * 100.0), HalfUp(BaseNotional(t) * t.rate * 100.0);
            if QuoteIsHome(t) then HomeAmount(d) == quote && ForeignAmount(d).minor == base
            else HomeAmount(d) == base && ForeignAmount(d).minor == quote
  {
    hide HalfUp, BaseNotional;
    assert BaseNotional(t) * t.rate >= 0.0;
  }

  lemma RoundsAway(x: real)
    requires x >= 0.0
    ensures HalfUp(x * 100.0) == 0 <==> x < 0.005
  {
    assert HalfUp(x * 100.0) as real - 0.5 <= x * 100.0 < HalfUp(x * 100.0) as real + 0.5;
  }

  /** One yen bought at a tenth of a cent is confirmed at its value date and never settles. */
  lemma TinyTradeNeverSettles(date: int)
    ensures var commands := [Book("MAN-1", Ticket("JPY", ZAR, true, 1.0, "JPY", 0.001, 0, 2, "Bank", false)),
                             Settle(Fx("MAN-1"), 2)];
            && Minted(commands)
            && Has(Run(commands), ConfirmedKey("MAN-1"))
            && !Settles(Run(commands), Fx("MAN-1"), date)
            && Step(Run(commands), Settle(Fx("MAN-1"), date)) == Run(commands)
  {
    var t := Ticket("JPY", ZAR, true, 1.0, "JPY", 0.001, 0, 2, "Bank", false);
    var book := Command.Book("MAN-1", t);
    var settle := Settle(Fx("MAN-1"), 2);
    var commands := [book, settle];
    StuckTickets(t);
    assert FxTickets.BaseAmount(t, 1.0);
    assert commands[..1] == [book] && [book][..0] == [];
    assert LifeAfter([book], "MAN-1") == Booked(DealOf(t));
    assert LifeAfter(commands, "MAN-1") == Unsettled(DealOf(t));
    SettlesExactlyWhen(commands, "MAN-1", date);
    IgnoredIsSilent(commands, Settle(Fx("MAN-1"), date));
    DeskRefinesLifecycle(commands, "MAN-1");
    LookUpsAreLocal(Run(commands), ConfirmedKey("MAN-1"));
    ConfirmedLookUps("MAN-1", DealOf(t), Paid);
  }
}
