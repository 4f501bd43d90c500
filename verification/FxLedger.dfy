/**
 The ledger derived from the desk's log.

 The general ledger is not stored: the posting rules turn each event into legs, and a settled trade's
 off-balance-sheet commitment is released because its instrument now reads as settled.  The main
 theorem gives the balance of every account in every currency in closed form: it is the sum, over the
 trades booked, of what the state of each trade's machine owes that account.
 */
module FxLedger {
  import opened Wrappers
  import opened FxTradeBook
  import opened FxLifecycle
  import opened FxSafety

  // ---------------------------------------------------------------- posting rules

  datatype Account =
    | NostroZar | NostroUsd | NostroEur | NostroGbp | NostroJpy | NostroChf | NostroAud
    | SettlementSuspense | SettlementClearing
    | RealisedPnl | UnrealisedPnl | BoughtCommitment | SoldCommitment

  /** `amount` is positive for a debit and negative for a credit. */
  datatype Leg = Leg(account: Account, currency: Currency, amount: int)

  datatype SettlementMode = PaymentVersusPayment | SequentialClearing

  function NostroFor(c: Currency): Account {
    match c
    case "ZAR" => NostroZar
    case "USD" => NostroUsd
    case "EUR" => NostroEur
    case "GBP" => NostroGbp
    case "JPY" => NostroJpy
    case "CHF" => NostroChf
    case "AUD" => NostroAud
    case _ => SettlementSuspense
  }

  /** The two contractual amounts, off balance sheet. */
  function RecognitionLegs(terms: Terms): seq<Leg>
    requires terms.FxTerms?
  {
    [Leg(BoughtCommitment, terms.buy.currency, terms.buy.minor),
     Leg(SoldCommitment, terms.sell.currency, -(terms.sell.minor as int))]
  }

  /** One settled movement; `None` is the rule refusing a movement that differs from what was booked. */
  function MovementLegs(currency: Currency, movement: int, booked: nat, mode: SettlementMode): Option<seq<Leg>> {
    if movement == 0 then Some([])
    else if (if movement >= 0 then movement else -movement) != booked then None
    else
      Some([Leg(NostroFor(currency), currency, movement)] +
           (if mode.SequentialClearing? then [Leg(SettlementClearing, currency, -movement)] else []))
  }

  function ConversionLegs(sold: Money, proceeds: Money, cost: Money, unrealised: int): seq<Leg> {
    if sold.minor == 0 then []
    else
      [Leg(NostroFor(proceeds.currency), proceeds.currency, proceeds.minor),
       Leg(NostroFor(sold.currency), sold.currency, -(sold.minor as int))] +
      (if proceeds.minor == cost.minor then []
       else [Leg(RealisedPnl, proceeds.currency, cost.minor - proceeds.minor)]) +
      (if unrealised == 0 then []
       else [Leg(UnrealisedPnl, proceeds.currency, unrealised), Leg(RealisedPnl, proceeds.currency, -unrealised)])
  }

  function Reversed(legs: seq<Leg>): seq<Leg> {
    if legs == [] then [] else [legs[0].(amount := -legs[0].amount)] + Reversed(legs[1..])
  }

  /** The legs an event contributes, given the register read off the whole log. */
  function LegsOf(full: seq<Event>, e: Event, mode: SettlementMode): seq<Leg> {
    match e
    case Created(_, _, inst, terms) =>
      if terms.FxTerms? then
        RecognitionLegs(terms) +
        (if Has(full, TerminatedKey(inst)) then Reversed(RecognitionLegs(terms)) else [])
      else []
    case SettlementExecuted(_, _, _, _, currency, movement, booked) =>
      (match MovementLegs(currency, movement, booked, mode)
       case Some(legs) => legs
       case None => [])
    case ConversionExecuted(_, _, _, sold, proceeds, cost, unrealised) =>
      ConversionLegs(sold, proceeds, cost, unrealised)
    case _ => []
  }

  function Total(legs: seq<Leg>, a: Account, c: Currency): int {
    if legs == [] then 0
    else (if legs[0].account == a && legs[0].currency == c then legs[0].amount else 0) + Total(legs[1..], a, c)
  }

  /** The sum of a figure over events. */
  function Sum(f: Event -> int, events: seq<Event>): int {
    if events == [] then 0 else f(events[0]) + Sum(f, events[1..])
  }

  /** What one event posts to an account in a currency. */
  function Poster(full: seq<Event>, a: Account, c: Currency, mode: SettlementMode): Event -> int {
    e => Total(LegsOf(full, e, mode), a, c)
  }

  function Posted(full: seq<Event>, events: seq<Event>, a: Account, c: Currency, mode: SettlementMode): int {
    Sum(Poster(full, a, c, mode), events)
  }

  /** The balance of an account in a currency.  A spot settles payment against payment. */
  function Balance(log: seq<Event>, a: Account, c: Currency): int {
    Posted(log, log, a, c, PaymentVersusPayment)
  }

  // ---------------------------------------------------------------- the closed form

  /** `amount` if the balance asked for is the one named, else nothing. */
  function At(account: Account, currency: Currency, a: Account, c: Currency, amount: int): int {
    if account == a && currency == c then amount else 0
  }

  function Cash(m: Money, a: Account, c: Currency): int {
    At(NostroFor(m.currency), m.currency, a, c, m.minor)
  }

  function LifeBalance(life: Life, a: Account, c: Currency): int {
    match life
    case Absent => 0
    case Booked(d) => Committed(d, a, c)
    case Unsettled(d) => Committed(d, a, c)
    case Settled(d) => Cash(d.buy, a, c) - Cash(d.sell, a, c)
    case Realised(d, v) =>
      var proceeds: int := if v.rate > 0.0 then Proceeds(ForeignAmount(d).minor, v.rate) else 0;
      Cash(d.buy, a, c) - Cash(d.sell, a, c)
      + At(NostroFor(Home(d)), Home(d), a, c, proceeds) - Cash(ForeignAmount(d), a, c)
      - At(RealisedPnl, Home(d), a, c, proceeds - HomeAmount(d) + v.unrealised)
      + At(UnrealisedPnl, Home(d), a, c, v.unrealised)
  }

  function Committed(d: Deal, a: Account, c: Currency): int {
    At(BoughtCommitment, d.buy.currency, a, c, d.buy.minor) - At(SoldCommitment, d.sell.currency, a, c, d.sell.minor)
  }

  /** The ids booked, in the order of booking. */
  function Ids(commands: seq<Command>): seq<string> {
    if commands == [] then []
    else
      var last := commands[|commands| - 1];
      Ids(commands[..|commands| - 1]) + (if last.Book? then [last.id] else [])
  }

  function SumOfLives(commands: seq<Command>, ids: seq<string>, a: Account, c: Currency): int {
    if ids == [] then 0 else LifeBalance(LifeAfter(commands, ids[0]), a, c) + SumOfLives(commands, ids[1..], a, c)
  }

  // ---------------------------------------------------------------- sums

  lemma {:induction false} TotalOfConcat(x: seq<Leg>, y: seq<Leg>, a: Account, c: Currency)
    ensures Total(x + y, a, c) == Total(x, a, c) + Total(y, a, c)
  {
    if x == [] {
      assert x + y == y;
    } else {
      assert (x + y)[1..] == x[1..] + y;
      TotalOfConcat(x[1..], y, a, c);
    }
  }

  lemma {:induction false} TotalOfReversed(x: seq<Leg>, a: Account, c: Currency)
    ensures Total(Reversed(x), a, c) == -Total(x, a, c)
  {
    if x != [] {
      var head := x[0].(amount := -x[0].amount);
      assert ([head] + Reversed(x[1..]))[1..] == Reversed(x[1..]);
      TotalOfReversed(x[1..], a, c);
    }
  }

  lemma NothingIsZero(a: Account, c: Currency)
    ensures Total([], a, c) == 0
  {}

  lemma TotalOfTwo(p: Leg, q: Leg, a: Account, c: Currency)
    ensures Total([p], a, c) == At(p.account, p.currency, a, c, p.amount)
    ensures Total([p, q], a, c) == At(p.account, p.currency, a, c, p.amount) + At(q.account, q.currency, a, c, q.amount)
  {
    assert [p, q][1..] == [q] && [q][1..] == [] && [p][1..] == [];
  }

  lemma {:induction false} SumOfConcat(f: Event -> int, x: seq<Event>, y: seq<Event>)
    ensures Sum(f, x + y) == Sum(f, x) + Sum(f, y)
  {
    if x == [] {
      assert x + y == y;
    } else {
      assert (x + y)[1..] == x[1..] + y;
      SumOfConcat(f, x[1..], y);
    }
  }

  lemma SumOfOne(f: Event -> int, e: Event)
    ensures Sum(f, [e]) == f(e)
  {
    assert [e] != [] && [e][1..] == [];
  }

  lemma PostedOfConcat(full: seq<Event>, x: seq<Event>, y: seq<Event>, a: Account, c: Currency, mode: SettlementMode)
    ensures Posted(full, x + y, a, c, mode) == Posted(full, x, a, c, mode) + Posted(full, y, a, c, mode)
  {
    SumOfConcat(Poster(full, a, c, mode), x, y);
  }

  /** What a trade posts depends on the trade's own events. */
  lemma {:induction false} PostedIsLocal(full: seq<Event>, events: seq<Event>, id: string, a: Account, c: Currency,
                                         mode: SettlementMode)
    requires AllOf(events, id)
    ensures Posted(full, events, a, c, mode) == Posted(View(full, id), events, a, c, mode)
  {
    if events != [] {
      assert events[0] in events && TradeOf(events[0]) == id;
      PostedIsLocal(full, events[1..], id, a, c, mode);
      if events[0].Created? {
        LookUpsAreLocal(full, TerminatedKey(events[0].instance));
      }
      assert LegsOf(full, events[0], mode) == LegsOf(View(full, id), events[0], mode);
    }
  }

  lemma {:induction false} ViewIsOfOne(log: seq<Event>, id: string)
    ensures AllOf(View(log, id), id)
  {
    if log != [] {
      ViewIsOfOne(log[1..], id);
    }
  }

  function SumOfViews(f: Event -> int, events: seq<Event>, ids: seq<string>): int {
    if ids == [] then 0 else Sum(f, View(events, ids[0])) + SumOfViews(f, events, ids[1..])
  }

  predicate Distinct<T(==)>(list: seq<T>) {
    forall i, j | 0 <= i < j < |list| :: list[i] != list[j]
  }

  lemma {:induction false} OneMoreEvent(f: Event -> int, e: Event, rest: seq<Event>, ids: seq<string>)
    requires Distinct(ids)
    ensures SumOfViews(f, [e] + rest, ids) == SumOfViews(f, rest, ids) + if TradeOf(e) in ids then f(e) else 0
  {
    if ids != [] {
      assert forall i, j | 0 <= i < j < |ids[1..]| :: ids[1..][i] == ids[i + 1] && ids[1..][j] == ids[j + 1];
      OneMoreEvent(f, e, rest, ids[1..]);
      assert ([e] + rest)[1..] == rest;
      if TradeOf(e) == ids[0] {
        assert TradeOf(e) !in ids[1..];
        assert ([e] + View(rest, ids[0]))[1..] == View(rest, ids[0]);
      } else {
        assert TradeOf(e) in ids <==> TradeOf(e) in ids[1..];
      }
    }
  }

  lemma {:induction false} NoViews(f: Event -> int, ids: seq<string>)
    ensures SumOfViews(f, [], ids) == 0
  {
    if ids != [] {
      NoViews(f, ids[1..]);
    }
  }

  /** Regrouping a whole log by trade. */
  lemma {:induction false} SumByTrade(f: Event -> int, events: seq<Event>, ids: seq<string>)
    requires Distinct(ids)
    requires forall e <- events :: TradeOf(e) in ids
    ensures Sum(f, events) == SumOfViews(f, events, ids)
  {
    if events == [] {
      NoViews(f, ids);
    } else {
      SumByTrade(f, events[1..], ids);
      OneMoreEvent(f, events[0], events[1..], ids);
      assert events == [events[0]] + events[1..];
    }
  }

  /** Regrouping the log of a run by the trades it booked. */
  lemma RunByTrade(commands: seq<Command>, f: Event -> int)
    requires Minted(commands)
    ensures Sum(f, Run(commands)) == SumOfViews(f, Run(commands), Ids(commands))
  {
    IdsAreDistinct(commands);
    forall e | e in Run(commands) ensures TradeOf(e) in Ids(commands) {
      EventsAreOfBookedTrades(commands, e);
    }
    SumByTrade(f, Run(commands), Ids(commands));
  }

  // ---------------------------------------------------------------- what each state has posted

  lemma OpeningPosts(full: seq<Event>, id: string, d: Deal, a: Account, c: Currency, mode: SettlementMode)
    ensures Posted(full, Opening(id, d), a, c, mode) ==
            if Has(full, TerminatedKey(Fx(id))) then 0 else Committed(d, a, c)
  {
    hide Posted, LegsOf, Total, Reversed, RecognitionLegs, Committed, At, Has;
    var one := ConfirmationSent(d.tradeDate, d.prov, id);
    var two := Affirmed(d.tradeDate, d.prov, id);
    assert Opening(id, d) == [one] + [two] + [CreatedOf(id, d)];
    PostedOfConcat(full, [one], [two], a, c, mode);
    PostedOfConcat(full, [one] + [two], [CreatedOf(id, d)], a, c, mode);
    OnePosts(full, one, a, c, mode);
    OnePosts(full, two, a, c, mode);
    OnePosts(full, CreatedOf(id, d), a, c, mode);
    NoticesPostNothing(full, one, a, c, mode);
    NoticesPostNothing(full, two, a, c, mode);
    RecognitionPosts(full, id, d, a, c, mode);
  }

  lemma NoticesPostNothing(full: seq<Event>, e: Event, a: Account, c: Currency, mode: SettlementMode)
    requires e.ConfirmationSent? || e.Affirmed?
    ensures Total(LegsOf(full, e, mode), a, c) == 0
  {}

  lemma RecognitionPosts(full: seq<Event>, id: string, d: Deal, a: Account, c: Currency, mode: SettlementMode)
    ensures Total(LegsOf(full, CreatedOf(id, d), mode), a, c) ==
            if Has(full, TerminatedKey(Fx(id))) then 0 else Committed(d, a, c)
  {
    hide Total, Reversed, Has;
    var legs := RecognitionLegs(CreatedOf(id, d).terms);
    TotalOfTwo(legs[0], legs[1], a, c);
    TotalOfReversed(legs, a, c);
    TotalOfConcat(legs, Reversed(legs), a, c);
    assert legs + [] == legs;
  }

  lemma OnePosts(full: seq<Event>, e: Event, a: Account, c: Currency, mode: SettlementMode)
    ensures Posted(full, [e], a, c, mode) == Total(LegsOf(full, e, mode), a, c)
  {
    SumOfOne(Poster(full, a, c, mode), e);
  }

  function LegAmount(d: Deal, side: Side): Money {
    if side.Received? then d.buy else d.sell
  }

  function Signed(side: Side, amount: nat): int {
    if side.Received? then amount else -(amount as int)
  }

  lemma MovementPosts(m: Money, side: Side, a: Account, c: Currency, mode: SettlementMode)
    ensures var legs := MovementLegs(m.currency, Signed(side, m.minor), m.minor, mode);
            && legs.Some?
            && Total(legs.value, a, c) ==
               At(NostroFor(m.currency), m.currency, a, c, Signed(side, m.minor)) -
               if mode.SequentialClearing? then At(SettlementClearing, m.currency, a, c, Signed(side, m.minor)) else 0
  {
    var moved := Signed(side, m.minor);
    var cash, clearing := Leg(NostroFor(m.currency), m.currency, moved), Leg(SettlementClearing, m.currency, -moved);
    TotalOfTwo(cash, clearing, a, c);
    assert [cash] + [clearing] == [cash, clearing] && [cash] + [] == [cash];
  }

  /** A settled leg moves its amount into or out of the nostro, and under sequential clearing the
      opposite into the clearing account.  The rule never refuses: settled equals booked. */
  lemma LegPosts(full: seq<Event>, id: string, d: Deal, side: Side, a: Account, c: Currency, mode: SettlementMode)
    ensures var m := LegAmount(d, side);
            Posted(full, ExecutedLeg(id, d, side), a, c, mode) ==
            At(NostroFor(m.currency), m.currency, a, c, Signed(side, m.minor)) -
            if mode.SequentialClearing? then At(SettlementClearing, m.currency, a, c, Signed(side, m.minor)) else 0
  {
    var m := LegAmount(d, side);
    MovementPosts(m, side, a, c, mode);
    if m.minor != 0 {
      OnePosts(full, ExecutedLeg(id, d, side)[0], a, c, mode);
    }
  }

  lemma HoldingPosts(full: seq<Event>, id: string, d: Deal, side: Side, a: Account, c: Currency, mode: SettlementMode)
    ensures Posted(full, HoldingLeg(id, d, side), a, c, mode) == 0
  {
    if LegAmount(d, side).minor != 0 {
      OnePosts(full, HoldingLeg(id, d, side)[0], a, c, mode);
    }
  }

  lemma SettlementPosts(full: seq<Event>, id: string, d: Deal, a: Account, c: Currency)
    ensures Posted(full, Settlement(id, d), a, c, PaymentVersusPayment) == Cash(d.buy, a, c) - Cash(d.sell, a, c)
  {
    var mode := PaymentVersusPayment;
    LegPosts(full, id, d, Received, a, c, mode);
    LegPosts(full, id, d, Paid, a, c, mode);
    SettlementPostsLegs(full, id, d, a, c, mode);
  }

  lemma SettlementPostsLegs(full: seq<Event>, id: string, d: Deal, a: Account, c: Currency, mode: SettlementMode)
    ensures Posted(full, Settlement(id, d), a, c, mode) ==
            Posted(full, ExecutedLeg(id, d, Received), a, c, mode) + Posted(full, ExecutedLeg(id, d, Paid), a, c, mode)
  {
    var er, ep := ExecutedLeg(id, d, Received), ExecutedLeg(id, d, Paid);
    var hr, hp := HoldingLeg(id, d, Received), HoldingLeg(id, d, Paid);
    HoldingPosts(full, id, d, Received, a, c, mode);
    HoldingPosts(full, id, d, Paid, a, c, mode);
    PostedOfConcat(full, er, ep, a, c, mode);
    PostedOfConcat(full, er + ep, hr, a, c, mode);
    PostedOfConcat(full, er + ep + hr, hp, a, c, mode);
    PostedOfConcat(full, er + ep + hr + hp, [Closing(id, d)], a, c, mode);
    OnePosts(full, Closing(id, d), a, c, mode);
  }

  lemma ConversionPosts(sold: Money, proceeds: Money, cost: Money, unrealised: int, a: Account, c: Currency)
    requires sold.minor != 0
    ensures Total(ConversionLegs(sold, proceeds, cost, unrealised), a, c) ==
            Cash(proceeds, a, c) - Cash(sold, a, c)
            - At(RealisedPnl, proceeds.currency, a, c, proceeds.minor - cost.minor + unrealised)
            + At(UnrealisedPnl, proceeds.currency, a, c, unrealised)
  {
    hide NostroFor, Total;
    NothingIsZero(a, c);
    var r := proceeds.currency;
    var inflow := Leg(NostroFor(r), r, proceeds.minor);
    var outflow := Leg(NostroFor(sold.currency), sold.currency, -(sold.minor as int));
    var gain := Leg(RealisedPnl, r, cost.minor - proceeds.minor);
    var back, across := Leg(UnrealisedPnl, r, unrealised), Leg(RealisedPnl, r, -unrealised);
    TotalOfTwo(inflow, outflow, a, c);
    TotalOfTwo(gain, gain, a, c);
    TotalOfTwo(back, across, a, c);
    var first := if proceeds.minor == cost.minor then [] else [gain];
    var second := if unrealised == 0 then [] else [back, across];
    TotalOfConcat([inflow, outflow], first, a, c);
    TotalOfConcat([inflow, outflow] + first, second, a, c);
  }

  lemma RealisationPosts(full: seq<Event>, id: string, d: Deal, v: Conversion, a: Account, c: Currency,
                         mode: SettlementMode)
    requires Proper(Realised(d, v))
    ensures Posted(full, Realisation(id, d, v), a, c, mode) ==
            LifeBalance(Realised(d, v), a, c) - LifeBalance(Settled(d), a, c)
  {
    var e := ConvertedOf(Holding(id, d), v);
    var closed := Terminated(v.asOf, d.prov, FxTradeBook.Cash(id, ForeignSide(d)));
    assert Realisation(id, d, v) == [e] + [closed];
    hide Posted, Total, ConversionLegs, At, NostroFor;
    PostedOfConcat(full, [e], [closed], a, c, mode);
    OnePosts(full, e, a, c, mode);
    OnePosts(full, closed, a, c, mode);
    ConversionPosts(e.sold, e.proceeds, e.costBasis, e.unrealised, a, c);
    NothingIsZero(a, c);
  }

  lemma ConfirmedPosts(full: seq<Event>, id: string, d: Deal, a: Account, c: Currency)
    ensures Posted(full, Opening(id, d) + [Confirmation(id, d)], a, c, PaymentVersusPayment) ==
            if Has(full, TerminatedKey(Fx(id))) then 0 else Committed(d, a, c)
  {
    hide Opening, Posted, Has, Committed;
    OpeningPosts(full, id, d, a, c, PaymentVersusPayment);
    PostedOfConcat(full, Opening(id, d), [Confirmation(id, d)], a, c, PaymentVersusPayment);
    OnePosts(full, Confirmation(id, d), a, c, PaymentVersusPayment);
  }

  lemma SettledPosts(full: seq<Event>, id: string, d: Deal, a: Account, c: Currency)
    requires Has(full, TerminatedKey(Fx(id)))
    ensures Posted(full, Opening(id, d) + [Confirmation(id, d)] + Settlement(id, d), a, c, PaymentVersusPayment) ==
            LifeBalance(Settled(d), a, c)
  {
    hide Opening, Confirmation, Settlement, Posted, Has;
    ConfirmedPosts(full, id, d, a, c);
    PostedOfConcat(full, Opening(id, d) + [Confirmation(id, d)], Settlement(id, d), a, c, PaymentVersusPayment);
    SettlementPosts(full, id, d, a, c);
  }

  lemma RealisedPosts(full: seq<Event>, id: string, d: Deal, v: Conversion, a: Account, c: Currency)
    requires Proper(Realised(d, v)) && Has(full, TerminatedKey(Fx(id)))
    ensures Posted(full, Trace(id, Realised(d, v)), a, c, PaymentVersusPayment) == LifeBalance(Realised(d, v), a, c)
  {
    hide Opening, Confirmation, Settlement, Realisation, Posted, Has, LifeBalance;
    SettledPosts(full, id, d, a, c);
    RealisationPosts(full, id, d, v, a, c, PaymentVersusPayment);
    PostedOfConcat(full, Opening(id, d) + [Confirmation(id, d)] + Settlement(id, d), Realisation(id, d, v), a, c,
                   PaymentVersusPayment);
  }

  /** The events of one trade post exactly what its state owes. */
  lemma LifePosts(id: string, life: Life, a: Account, c: Currency)
    requires Proper(life)
    ensures Balance(Trace(id, life), a, c) == LifeBalance(life, a, c)
  {
    hide Opening, Confirmation, Settlement, Realisation, Has;
    var full := Trace(id, life);
    TerminatedInTrace(id, life);
    match life
    case Absent =>
    case Booked(d) => OpeningPosts(full, id, d, a, c, PaymentVersusPayment);
    case Unsettled(d) => ConfirmedPosts(full, id, d, a, c);
    case Settled(d) => SettledPosts(full, id, d, a, c);
    case Realised(d, v) => RealisedPosts(full, id, d, v, a, c);
  }

  // ---------------------------------------------------------------- the whole ledger

  ghost predicate IsBooked(commands: seq<Command>, id: string) {
    exists i :: 0 <= i < |commands| && commands[i].Book? && commands[i].id == id
  }

  lemma {:induction false} IdsOfRun(commands: seq<Command>, id: string)
    ensures id in Ids(commands) <==> IsBooked(commands, id)
  {
    if commands != [] {
      var n := |commands| - 1;
      IdsOfRun(commands[..n], id);
      if IsBooked(commands, id) {
        var i :| 0 <= i < |commands| && commands[i].Book? && commands[i].id == id;
        if i < n { assert commands[..n][i] == commands[i]; }
      }
      if IsBooked(commands[..n], id) {
        var i :| 0 <= i < n && commands[..n][i].Book? && commands[..n][i].id == id;
        assert commands[i] == commands[..n][i];
      }
    }
  }

  lemma {:induction false} IdsAreDistinct(commands: seq<Command>)
    requires Minted(commands)
    ensures Distinct(Ids(commands))
  {
    if commands != [] {
      var n := |commands| - 1;
      IdsAreDistinct(commands[..n]);
      if commands[n].Book? {
        IdsOfRun(commands[..n], commands[n].id);
      }
    }
  }

  lemma EventsAreOfBookedTrades(commands: seq<Command>, e: Event)
    requires Minted(commands) && e in Run(commands)
    ensures TradeOf(e) in Ids(commands)
  {
    var id := TradeOf(e);
    ViewKeeps(Run(commands), e);
    DeskRefinesLifecycle(commands, id);
    IdsOfRun(commands, id);
    if !IsBooked(commands, id) {
      assert forall c <- commands :: c.Book? ==> c.id != id;
      UnbookedIsAbsent(commands, id);
    }
  }

  lemma TradePosts(commands: seq<Command>, id: string, a: Account, c: Currency)
    requires Minted(commands)
    ensures Posted(Run(commands), View(Run(commands), id), a, c, PaymentVersusPayment) ==
            LifeBalance(LifeAfter(commands, id), a, c)
    ensures Balance(View(Run(commands), id), a, c) == LifeBalance(LifeAfter(commands, id), a, c)
  {
    DeskRefinesLifecycle(commands, id);
    ViewIsOfOne(Run(commands), id);
    PostedIsLocal(Run(commands), View(Run(commands), id), id, a, c, PaymentVersusPayment);
    LifePosts(id, LifeAfter(commands, id), a, c);
  }

  lemma {:induction false} ViewsAreLives(commands: seq<Command>, ids: seq<string>, a: Account, c: Currency)
    requires Minted(commands)
    ensures SumOfViews(Poster(Run(commands), a, c, PaymentVersusPayment), Run(commands), ids) ==
            SumOfLives(commands, ids, a, c)
  {
    if ids != [] {
      TradePosts(commands, ids[0], a, c);
      ViewsAreLives(commands, ids[1..], a, c);
    }
  }

  /** Every balance of the ledger, after every run. */
  lemma LedgerIsSumOfLives(commands: seq<Command>, a: Account, c: Currency)
    requires Minted(commands)
    ensures Balance(Run(commands), a, c) == SumOfLives(commands, Ids(commands), a, c)
  {
    RunByTrade(commands, Poster(Run(commands), a, c, PaymentVersusPayment));
    ViewsAreLives(commands, Ids(commands), a, c);
  }

  // ---------------------------------------------------------------- consequences

  lemma {:induction false} SameLivesSameSum(x: seq<Command>, y: seq<Command>, ids: seq<string>, a: Account, c: Currency)
    requires forall id :: LifeBalance(LifeAfter(x, id), a, c) == LifeBalance(LifeAfter(y, id), a, c)
    ensures SumOfLives(x, ids, a, c) == SumOfLives(y, ids, a, c)
  {
    if ids != [] {
      SameLivesSameSum(x, y, ids[1..], a, c);
    }
  }

  lemma SettlingKeepsProfit(life: Life, inst: Instance, date: int, a: Account, c: Currency)
    requires a.RealisedPnl? || a.UnrealisedPnl?
    ensures LifeBalance(Next(life, Settle(inst, date)), a, c) == LifeBalance(life, a, c)
  {
    if life.Booked? && inst.Fx? {
      assert LifeBalance(life, a, c) == 0 && LifeBalance(Settled(life.deal), a, c) == 0;
    }
  }

  /** Settling a trade, or trying to, strikes no profit or loss, realised or unrealised. */
  lemma SettlingStrikesNoProfit(commands: seq<Command>, inst: Instance, date: int, a: Account, c: Currency)
    requires Minted(commands) && (a.RealisedPnl? || a.UnrealisedPnl?)
    ensures Balance(Step(Run(commands), Settle(inst, date)), a, c) == Balance(Run(commands), a, c)
  {
    var settle := Settle(inst, date);
    hide LifeBalance, Balance, Run, Step, Next;
    RunThen(commands, settle);
    LedgerIsSumOfLives(commands, a, c);
    LedgerIsSumOfLives(commands + [settle], a, c);
    assert (commands + [settle])[..|commands|] == commands;
    assert Ids(commands + [settle]) == Ids(commands);
    forall id
      ensures LifeBalance(LifeAfter(commands + [settle], id), a, c) == LifeBalance(LifeAfter(commands, id), a, c)
    {
      SettlingKeepsProfit(LifeAfter(commands, id), inst, date, a, c);
    }
    SameLivesSameSum(commands + [settle], commands, Ids(commands), a, c);
  }

  /** The clearing account is never posted to: a spot settles straight into the nostros. */
  lemma {:induction false} ClearingStaysEmpty(full: seq<Event>, events: seq<Event>, c: Currency)
    ensures Posted(full, events, SettlementClearing, c, PaymentVersusPayment) == 0
  {
    if events != [] {
      ClearingStaysEmpty(full, events[1..], c);
      NoClearingLeg(full, events[0], c);
    }
  }

  /** Recognising a trade posts to the two memorandum accounts only. */
  lemma RecognitionElsewhere(full: seq<Event>, e: Event, a: Account, c: Currency, mode: SettlementMode)
    requires e.Created? && !a.BoughtCommitment? && !a.SoldCommitment?
    ensures Total(LegsOf(full, e, mode), a, c) == 0
  {
    hide Total, Reversed, Has;
    if e.terms.FxTerms? {
      var legs := RecognitionLegs(e.terms);
      TotalOfTwo(legs[0], legs[1], a, c);
      TotalOfReversed(legs, a, c);
      TotalOfConcat(legs, Reversed(legs), a, c);
      assert legs + [] == legs;
    } else {
      NothingIsZero(a, c);
    }
  }

  lemma NoClearingLeg(full: seq<Event>, e: Event, c: Currency)
    ensures Total(LegsOf(full, e, PaymentVersusPayment), SettlementClearing, c) == 0
  {
    var a := SettlementClearing;
    hide Reversed, RecognitionLegs, Has;
    if e.Created? {
      RecognitionElsewhere(full, e, a, c, PaymentVersusPayment);
    } else if e.SettlementExecuted? {
      var cash := Leg(NostroFor(e.currency), e.currency, e.movement);
      TotalOfTwo(cash, cash, a, c);
      assert [cash] + [] == [cash];
    } else if e.ConversionExecuted? && e.sold.minor != 0 {
      ConversionPosts(e.sold, e.proceeds, e.costBasis, e.unrealised, a, c);
    }
  }

  /** Cash moved by settlements, per currency. */
  function SettledCash(events: seq<Event>, c: Currency): int {
    if events == [] then 0
    else
      (if events[0].SettlementExecuted? && events[0].currency == c then events[0].movement else 0) +
      SettledCash(events[1..], c)
  }

  predicate MovedAsBooked(e: Event) {
    e.SettlementExecuted? ==> e.booked == if e.movement >= 0 then e.movement else -e.movement
  }

  /** Under sequential clearing the clearing account would hold the negated settled cash, as the
      settlement comment promises. */
  lemma {:induction false} SequentialClearingMirrorsCash(full: seq<Event>, events: seq<Event>, c: Currency)
    requires forall e <- events :: MovedAsBooked(e)
    ensures Posted(full, events, SettlementClearing, c, SequentialClearing) == -SettledCash(events, c)
  {
    if events != [] {
      var e := events[0];
      assert e in events && MovedAsBooked(e);
      SequentialClearingMirrorsCash(full, events[1..], c);
      if e.SettlementExecuted? {
        var cash, clearing := Leg(NostroFor(e.currency), e.currency, e.movement),
            Leg(SettlementClearing, e.currency, -e.movement);
        TotalOfTwo(cash, clearing, SettlementClearing, c);
        assert [cash] + [clearing] == [cash, clearing];
      } else {
        NoClearingLeg(full, e, c);
      }
    }
  }

  lemma RunsMoveAsBooked(commands: seq<Command>, e: Event)
    requires Minted(commands) && e in Run(commands)
    ensures MovedAsBooked(e)
  {
    var id := TradeOf(e);
    var life := LifeAfter(commands, id);
    ViewKeeps(Run(commands), e);
    DeskRefinesLifecycle(commands, id);
    if e.SettlementExecuted? {
      ExecutionsOfTrace(id, life, e);
    }
  }

  lemma ExecutionsOfTrace(id: string, life: Life, e: Event)
    requires Proper(life) && e in Trace(id, life) && e.SettlementExecuted?
    ensures life.Settled? || life.Realised?
    ensures e in ExecutedLeg(id, life.deal, Received) || e in ExecutedLeg(id, life.deal, Paid)
  {
    var d := life.deal;
    assert e !in Opening(id, d) && e != Confirmation(id, d);
    if life.Realised? {
      assert e !in Realisation(id, d, life.conversion);
    }
    assert e in Settlement(id, d);
    assert e !in HoldingLeg(id, d, Received) && e !in HoldingLeg(id, d, Paid);
  }

  /** The promised invariant (clearing is the negation of settled cash, currency by currency) holds
      after a run exactly in the currencies whose settled cash nets to nothing; with the sequential
      mode of the same rule it would hold in all of them. */
  lemma DocumentedClearingInvariant(commands: seq<Command>, c: Currency)
    requires Minted(commands)
    ensures var log := Run(commands);
            && (Balance(log, SettlementClearing, c) == -SettledCash(log, c) <==> SettledCash(log, c) == 0)
            && Posted(log, log, SettlementClearing, c, SequentialClearing) == -SettledCash(log, c)
  {
    var log := Run(commands);
    ClearingStaysEmpty(log, log, c);
    forall e | e in log ensures MovedAsBooked(e) {
      RunsMoveAsBooked(commands, e);
    }
    SequentialClearingMirrorsCash(log, log, c);
  }

  // ---------------------------------------------------------------- realisation

  /** Proceeds less cost of every conversion into a currency. */
  function ConversionResult(events: seq<Event>, c: Currency): int {
    if events == [] then 0
    else
      (if events[0].ConversionExecuted? && events[0].proceeds.currency == c
       then events[0].proceeds.minor - events[0].costBasis.minor else 0) + ConversionResult(events[1..], c)
  }

  function Reclassified(events: seq<Event>, c: Currency): int {
    if events == [] then 0
    else
      (if events[0].ConversionExecuted? && events[0].proceeds.currency == c then events[0].unrealised else 0) +
      Reclassified(events[1..], c)
  }

  lemma ProfitLegs(full: seq<Event>, e: Event, c: Currency)
    requires e.ConversionExecuted? ==> e.sold.minor != 0
    ensures Total(LegsOf(full, e, PaymentVersusPayment), RealisedPnl, c) ==
            -ConversionResult([e], c) - Reclassified([e], c)
    ensures Total(LegsOf(full, e, PaymentVersusPayment), UnrealisedPnl, c) == Reclassified([e], c)
  {
    assert [e][1..] == [];
    if e.Created? {
      RecognitionElsewhere(full, e, RealisedPnl, c, PaymentVersusPayment);
      RecognitionElsewhere(full, e, UnrealisedPnl, c, PaymentVersusPayment);
    } else if e.SettlementExecuted? {
      var cash := Leg(NostroFor(e.currency), e.currency, e.movement);
      TotalOfTwo(cash, cash, RealisedPnl, c);
      TotalOfTwo(cash, cash, UnrealisedPnl, c);
      assert [cash] + [] == [cash];
    } else if e.ConversionExecuted? {
      ConversionPosts(e.sold, e.proceeds, e.costBasis, e.unrealised, RealisedPnl, c);
      ConversionPosts(e.sold, e.proceeds, e.costBasis, e.unrealised, UnrealisedPnl, c);
    }
  }

  lemma {:induction false} ProfitOfEvents(full: seq<Event>, events: seq<Event>, c: Currency)
    requires forall e <- events :: e.ConversionExecuted? ==> e.sold.minor != 0
    ensures Posted(full, events, RealisedPnl, c, PaymentVersusPayment) ==
            -ConversionResult(events, c) - Reclassified(events, c)
    ensures Posted(full, events, UnrealisedPnl, c, PaymentVersusPayment) == Reclassified(events, c)
  {
    if events != [] {
      assert events[0] in events;
      ProfitOfEvents(full, events[1..], c);
      ProfitLegs(full, events[0], c);
      assert [events[0]][1..] == [];
    }
  }

  lemma ConversionOfTrace(id: string, life: Life, e: Event)
    requires Proper(life) && e in Trace(id, life) && e.ConversionExecuted?
    ensures life.Realised? && e == ConvertedOf(Holding(id, life.deal), life.conversion)
  {
    var d := life.deal;
    assert e !in Opening(id, d) && e != Confirmation(id, d);
    assert e !in Settlement(id, d) by {
      assert e !in ExecutedLeg(id, d, Received) && e !in ExecutedLeg(id, d, Paid);
      assert e !in HoldingLeg(id, d, Received) && e !in HoldingLeg(id, d, Paid);
    }
    assert life.Realised? && e in Realisation(id, d, life.conversion);
  }

  predicate Priced(e: Event, d: Deal, v: Conversion) {
    && e.ConversionExecuted?
    && e.sold == ForeignAmount(d) && e.sold.minor != 0
    && e.costBasis == Money(Home(d), HomeAmount(d))
    && e.proceeds.currency == Home(d)
    && e.proceeds.minor as real - 0.5 <= e.sold.minor as real * v.rate < e.proceeds.minor as real + 0.5
  }

  lemma PriceOfConversion(id: string, d: Deal, v: Conversion)
    requires Proper(Realised(d, v))
    ensures Priced(ConvertedOf(Holding(id, d), v), d, v)
  {}

  /** A conversion in the log sells a whole holding for a price within half a cent of amount times
      rate, and its cost is what moved in the reporting currency when the trade settled. */
  lemma ConversionsArePriced(commands: seq<Command>, e: Event)
    requires Minted(commands) && e in Run(commands) && e.ConversionExecuted?
    ensures var life := LifeAfter(commands, TradeOf(e));
            life.Realised? && Priced(e, life.deal, life.conversion)
  {
    hide Priced, Run, Trace;
    var id := TradeOf(e);
    ViewKeeps(Run(commands), e);
    DeskRefinesLifecycle(commands, id);
    ConversionOfTrace(id, LifeAfter(commands, id), e);
    PriceOfConversion(id, LifeAfter(commands, id).deal, LifeAfter(commands, id).conversion);
  }

  /** Over every run, profit and loss in a currency is the proceeds of its conversions less their
      cost; the operator's reclassification only moves it between the two accounts. */
  lemma RealisedIsProceedsLessCost(commands: seq<Command>, c: Currency)
    requires Minted(commands)
    ensures var log := Run(commands);
            && Balance(log, RealisedPnl, c) == -ConversionResult(log, c) - Reclassified(log, c)
            && Balance(log, RealisedPnl, c) + Balance(log, UnrealisedPnl, c) == -ConversionResult(log, c)
  {
    var log := Run(commands);
    forall e | e in log && e.ConversionExecuted? ensures e.sold.minor != 0 {
      ConversionsArePriced(commands, e);
    }
    ProfitOfEvents(log, log, c);
  }

  /** Converting a holding squares the trade's foreign position exactly when the foreign currency was
      the one received.  A paid holding is drawn down a second time. */
  lemma ConversionSquaresReceivedOnly(commands: seq<Command>, id: string)
    requires Minted(commands) && LifeAfter(commands, id).Realised?
    ensures var d := LifeAfter(commands, id).deal;
            var f := ForeignAmount(d);
            var left := Balance(View(Run(commands), id), NostroFor(f.currency), f.currency);
            && (left == 0 <==> ForeignSide(d).Received?)
            && (ForeignSide(d).Paid? ==> left == -2 * (f.minor as int))
  {
    var life := LifeAfter(commands, id);
    var f := ForeignAmount(life.deal);
    DeskRefinesLifecycle(commands, id);
    HomeFacts(life.deal);
    TradePosts(commands, id, NostroFor(f.currency), f.currency);
  }
}
