/**
 What a ticket becomes: the amounts booked for it, and every event its trade leaves in the log, field by field.
 */
module FxTickets {
  import opened Wrappers
  import opened FxTradeBook
  import opened FxLifecycle

  /** The nearest whole number, halves upwards. */
  predicate Nearest(x: real, n: nat) {
    n as real - 0.5 <= x < n as real + 0.5
  }

  lemma NearestIsHalfUp(x: real)
    requires x >= 0.0
    ensures forall n: nat :: Nearest(x, n) <==> n == HalfUp(x)
  {
    assert Nearest(x, HalfUp(x));
  }

  // ---------------------------------------------------------------- the amounts

  /** The base amount of a quote amount at a rate, in hundred-millionths. */
  predicate Divided(quote: real, rate: real, units: nat)
    requires rate > 0.0
  {
    Nearest(quote / rate * 100000000.0, units)
  }

  /** The amount of base currency a ticket stands for: as typed, or the quote amount divided by the rate and
      rounded to the nearest hundred-millionth. */
  ghost predicate BaseAmount(t: Ticket, n: real)
    requires t.rate > 0.0
  {
    if t.notionalCurrency == t.base then n == t.notional
    else exists units: nat :: Divided(t.notional, t.rate, units) && n == units as real / 100000000.0
  }

  lemma BaseAmountIs(t: Ticket)
    requires Acceptable(t)
    ensures BaseAmount(t, BaseNotional(t))
    ensures forall n: real :: BaseAmount(t, n) ==> n == BaseNotional(t)
  {
    hide HalfUp, Nearest;
    if t.notionalCurrency != t.base {
      var x := t.notional / t.rate * 100000000.0;
      NearestIsHalfUp(x);
      assert Divided(t.notional, t.rate, HalfUp(x));
    }
  }

  lemma TimesRate(x: real, q: real, r: real, d: real)
    requires r > 0.0 && q * r == x && -0.000000005 <= d <= 0.000000005
    ensures x - r * 0.000000005 <= (q + d) * r <= x + r * 0.000000005
  {
    Between(d, r);
    assert (q + d) * r == q * r + d * r;
  }

  lemma NotNegative(a: real, b: real)
    requires a >= 0.0 && b >= 0.0
    ensures a * b >= 0.0
  {}

  lemma Between(d: real, r: real)
    requires r > 0.0 && -0.000000005 <= d <= 0.000000005
    ensures -(r * 0.000000005) <= d * r <= r * 0.000000005
  {
    NotNegative(0.000000005 - d, r);
    NotNegative(d + 0.000000005, r);
    assert (0.000000005 - d) * r == 0.000000005 * r - d * r;
    assert (d + 0.000000005) * r == d * r + 0.000000005 * r;
  }

  lemma Quotient(x: real, r: real)
    requires r > 0.0
    ensures x / r * r == x
  {}

  /** For a notional in the quote currency, the base amount is within half a hundred-millionth of the quotient,
      and times the rate it misses the notional by at most that much of the rate. */
  lemma BaseAmountIsClose(t: Ticket, n: real)
    requires Acceptable(t) && BaseAmount(t, n) && t.notionalCurrency != t.base
    ensures t.notional / t.rate - 0.000000005 <= n <= t.notional / t.rate + 0.000000005
    ensures t.notional - t.rate * 0.000000005 <= n * t.rate <= t.notional + t.rate * 0.000000005
  {
    var units: nat :| Divided(t.notional, t.rate, units) && n == units as real / 100000000.0;
    Quotient(t.notional, t.rate);
    TimesRate(t.notional, t.notional / t.rate, t.rate, n - t.notional / t.rate);
  }

  /** The two amounts in hundredths, each rounded on its own. */
  ghost predicate Priced(t: Ticket, base: nat, quote: nat)
    requires t.rate > 0.0
  {
    exists n: real :: BaseAmount(t, n) && Nearest(n * 100.0, base) && Nearest(n * t.rate * 100.0, quote)
  }

  /** How far the booked amounts are from what was typed. */
  ghost predicate Close(t: Ticket, base: nat, quote: nat)
    requires t.rate > 0.0
  {
    var typed := 100.0 * t.notional;
    if t.notionalCurrency == t.base then
      && base as real - 0.5 <= typed < base as real + 0.5
      && quote as real - 0.5 <= typed * t.rate < quote as real + 0.5
    else
      && base as real - 0.5000005 <= typed / t.rate <= base as real + 0.5000005
      && quote as real - 0.5 - 0.0000005 * t.rate <= typed <= quote as real + 0.5 + 0.0000005 * t.rate
  }

  lemma PricedIsClose(t: Ticket, base: nat, quote: nat)
    requires Acceptable(t) && Priced(t, base, quote)
    ensures Close(t, base, quote)
  {
    hide BaseAmount, Close;
    var n: real :| BaseAmount(t, n) && Nearest(n * 100.0, base) && Nearest(n * t.rate * 100.0, quote);
    if t.notionalCurrency == t.base {
      TypedInBase(t, n);
      Hundredfold(n, t.rate);
      CloseInBase(t, base, quote, n * t.rate * 100.0);
    } else {
      BaseAmountIsClose(t, n);
      HundredQuotients(t.notional, t.rate);
      CloseInQuote(t, base, quote, n, n * t.rate, t.notional / t.rate, 100.0 * t.notional / t.rate);
    }
  }

  lemma CloseInBase(t: Ticket, base: nat, quote: nat, y: real)
    requires t.rate > 0.0 && t.notionalCurrency == t.base && y == 100.0 * t.notional * t.rate
    requires Nearest(t.notional * 100.0, base) && Nearest(y, quote)
    ensures Close(t, base, quote)
  {}

  lemma CloseInQuote(t: Ticket, base: nat, quote: nat, n: real, y: real, q: real, z: real)
    requires t.rate > 0.0 && t.notionalCurrency != t.base && z == 100.0 * t.notional / t.rate && z == 100.0 * q
    requires Nearest(n * 100.0, base) && Nearest(y * 100.0, quote)
    requires q - 0.000000005 <= n <= q + 0.000000005
    requires t.notional - t.rate * 0.000000005 <= y <= t.notional + t.rate * 0.000000005
    ensures Close(t, base, quote)
  {
    CloseToQuote(y, t.notional, t.rate, quote);
  }

  lemma TypedInBase(t: Ticket, n: real)
    requires t.rate > 0.0 && BaseAmount(t, n) && t.notionalCurrency == t.base
    ensures n == t.notional
  {}

  lemma Hundredfold(n: real, r: real)
    ensures n * r * 100.0 == 100.0 * n * r
  {}

  lemma HundredQuotients(x: real, r: real)
    requires r > 0.0
    ensures 100.0 * x / r == 100.0 * (x / r)
  {}

  lemma CloseToQuote(y: real, x: real, r: real, quote: nat)
    requires Nearest(y * 100.0, quote) && x - r * 0.000000005 <= y <= x + r * 0.000000005
    ensures quote as real - 0.5 - 0.0000005 * r <= 100.0 * x <= quote as real + 0.5 + 0.0000005 * r
  {}

  /** A quote-currency notional in whole cents is booked as typed when the rate is below a million. */
  lemma TypedIsBooked(t: Ticket, base: nat, quote: nat, cents: nat)
    requires Acceptable(t) && Priced(t, base, quote)
    requires t.notionalCurrency == t.quote && t.rate < 1000000.0 && t.notional * 100.0 == cents as real
    ensures quote == cents
  {
    PricedIsClose(t, base, quote);
    assert -1.0 < quote as real - cents as real < 1.0;
  }

  // ---------------------------------------------------------------- the deal

  /** A deal agrees with its ticket: dates, scenario, which currency is bought, and both amounts. */
  ghost predicate Agrees(t: Ticket, d: Deal)
    requires t.rate > 0.0
  {
    && d.tradeDate == t.tradeDate && d.settlementDate == t.settlementDate
    && d.prov == (if t.simulated then SimBooking else DeskBooking)
    && d.buy.currency == (if t.buys then t.base else t.quote)
    && d.sell.currency == (if t.buys then t.quote else t.base)
    && if t.buys then Priced(t, d.buy.minor, d.sell.minor) else Priced(t, d.sell.minor, d.buy.minor)
  }

  lemma DealAgrees(t: Ticket)
    requires Acceptable(t)
    ensures forall d :: Agrees(t, d) <==> d == DealOf(t)
  {
    hide BaseNotional, HalfUp, Priced;
    Positive(BaseNotional(t), t.rate);
    forall d ensures Agrees(t, d) <==> d == DealOf(t) {
      OnlyPrice(t, d.buy.minor, d.sell.minor);
      OnlyPrice(t, d.sell.minor, d.buy.minor);
    }
  }

  lemma Positive(n: real, r: real)
    requires n >= 0.0 && r > 0.0
    ensures n * r >= 0.0 && n * r * 100.0 >= 0.0
  {}

  lemma OnlyPrice(t: Ticket, base: nat, quote: nat)
    requires Acceptable(t)
    ensures BaseNotional(t) * t.rate * 100.0 >= 0.0
    ensures Priced(t, base, quote) <==>
            base == HalfUp(BaseNotional(t) * 100.0) && quote == HalfUp(BaseNotional(t) * t.rate * 100.0)
  {
    hide BaseNotional, HalfUp;
    BaseAmountIs(t);
    var n := BaseNotional(t);
    Positive(n, t.rate);
    NearestIsHalfUp(n * 100.0);
    NearestIsHalfUp(n * t.rate * 100.0);
    hide BaseAmount, Nearest;
    assert BaseAmount(t, n);
  }

  // ---------------------------------------------------------------- what booking appends

  predicate Typed(t: Ticket) {
    && |t.base| > 1 && |t.quote| > 1 && t.base != t.quote
    && t.notionalCurrency in {t.base, t.quote} && t.notional > 0.0 && t.rate > 0.0 && |t.counterparty| > 0
  }

  /** The three events of a booking. */
  function Agreement(id: string, d: Deal): seq<Event> {
    [ConfirmationSent(d.tradeDate, d.prov, id),
     Affirmed(d.tradeDate, d.prov, id),
     Created(d.tradeDate, d.prov, Fx(id), FxTerms(d.settlementDate, d.buy, d.sell))]
  }

  /** MAIN: booking appends nothing for an ill-typed ticket; for a well-typed one under a new id it appends the
      confirmation, the affirmation and the instrument, at the trade date, with the amounts of the ticket. */
  lemma BookingReads(log: seq<Event>, id: string, t: Ticket)
    ensures !Typed(t) ==> BookStep(log, id, t) == log
    ensures Typed(t) && !Has(log, CreatedKey(Fx(id))) ==>
              exists d :: Agrees(t, d) && BookStep(log, id, t) == log + Agreement(id, d)
    ensures Typed(t) && Has(log, CreatedKey(Fx(id))) ==>
              exists d :: Agrees(t, d) && BookStep(log, id, t) == log + Agreement(id, d)[..2]
  {
    assert Typed(t) <==> Acceptable(t);
    if Acceptable(t) {
      DealAgrees(t);
      hide DealOf, Agrees;
      var d := DealOf(t);
      var sent := log + [ConfirmationSent(d.tradeDate, d.prov, id)];
      var agreed := sent + [Affirmed(d.tradeDate, d.prov, id)];
      FirstOfOne(log, ConfirmationSent(d.tradeDate, d.prov, id), CreatedKey(Fx(id)));
      FirstOfOne(sent, Affirmed(d.tradeDate, d.prov, id), CreatedKey(Fx(id)));
      FirstOfOne(sent, Affirmed(d.tradeDate, d.prov, id), AffirmedKey(id));
      assert Agrees(t, d);
      assert agreed == log + Agreement(id, d)[..2];
      assert agreed + [CreatedOf(id, d)] == log + Agreement(id, d);
    }
  }

  // ---------------------------------------------------------------- what a life leaves in the log

  /** The currency a settled trade is carried in: rand if either leg is, or else what was paid. */
  function Carried(d: Deal): Currency {
    if "ZAR" in {d.buy.currency, d.sell.currency} then "ZAR" else d.sell.currency
  }

  /** What moved in that currency. */
  function Cost(d: Deal): Money {
    Money(Carried(d), if d.buy.currency == Carried(d) then d.buy.minor else d.sell.minor)
  }

  /** The correspondent's word, the movements, the holdings, each long or short at cost, and the close. */
  function Settling(id: string, d: Deal): seq<Event> {
    [SettlementConfirmed(d.settlementDate, d.prov, id, d.sell, d.buy)] +
    (if d.buy.minor == 0 then []
     else [SettlementExecuted(d.settlementDate, d.prov, Fx(id), Cash(id, Received), d.buy.currency, d.buy.minor,
                              d.buy.minor)]) +
    (if d.sell.minor == 0 then []
     else [SettlementExecuted(d.settlementDate, d.prov, Fx(id), Cash(id, Paid), d.sell.currency,
                              -(d.sell.minor as int), d.sell.minor)]) +
    (if d.buy.minor == 0 then []
     else [Created(d.settlementDate, d.prov, Cash(id, Received), CashTerms(d.buy, true, Cost(d)))]) +
    (if d.sell.minor == 0 then []
     else [Created(d.settlementDate, d.prov, Cash(id, Paid), CashTerms(d.sell, false, Cost(d)))]) +
    [Terminated(d.settlementDate, d.prov, Fx(id))]
  }

  /** The leg that is not in the carrying currency. */
  function Foreign(d: Deal): (Side, Money) {
    if d.buy.currency == Carried(d) then (Paid, d.sell) else (Received, d.buy)
  }

  ghost predicate Converting(id: string, d: Deal, v: Conversion, events: seq<Event>) {
    var (side, amount) := Foreign(d);
    exists proceeds: nat ::
      && Nearest(amount.minor as real * v.rate, proceeds)
      && events == [ConversionExecuted(v.asOf, d.prov, Cash(id, side), amount, Money(Carried(d), proceeds), Cost(d),
                                       v.unrealised),
                    Terminated(v.asOf, d.prov, Cash(id, side))]
  }

  /** The events of a trade in each state it can be in. */
  ghost predicate TraceReads(id: string, life: Life, events: seq<Event>) {
    match life
    case Absent => events == []
    case Booked(d) => events == Agreement(id, d)
    case Unsettled(d) => events == Agreement(id, d) + Settling(id, d)[..1]
    case Settled(d) => events == Agreement(id, d) + Settling(id, d)
    case Realised(d, v) =>
      exists sold: seq<Event> :: Converting(id, d, v, sold) && events == Agreement(id, d) + Settling(id, d) + sold
  }

  lemma SettlingIs(id: string, d: Deal)
    ensures Settling(id, d) == [Confirmation(id, d)] + Settlement(id, d)
    ensures Settling(id, d)[..1] == [Confirmation(id, d)]
    ensures Opening(id, d) == Agreement(id, d)
  {
    assert Cost(d) == Money(Home(d), HomeAmount(d));
    var (r, p, h, k) := (ExecutedLeg(id, d, Received), ExecutedLeg(id, d, Paid), HoldingLeg(id, d, Received),
                         HoldingLeg(id, d, Paid));
    assert [Confirmation(id, d)] + Settlement(id, d) == [Confirmation(id, d)] + r + p + h + k + [Closing(id, d)];
  }

  lemma RealisationIs(id: string, d: Deal, v: Conversion)
    requires v.rate > 0.0
    ensures Converting(id, d, v, Realisation(id, d, v))
  {
    var (side, amount) := Foreign(d);
    assert amount.minor as real * v.rate >= 0.0;
    NearestIsHalfUp(amount.minor as real * v.rate);
    assert Nearest(amount.minor as real * v.rate, Proceeds(amount.minor, v.rate));
  }

  lemma TraceIsRead(id: string, life: Life)
    requires Proper(life)
    ensures TraceReads(id, life, Trace(id, life))
  {
    hide Settling, Agreement, Realisation, Opening, Settlement, Confirmation, Converting;
    match life
    case Absent =>
    case Booked(d) => SettlingIs(id, d);
    case Unsettled(d) => SettlingIs(id, d);
    case Settled(d) => SettlingIs(id, d); Joined(Opening(id, d), [Confirmation(id, d)], Settlement(id, d));
    case Realised(d, v) =>
      SettlingIs(id, d);
      RealisationIs(id, d, v);
      Joined(Opening(id, d), [Confirmation(id, d)], Settlement(id, d));
  }

  lemma Joined(a: seq<Event>, b: seq<Event>, c: seq<Event>)
    ensures a + b + c == a + (b + c)
  {}

  /** The deal a life carries. */
  function DealIn(life: Life): Option<Deal> {
    match life
    case Absent => None
    case Booked(d) => Some(d)
    case Unsettled(d) => Some(d)
    case Settled(d) => Some(d)
    case Realised(d, _) => Some(d)
  }

  lemma {:induction false} DealIsTyped(commands: seq<Command>, id: string)
    ensures var d := DealIn(LifeAfter(commands, id));
            d.Some? ==> exists c <- commands :: c.Book? && c.id == id && Typed(c.ticket) && Agrees(c.ticket, d.value)
  {
    hide Agrees, DealOf;
    if commands != [] {
      var n := |commands| - 1;
      DealIsTyped(commands[..n], id);
      assert commands[n] in commands;
      assert forall c <- commands[..n] :: c in commands;
      if commands[n].Book? && commands[n].id == id && Acceptable(commands[n].ticket) {
        DealAgrees(commands[n].ticket);
      }
    }
  }

  /** MAIN: after any run, all a trade has left in the log is spelled out by one ticket booked for it and the state
      its commands led to. */
  lemma RunReads(commands: seq<Command>, id: string)
    requires Minted(commands)
    ensures TraceReads(id, LifeAfter(commands, id), View(Run(commands), id))
    ensures var d := DealIn(LifeAfter(commands, id));
            d.Some? ==> exists c <- commands :: c.Book? && c.id == id && Typed(c.ticket) && Agrees(c.ticket, d.value)
  {
    DeskRefinesLifecycle(commands, id);
    TraceIsRead(id, LifeAfter(commands, id));
    DealIsTyped(commands, id);
  }
}
