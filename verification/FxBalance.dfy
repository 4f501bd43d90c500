/**
 Whether the derived ledger is in balance.

 In native units it is not: a trade's two amounts are in different currencies, and no account carries
 a contra in the same one.  What each currency is out by after any run is given in closed form, with
 and without the memorandum accounts, which the trial balance leaves out of its totals.

 Valued in the reporting currency, each foreign amount at the cost it was settled at, it is in balance
 but for trades whose foreign amount rounded to nothing while the reporting amount did not.
 */
module FxBalance {
  import opened Wrappers
  import opened FxTradeBook
  import opened FxLifecycle
  import opened FxSafety
  import opened FxLedger

  // ---------------------------------------------------------------- the trial balance of a currency

  const BOOKS: seq<Account> :=
    [NostroZar, NostroUsd, NostroEur, NostroGbp, NostroJpy, NostroChf, NostroAud,
     SettlementSuspense, SettlementClearing, RealisedPnl, UnrealisedPnl]

  const MEMORANDUM: seq<Account> := [BoughtCommitment, SoldCommitment]

  function Accounts(memorandum: bool): seq<Account> {
    if memorandum then BOOKS + MEMORANDUM else BOOKS
  }

  /** Debits less credits in a currency over a list of accounts. */
  function TrialBalance(log: seq<Event>, accounts: seq<Account>, c: Currency): int {
    if accounts == [] then 0 else Balance(log, accounts[0], c) + TrialBalance(log, accounts[1..], c)
  }

  /** How many times a trade's contracted amounts stand in the ledger: once as a commitment or as settled
      cash, not at all when a received currency has been sold, twice when a paid one has been. */
  function Stands(life: Life, memorandum: bool): (n: nat)
    ensures n <= 2
  {
    match life
    case Absent => 0
    case Booked(_) => if memorandum then 1 else 0
    case Unsettled(_) => if memorandum then 1 else 0
    case Settled(_) => 1
    case Realised(d, _) => if ForeignSide(d).Received? then 0 else 2
  }

  function InCurrency(m: Money, c: Currency): nat {
    if m.currency == c then m.minor else 0
  }

  /** What the trades were contracted to receive, or to pay, in a currency, as often as it stands. */
  function Contracted(commands: seq<Command>, ids: seq<string>, side: Side, memorandum: bool, c: Currency): nat {
    if ids == [] then 0
    else
      var life := LifeAfter(commands, ids[0]);
      (if life.Absent? then 0 else Stands(life, memorandum) * InCurrency(LegAmount(life.deal, side), c)) +
      Contracted(commands, ids[1..], side, memorandum, c)
  }

  // ---------------------------------------------------------------- one trade over all accounts

  function LifeOver(life: Life, accounts: seq<Account>, c: Currency): int {
    if accounts == [] then 0 else LifeBalance(life, accounts[0], c) + LifeOver(life, accounts[1..], c)
  }

  /** `At` for a list of accounts. */
  function AtAny(account: Account, currency: Currency, accounts: seq<Account>, c: Currency, amount: int): int {
    if account in accounts && currency == c then amount else 0
  }

  lemma AtAnySplits(account: Account, currency: Currency, accounts: seq<Account>, c: Currency, amount: int)
    requires accounts != [] && Distinct(accounts)
    ensures AtAny(account, currency, accounts, c, amount) ==
            At(account, currency, accounts[0], c, amount) + AtAny(account, currency, accounts[1..], c, amount)
  {
    assert accounts == [accounts[0]] + accounts[1..];
    assert forall k | 0 <= k < |accounts[1..]| :: accounts[1..][k] == accounts[k + 1] != accounts[0];
  }

  lemma {:induction false} CommittedOver(d: Deal, accounts: seq<Account>, c: Currency)
    requires Distinct(accounts)
    ensures LifeOver(Booked(d), accounts, c) == LifeOver(Unsettled(d), accounts, c) ==
            AtAny(BoughtCommitment, d.buy.currency, accounts, c, d.buy.minor)
            - AtAny(SoldCommitment, d.sell.currency, accounts, c, d.sell.minor)
  {
    if accounts != [] {
      CommittedOver(d, accounts[1..], c);
      AtAnySplits(BoughtCommitment, d.buy.currency, accounts, c, d.buy.minor);
      AtAnySplits(SoldCommitment, d.sell.currency, accounts, c, d.sell.minor);
    }
  }

  function CashOver(m: Money, accounts: seq<Account>, c: Currency): int {
    AtAny(NostroFor(m.currency), m.currency, accounts, c, m.minor)
  }

  lemma {:induction false} SettledOver(d: Deal, accounts: seq<Account>, c: Currency)
    requires Distinct(accounts)
    ensures LifeOver(Settled(d), accounts, c) == CashOver(d.buy, accounts, c) - CashOver(d.sell, accounts, c)
  {
    if accounts != [] {
      SettledOver(d, accounts[1..], c);
      AtAnySplits(NostroFor(d.buy.currency), d.buy.currency, accounts, c, d.buy.minor);
      AtAnySplits(NostroFor(d.sell.currency), d.sell.currency, accounts, c, d.sell.minor);
    }
  }

  lemma {:induction false} RealisedOver(d: Deal, v: Conversion, accounts: seq<Account>, c: Currency)
    requires Distinct(accounts) && v.rate > 0.0
    ensures var p := Proceeds(ForeignAmount(d).minor, v.rate);
            LifeOver(Realised(d, v), accounts, c) ==
            LifeOver(Settled(d), accounts, c)
            + AtAny(NostroFor(Home(d)), Home(d), accounts, c, p) - CashOver(ForeignAmount(d), accounts, c)
            - AtAny(RealisedPnl, Home(d), accounts, c, p - HomeAmount(d) + v.unrealised)
            + AtAny(UnrealisedPnl, Home(d), accounts, c, v.unrealised)
  {
    if accounts != [] {
      var p, f := Proceeds(ForeignAmount(d).minor, v.rate), ForeignAmount(d);
      RealisedOver(d, v, accounts[1..], c);
      AtAnySplits(NostroFor(Home(d)), Home(d), accounts, c, p);
      AtAnySplits(NostroFor(f.currency), f.currency, accounts, c, f.minor);
      AtAnySplits(RealisedPnl, Home(d), accounts, c, p - HomeAmount(d) + v.unrealised);
      AtAnySplits(UnrealisedPnl, Home(d), accounts, c, v.unrealised);
    }
  }

  lemma AccountsAre(memorandum: bool)
    ensures Distinct(Accounts(memorandum))
    ensures forall currency :: NostroFor(currency) in Accounts(memorandum)
    ensures RealisedPnl in Accounts(memorandum) && UnrealisedPnl in Accounts(memorandum)
    ensures forall a <- MEMORANDUM :: a in Accounts(memorandum) <==> memorandum
  {
    assert forall i | 0 <= i < |BOOKS| :: Accounts(memorandum)[i] == BOOKS[i];
    assert forall currency :: NostroFor(currency) in BOOKS;
    assert RealisedPnl in BOOKS && UnrealisedPnl in BOOKS;
    assert BoughtCommitment !in BOOKS && SoldCommitment !in BOOKS;
  }

  lemma CommittedNets(d: Deal, memorandum: bool, c: Currency)
    ensures LifeOver(Booked(d), Accounts(memorandum), c) == LifeOver(Unsettled(d), Accounts(memorandum), c) ==
            if memorandum then InCurrency(d.buy, c) - InCurrency(d.sell, c) else 0
  {
    hide Accounts, LifeOver;
    AccountsAre(memorandum);
    assert BoughtCommitment == MEMORANDUM[0] && SoldCommitment == MEMORANDUM[1];
    CommittedOver(d, Accounts(memorandum), c);
  }

  lemma SettledNets(d: Deal, memorandum: bool, c: Currency)
    ensures LifeOver(Settled(d), Accounts(memorandum), c) == InCurrency(d.buy, c) - InCurrency(d.sell, c)
  {
    hide Accounts, LifeOver, NostroFor;
    AccountsAre(memorandum);
    SettledOver(d, Accounts(memorandum), c);
  }

  lemma RealisedNets(d: Deal, v: Conversion, memorandum: bool, c: Currency)
    requires Proper(Realised(d, v))
    ensures var n := Stands(Realised(d, v), memorandum);
            LifeOver(Realised(d, v), Accounts(memorandum), c) == n * InCurrency(d.buy, c) - n * InCurrency(d.sell, c)
  {
    hide Accounts, LifeOver, NostroFor;
    AccountsAre(memorandum);
    SettledNets(d, memorandum, c);
    RealisedOver(d, v, Accounts(memorandum), c);
    HomeFacts(d);
  }

  /** What one trade puts a currency out by. */
  lemma LifeNets(life: Life, memorandum: bool, c: Currency)
    requires Proper(life)
    ensures LifeOver(life, Accounts(memorandum), c) ==
            if life.Absent? then 0
            else Stands(life, memorandum) * InCurrency(life.deal.buy, c) -
                 Stands(life, memorandum) * InCurrency(life.deal.sell, c)
  {
    hide Accounts, LifeOver, InCurrency;
    match life
    case Absent => AbsentOver(Accounts(memorandum), c);
    case Booked(d) => CommittedNets(d, memorandum, c);
    case Unsettled(d) => CommittedNets(d, memorandum, c);
    case Settled(d) => SettledNets(d, memorandum, c);
    case Realised(d, v) => RealisedNets(d, v, memorandum, c);
  }

  lemma {:induction false} AbsentOver(accounts: seq<Account>, c: Currency)
    ensures LifeOver(Absent, accounts, c) == 0
  {
    if accounts != [] {
      AbsentOver(accounts[1..], c);
    }
  }

  // ---------------------------------------------------------------- the whole run

  function LivesOver(commands: seq<Command>, ids: seq<string>, accounts: seq<Account>, c: Currency): int {
    if ids == [] then 0
    else LifeOver(LifeAfter(commands, ids[0]), accounts, c) + LivesOver(commands, ids[1..], accounts, c)
  }

  lemma {:induction false} OneMoreAccount(commands: seq<Command>, ids: seq<string>, accounts: seq<Account>, c: Currency)
    requires accounts != []
    ensures LivesOver(commands, ids, accounts, c) ==
            SumOfLives(commands, ids, accounts[0], c) + LivesOver(commands, ids, accounts[1..], c)
  {
    if ids != [] {
      OneMoreAccount(commands, ids[1..], accounts, c);
    }
  }

  lemma {:induction false} NoAccounts(commands: seq<Command>, ids: seq<string>, c: Currency)
    ensures LivesOver(commands, ids, [], c) == 0
  {
    if ids != [] {
      NoAccounts(commands, ids[1..], c);
    }
  }

  /** Exchanging the two sums: accounts of trades for trades of accounts. */
  lemma {:induction false} TrialIsOverLives(commands: seq<Command>, accounts: seq<Account>, c: Currency)
    requires Minted(commands)
    ensures TrialBalance(Run(commands), accounts, c) == LivesOver(commands, Ids(commands), accounts, c)
  {
    if accounts == [] {
      NoAccounts(commands, Ids(commands), c);
    } else {
      TrialIsOverLives(commands, accounts[1..], c);
      LedgerIsSumOfLives(commands, accounts[0], c);
      OneMoreAccount(commands, Ids(commands), accounts, c);
    }
  }

  lemma {:induction false} LivesNet(commands: seq<Command>, ids: seq<string>, memorandum: bool, c: Currency)
    requires Minted(commands)
    ensures LivesOver(commands, ids, Accounts(memorandum), c) ==
            Contracted(commands, ids, Received, memorandum, c) - Contracted(commands, ids, Paid, memorandum, c)
  {
    if ids != [] {
      LivesNet(commands, ids[1..], memorandum, c);
      DeskRefinesLifecycle(commands, ids[0]);
      LifeNets(LifeAfter(commands, ids[0]), memorandum, c);
    }
  }

  /** After every run each currency is out by what stands contracted to be received in it less what
      stands contracted to be paid, so it balances exactly when the two are equal. */
  lemma NativeBalance(commands: seq<Command>, memorandum: bool, c: Currency)
    requires Minted(commands)
    ensures var log := Run(commands);
            var bought := Contracted(commands, Ids(commands), Received, memorandum, c);
            var sold := Contracted(commands, Ids(commands), Paid, memorandum, c);
            && TrialBalance(log, Accounts(memorandum), c) == bought - sold
            && (TrialBalance(log, Accounts(memorandum), c) == 0 <==> bought == sold)
  {
    TrialIsOverLives(commands, Accounts(memorandum), c);
    LivesNet(commands, Ids(commands), memorandum, c);
  }

  /** A run about one trade. */
  lemma OneTradeNets(commands: seq<Command>, id: string, memorandum: bool, c: Currency)
    requires Minted(commands) && Ids(commands) == [id] && !LifeAfter(commands, id).Absent?
    ensures var life := LifeAfter(commands, id);
            TrialBalance(Run(commands), Accounts(memorandum), c) ==
            Stands(life, memorandum) * InCurrency(life.deal.buy, c) -
            Stands(life, memorandum) * InCurrency(life.deal.sell, c)
  {
    hide TrialBalance, Run, LifeAfter, Stands;
    NativeBalance(commands, memorandum, c);
    assert [id][1..] == [];
  }

  lemma BookedThenSettled(id: string, t: Ticket, date: int)
    requires Acceptable(t) && t.settlementDate <= date && !Stuck(DealOf(t))
    ensures var booked := [Command.Book(id, t)];
            var settled := [Command.Book(id, t), Settle(Fx(id), date)];
            && Minted(booked) && Ids(booked) == [id] && LifeAfter(booked, id) == Booked(DealOf(t))
            && Minted(settled) && Ids(settled) == [id] && LifeAfter(settled, id) == Settled(DealOf(t))
  {
    var booked, settled := [Command.Book(id, t)], [Command.Book(id, t), Settle(Fx(id), date)];
    assert booked[..0] == [] && settled[..1] == booked;
  }

  /** One ticket, booked and then settled.  Booking puts the whole ledger out in the ticket's base
      currency and leaves the on-balance-sheet accounts alone; settling puts those out as well. */
  lemma OneTradeIsOutOfBalance(id: string, t: Ticket, date: int)
    requires Acceptable(t) && t.settlementDate <= date && !Stuck(DealOf(t))
    ensures var booked := [Command.Book(id, t)];
            var settled := [Command.Book(id, t), Settle(Fx(id), date)];
            var base := if t.buys then DealOf(t).buy else DealOf(t).sell;
            && (TrialBalance(Run(booked), Accounts(true), t.base) == 0 <==> base.minor == 0)
            && TrialBalance(Run(booked), Accounts(false), t.base) == 0
            && (TrialBalance(Run(settled), Accounts(false), t.base) == 0 <==> base.minor == 0)
  {
    hide TrialBalance, Run, LifeAfter, Ids, Minted;
    var booked, settled := [Command.Book(id, t)], [Command.Book(id, t), Settle(Fx(id), date)];
    BookedThenSettled(id, t, date);
    OneTradeNets(booked, id, true, t.base);
    OneTradeNets(booked, id, false, t.base);
    OneTradeNets(settled, id, false, t.base);
  }

  // ---------------------------------------------------------------- valued in the reporting currency

  /** Legs valued in the currency of `cost`: a leg in another currency counts as the cost of what moved. */
  function AtCost(legs: seq<Leg>, cost: Money): int {
    if legs == [] then 0
    else
      (if legs[0].currency == cost.currency then legs[0].amount
       else if legs[0].amount >= 0 then cost.minor else -(cost.minor as int)) +
      AtCost(legs[1..], cost)
  }

  /** The value an event posts in a reporting currency: a settled amount at the cost its holding was given,
      a conversion at the cost of what it sold. */
  function EventValue(full: seq<Event>, e: Event, r: Currency): int {
    match e
    case SettlementExecuted(_, _, _, holding, currency, movement, booked) =>
      var held := First(full, CreatedKey(holding));
      var legs := MovementLegs(currency, movement, booked, PaymentVersusPayment);
      if held.Some? && held.value.terms.CashTerms? && held.value.terms.costBasis.currency == r && legs.Some? then
        AtCost(legs.value, held.value.terms.costBasis)
      else 0
    case ConversionExecuted(_, _, _, sold, proceeds, cost, unrealised) =>
      if cost.currency == r then AtCost(ConversionLegs(sold, proceeds, cost, unrealised), cost) else 0
    case _ => 0
  }

  function ValueOf(full: seq<Event>, r: Currency): Event -> int {
    e => EventValue(full, e, r)
  }

  /** Debits less credits of the on-balance-sheet legs of events in a reporting currency. */
  function ValueAtCost(full: seq<Event>, events: seq<Event>, r: Currency): int {
    Sum(ValueOf(full, r), events)
  }

  lemma {:induction false} AtCostOfConcat(x: seq<Leg>, y: seq<Leg>, cost: Money)
    ensures AtCost(x + y, cost) == AtCost(x, cost) + AtCost(y, cost)
  {
    if x == [] {
      assert x + y == y;
    } else {
      assert (x + y)[1..] == x[1..] + y;
      AtCostOfConcat(x[1..], y, cost);
    }
  }

  lemma AtCostOfTwo(p: Leg, q: Leg, cost: Money)
    ensures AtCost([p, q], cost) == AtCost([p], cost) + AtCost([q], cost)
  {
    AtCostOfConcat([p], [q], cost);
    assert [p] + [q] == [p, q];
  }

  /** A conversion balances at cost, whatever the proceeds and whatever is reclassified. */
  lemma ConversionBalancesAtCost(sold: Money, proceeds: Money, cost: Money, unrealised: int)
    requires proceeds.currency == cost.currency != sold.currency
    ensures AtCost(ConversionLegs(sold, proceeds, cost, unrealised), cost) == 0
  {
    if sold.minor != 0 {
      var r := proceeds.currency;
      var inflow := Leg(NostroFor(r), r, proceeds.minor);
      var outflow := Leg(NostroFor(sold.currency), sold.currency, -(sold.minor as int));
      var gain := Leg(RealisedPnl, r, cost.minor - proceeds.minor);
      var back, across := Leg(UnrealisedPnl, r, unrealised), Leg(RealisedPnl, r, -unrealised);
      AtCostOfTwo(inflow, outflow, cost);
      AtCostOfTwo(back, across, cost);
      var first := if proceeds.minor == cost.minor then [] else [gain];
      var second := if unrealised == 0 then [] else [back, across];
      AtCostOfConcat([inflow, outflow], first, cost);
      AtCostOfConcat([inflow, outflow] + first, second, cost);
    }
  }

  lemma MovementAtCost(m: Money, side: Side, cost: Money)
    requires m.currency == cost.currency ==> m.minor == cost.minor
    ensures var legs := MovementLegs(m.currency, Signed(side, m.minor), m.minor, PaymentVersusPayment);
            legs.Some? && AtCost(legs.value, cost) == if m.minor == 0 then 0 else Signed(side, cost.minor)
  {
    if m.minor != 0 {
      var cash := Leg(NostroFor(m.currency), m.currency, Signed(side, m.minor));
      assert [cash] + [] == [cash] && [cash][1..] == [];
    }
  }

  lemma {:induction false} NoValue(full: seq<Event>, events: seq<Event>, r: Currency)
    requires forall e <- events :: !e.SettlementExecuted? && !e.ConversionExecuted?
    ensures ValueAtCost(full, events, r) == 0
  {
    if events != [] {
      assert events[0] in events;
      NoValue(full, events[1..], r);
    }
  }

  /** The look-ups of the two holdings. */
  ghost predicate Held(full: seq<Event>, id: string, d: Deal) {
    forall side: Side ::
      First(full, CreatedKey(FxTradeBook.Cash(id, side))) ==
      if HoldingLeg(id, d, side) == [] then None else Some(HoldingLeg(id, d, side)[0])
  }

  lemma LegValue(full: seq<Event>, id: string, d: Deal, side: Side, r: Currency)
    requires Two(d) && Held(full, id, d)
    ensures ValueAtCost(full, ExecutedLeg(id, d, side), r) ==
            if LegAmount(d, side).minor == 0 || r != Home(d) then 0 else Signed(side, HomeAmount(d))
  {
    var m := LegAmount(d, side);
    if m.minor != 0 {
      var e := ExecutedOf(Confirmation(id, d), CashLeg(side, m), d.prov);
      assert ExecutedLeg(id, d, side) == [e];
      SumOfOne(ValueOf(full, r), e);
      assert HoldingLeg(id, d, side)[0].terms.costBasis == Money(Home(d), HomeAmount(d));
      MovementAtCost(m, side, Money(Home(d), HomeAmount(d)));
      assert ValueOf(full, r)(e) == if r != Home(d) then 0 else Signed(side, HomeAmount(d));
    }
  }

  lemma SettlementValue(full: seq<Event>, id: string, d: Deal, r: Currency)
    requires Two(d) && Held(full, id, d)
    ensures ValueAtCost(full, Settlement(id, d), r) ==
            if r != Home(d) then 0
            else (if d.buy.minor == 0 then 0 else HomeAmount(d)) - (if d.sell.minor == 0 then 0 else HomeAmount(d))
  {
    var er, ep := ExecutedLeg(id, d, Received), ExecutedLeg(id, d, Paid);
    var rest := HoldingLeg(id, d, Received) + HoldingLeg(id, d, Paid) + [Closing(id, d)];
    SettlementParts(id, d);
    hide Settlement, ExecutedLeg, HoldingLeg, ValueOf, Sum;
    SumOfConcat(ValueOf(full, r), er, ep);
    SumOfConcat(ValueOf(full, r), er + ep, rest);
    LegValue(full, id, d, Received, r);
    LegValue(full, id, d, Paid, r);
    NoValue(full, rest, r);
  }

  lemma SettlementParts(id: string, d: Deal)
    ensures var rest := HoldingLeg(id, d, Received) + HoldingLeg(id, d, Paid) + [Closing(id, d)];
            && Settlement(id, d) == ExecutedLeg(id, d, Received) + ExecutedLeg(id, d, Paid) + rest
            && forall e <- rest :: !e.SettlementExecuted? && !e.ConversionExecuted?
  {
    var hr, hp := HoldingLeg(id, d, Received), HoldingLeg(id, d, Paid);
    assert forall e <- hr + hp :: e in hr || e in hp;
    assert forall e <- hr :: e.Created?;
    assert forall e <- hp :: e.Created?;
    hide ExecutedLeg, HoldingLeg;
  }

  lemma RealisationValue(full: seq<Event>, id: string, d: Deal, v: Conversion, r: Currency)
    requires Proper(Realised(d, v))
    ensures ValueAtCost(full, Realisation(id, d, v), r) == 0
  {
    var e := ConvertedOf(Holding(id, d), v);
    var closed := Terminated(v.asOf, d.prov, FxTradeBook.Cash(id, ForeignSide(d)));
    HomeFacts(d);
    ConversionBalancesAtCost(e.sold, e.proceeds, e.costBasis, e.unrealised);
    assert Realisation(id, d, v) == [e] + [closed];
    SumOfConcat(ValueOf(full, r), [e], [closed]);
    SumOfOne(ValueOf(full, r), e);
    SumOfOne(ValueOf(full, r), closed);
  }

  /** The reporting amount of a settled trade whose foreign amount rounded to nothing stands alone. */
  function Alone(life: Life, side: Side, r: Currency): nat {
    if (life.Settled? || life.Realised?) && r == Home(life.deal) && side != ForeignSide(life.deal) &&
       ForeignAmount(life.deal).minor == 0
    then HomeAmount(life.deal) else 0
  }

  lemma HoldingsAreHeld(log: seq<Event>, id: string, life: Life)
    requires Proper(life) && (life.Settled? || life.Realised?)
    requires View(log, id) == Trace(id, life)
    ensures Held(log, id, life.deal)
  {
    forall side: Side
      ensures First(log, CreatedKey(FxTradeBook.Cash(id, side))) ==
              if HoldingLeg(id, life.deal, side) == [] then None else Some(HoldingLeg(id, life.deal, side)[0])
    {
      LookUpsAreLocal(log, CreatedKey(FxTradeBook.Cash(id, side)));
      if life.Settled? {
        SettledLookUps(id, life.deal, side);
      } else {
        RealisedLookUps(id, life.deal, life.conversion, side);
      }
    }
  }

  lemma TraceAtCost(full: seq<Event>, id: string, life: Life, r: Currency)
    requires Proper(life)
    requires life.Settled? || life.Realised? ==> Held(full, id, life.deal)
    ensures ValueAtCost(full, Trace(id, life), r) == Alone(life, Received, r) - Alone(life, Paid, r)
  {
    if !life.Settled? && !life.Realised? {
      NoValue(full, Trace(id, life), r);
    } else {
      var d := life.deal;
      var before := Opening(id, d) + [Confirmation(id, d)];
      NoValue(full, before, r);
      SettlementValue(full, id, d, r);
      SumOfConcat(ValueOf(full, r), before, Settlement(id, d));
      if life.Realised? {
        RealisationValue(full, id, d, life.conversion, r);
        SumOfConcat(ValueOf(full, r), before + Settlement(id, d), Realisation(id, d, life.conversion));
      }
    }
  }

  lemma TradeAtCost(commands: seq<Command>, id: string, r: Currency)
    requires Minted(commands)
    ensures var log := Run(commands);
            var life := LifeAfter(commands, id);
            ValueAtCost(log, View(log, id), r) == Alone(life, Received, r) - Alone(life, Paid, r)
  {
    var life := LifeAfter(commands, id);
    DeskRefinesLifecycle(commands, id);
    if life.Settled? || life.Realised? {
      HoldingsAreHeld(Run(commands), id, life);
    }
    TraceAtCost(Run(commands), id, life, r);
  }

  /** The amounts standing alone, received or paid, over the trades of a run. */
  function StandingAlone(commands: seq<Command>, ids: seq<string>, side: Side, r: Currency): nat {
    if ids == [] then 0 else Alone(LifeAfter(commands, ids[0]), side, r) + StandingAlone(commands, ids[1..], side, r)
  }

  lemma {:induction false} ViewsAtCost(commands: seq<Command>, ids: seq<string>, r: Currency)
    requires Minted(commands)
    ensures SumOfViews(ValueOf(Run(commands), r), Run(commands), ids) ==
            StandingAlone(commands, ids, Received, r) - StandingAlone(commands, ids, Paid, r)
  {
    if ids != [] {
      TradeAtCost(commands, ids[0], r);
      ViewsAtCost(commands, ids[1..], r);
    }
  }

  /** After every run of bookings, settlements and conversions the ledger, in any reporting currency and
      at cost, is out by the reporting amounts standing alone and by nothing else. */
  lemma LedgerBalancesAtCost(commands: seq<Command>, r: Currency)
    requires Minted(commands)
    ensures var log := Run(commands);
            var received := StandingAlone(commands, Ids(commands), Received, r);
            var paid := StandingAlone(commands, Ids(commands), Paid, r);
            && ValueAtCost(log, log, r) == received - paid
            && (ValueAtCost(log, log, r) == 0 <==> received == paid)
  {
    RunByTrade(commands, ValueOf(Run(commands), r));
    ViewsAtCost(commands, Ids(commands), r);
  }

  lemma {:induction false} NoneStandsAlone(commands: seq<Command>, ids: seq<string>, side: Side, r: Currency)
    requires forall id <- ids :: Alone(LifeAfter(commands, id), side, r) == 0
    ensures StandingAlone(commands, ids, side, r) == 0
  {
    if ids != [] {
      assert ids[0] in ids;
      NoneStandsAlone(commands, ids[1..], side, r);
    }
  }

  /** A trade balances at cost exactly when its foreign amount did not round to nothing on its own, and a
      run of such trades balances in every reporting currency. */
  lemma SettlementBalancesAtCost(commands: seq<Command>, r: Currency)
    requires Minted(commands)
    ensures forall id :: (var life := LifeAfter(commands, id);
            life.Settled? || life.Realised? ==>
              (ValueAtCost(Run(commands), View(Run(commands), id), Home(life.deal)) == 0 <==>
               ForeignAmount(life.deal).minor != 0 || HomeAmount(life.deal) == 0))
    ensures (forall id <- Ids(commands) :: !LifeAfter(commands, id).Absent? ==>
              ForeignAmount(LifeAfter(commands, id).deal).minor != 0) ==>
            ValueAtCost(Run(commands), Run(commands), r) == 0
  {
    forall id | LifeAfter(commands, id).Settled? || LifeAfter(commands, id).Realised?
      ensures var life := LifeAfter(commands, id);
              ValueAtCost(Run(commands), View(Run(commands), id), Home(life.deal)) == 0 <==>
              ForeignAmount(life.deal).minor != 0 || HomeAmount(life.deal) == 0
    {
      TradeAtCost(commands, id, Home(LifeAfter(commands, id).deal));
    }
    if forall id <- Ids(commands) :: !LifeAfter(commands, id).Absent? ==>
         ForeignAmount(LifeAfter(commands, id).deal).minor != 0 {
      LedgerBalancesAtCost(commands, r);
      NoneStandsAlone(commands, Ids(commands), Received, r);
      NoneStandsAlone(commands, Ids(commands), Paid, r);
    }
  }
}
