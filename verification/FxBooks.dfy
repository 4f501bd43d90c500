/**
 The derived ledger read off the trades: what each trade leaves on each account, in figures of its own deal.
 */
module FxBooks {
  import opened Wrappers
  import opened FxTradeBook
  import opened FxLifecycle
  import FxTickets
  import opened FxLedger

  /** The account that holds a currency's cash; a currency without one is held in suspense. */
  predicate Holds(a: Account, c: Currency) {
    || (c == "ZAR" && a == NostroZar) || (c == "USD" && a == NostroUsd) || (c == "EUR" && a == NostroEur)
    || (c == "GBP" && a == NostroGbp) || (c == "JPY" && a == NostroJpy) || (c == "CHF" && a == NostroChf)
    || (c == "AUD" && a == NostroAud)
    || (c !in {"ZAR", "USD", "EUR", "GBP", "JPY", "CHF", "AUD"} && a == SettlementSuspense)
  }

  lemma NostroHolds(a: Account, c: Currency)
    ensures NostroFor(c) == a <==> Holds(a, c)
  {}

  /** The amount in a currency, or nothing. */
  function In(m: Money, c: Currency): int {
    if m.currency == c then m.minor else 0
  }

  /** What a trade at a stage leaves on an account in a currency: an open one its two commitments, a settled one the
      cash received less the cash paid, and a converted one that, the proceeds less the foreign amount sold, and the
      profit on it. */
  ghost predicate Leaves(life: Life, a: Account, c: Currency, amount: int) {
    match life
    case Absent => amount == 0
    case Booked(d) => amount == Contracted(d, a, c)
    case Unsettled(d) => amount == Contracted(d, a, c)
    case Settled(d) => amount == if Holds(a, c) then In(d.buy, c) - In(d.sell, c) else 0
    case Realised(d, v) =>
      exists proceeds: nat ::
        && FxTickets.Nearest(FxTickets.Foreign(d).1.minor as real * v.rate, proceeds)
        && amount == Converted(d, v, Money(FxTickets.Carried(d), proceeds), a, c)
  }

  function Contracted(d: Deal, a: Account, c: Currency): int {
    match a
    case BoughtCommitment => In(d.buy, c)
    case SoldCommitment => -In(d.sell, c)
    case _ => 0
  }

  function Converted(d: Deal, v: Conversion, proceeds: Money, a: Account, c: Currency): int {
    if Holds(a, c) then In(d.buy, c) - In(d.sell, c) + In(proceeds, c) - In(FxTickets.Foreign(d).1, c)
    else if a == RealisedPnl && c == proceeds.currency then FxTickets.Cost(d).minor - proceeds.minor - v.unrealised
    else if a == UnrealisedPnl && c == proceeds.currency then v.unrealised
    else 0
  }

  lemma CarriedIsHome(d: Deal)
    ensures FxTickets.Carried(d) == Home(d) && FxTickets.Cost(d) == Money(Home(d), HomeAmount(d))
    ensures FxTickets.Foreign(d) == (ForeignSide(d), ForeignAmount(d))
  {}

  lemma CashIn(m: Money, a: Account, c: Currency)
    ensures FxLedger.Cash(m, a, c) == if Holds(a, c) then In(m, c) else 0
  {
    NostroHolds(a, m.currency);
    hide Holds, NostroFor;
  }

  lemma ProfitHoldsNoCash(a: Account, c: Currency)
    ensures a.RealisedPnl? || a.UnrealisedPnl? || a.BoughtCommitment? || a.SoldCommitment? ==> !Holds(a, c)
  {}

  lemma LifeLeaves(life: Life, a: Account, c: Currency)
    requires Proper(life)
    ensures Leaves(life, a, c, LifeBalance(life, a, c))
  {
    hide Holds, NostroFor, FxLedger.Cash, In;
    match life
    case Absent =>
    case Booked(d) => CommittedIs(d, a, c);
    case Unsettled(d) => CommittedIs(d, a, c);
    case Settled(d) =>
      CashIn(d.buy, a, c);
      CashIn(d.sell, a, c);
    case Realised(d, v) => RealisedLeaves(d, v, a, c);
  }

  lemma CommittedIs(d: Deal, a: Account, c: Currency)
    ensures Committed(d, a, c) == Contracted(d, a, c)
  {}

  lemma RealisedLeaves(d: Deal, v: Conversion, a: Account, c: Currency)
    requires v.rate > 0.0
    ensures Leaves(Realised(d, v), a, c, LifeBalance(Realised(d, v), a, c))
  {
    hide Holds, NostroFor, Home, HomeAmount, ForeignAmount, FxTickets.Foreign, FxTickets.Carried, FxTickets.Cost,
         Proceeds, FxLedger.Cash, In, FxTickets.Nearest, LifeBalance, Converted;
    CarriedIsHome(d);
    ProceedsAreNearest(ForeignAmount(d).minor, v.rate);
    RealisedIs(d, v, a, c);
  }

  lemma RealisedIs(d: Deal, v: Conversion, a: Account, c: Currency)
    requires v.rate > 0.0
    ensures LifeBalance(Realised(d, v), a, c) ==
            Converted(d, v, Money(Home(d), Proceeds(ForeignAmount(d).minor, v.rate)), a, c)
  {
    hide Holds, NostroFor, Home, HomeAmount, ForeignAmount, FxTickets.Foreign, FxTickets.Carried, FxTickets.Cost,
         Proceeds, In;
    CarriedIsHome(d);
    ProfitHoldsNoCash(a, c);
    CashIn(d.buy, a, c);
    CashIn(d.sell, a, c);
    CashIn(ForeignAmount(d), a, c);
    var fetched := Money(Home(d), Proceeds(ForeignAmount(d).minor, v.rate));
    CashIn(fetched, a, c);
    assert FxLedger.Cash(fetched, a, c) == At(NostroFor(Home(d)), Home(d), a, c, fetched.minor);
  }

  lemma ProceedsAreNearest(held: nat, rate: real)
    requires rate > 0.0
    ensures FxTickets.Nearest(held as real * rate, Proceeds(held, rate))
  {
    assert held as real * rate >= 0.0;
  }

  /** The figures a run's trades leave, added up. */
  ghost predicate AddUp(commands: seq<Command>, ids: seq<string>, a: Account, c: Currency, figures: seq<int>,
                        total: int)
    decreases |ids|
  {
    && |figures| == |ids|
    && if ids == [] then total == 0
       else Leaves(LifeAfter(commands, ids[0]), a, c, figures[0]) &&
            AddUp(commands, ids[1..], a, c, figures[1..], total - figures[0])
  }

  lemma {:induction false} SumAddsUp(commands: seq<Command>, ids: seq<string>, a: Account, c: Currency)
    returns (figures: seq<int>)
    requires Minted(commands)
    ensures AddUp(commands, ids, a, c, figures, SumOfLives(commands, ids, a, c))
    decreases |ids|
  {
    hide LifeBalance, Leaves;
    if ids == [] {
      figures := [];
    } else {
      var rest := SumAddsUp(commands, ids[1..], a, c);
      DeskRefinesLifecycle(commands, ids[0]);
      LifeLeaves(LifeAfter(commands, ids[0]), a, c);
      figures := [LifeBalance(LifeAfter(commands, ids[0]), a, c)] + rest;
      assert figures[1..] == rest;
    }
  }

  /** MAIN: after any run, each balance of the ledger is the sum of what its trades leave on the account. */
  lemma LedgerReads(commands: seq<Command>, a: Account, c: Currency)
    requires Minted(commands)
    ensures exists figures :: AddUp(commands, Ids(commands), a, c, figures, Balance(Run(commands), a, c))
  {
    LedgerIsSumOfLives(commands, a, c);
    var figures := SumAddsUp(commands, Ids(commands), a, c);
  }
}
