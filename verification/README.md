# Verified model of the bank dashboard's hard parts

The dashboard is event-sourced: an append-only log, folds over it, caches of those folds, command
routes that look the log up before they append, and line-based parsers over legal text that must not
lose any of it. This project models those parts in Dafny and proves what they promise, for every input,
every run and every interleaving. `dafny verify dfyconfig.toml` checks all of it.

## What is here

| files | subject |
|---|---|
| `SnapshotReplay`, `SnapshotRuns`, `DecisionsRegister`, `DecisionsMeaning`, `RmsView` | snapshot plus delta against full replay, with other writers appending and other folds persisting snapshots between any two store calls; the real decisions reducer, and what its rows say of the log |
| `FxTradeBook`, `FxLifecycle`, `FxTickets`, `FxSafety`, `FxProvenance`, `FxLedger`, `FxBooks`, `FxBalance` | the manual FX desk: book, settle, convert over one shared log, the ledger the posting rules derive from it, and whether that ledger balances |
| `Eligibility`, `GatewayLog`, `CreditHeadroom`, `CreditMeaning`, `OrderGateway`, `GatewayMeaning`, `GatewayRuns` | counterparty eligibility, the credit engine's limit and exposure, and the eight-check order gateway, for any number of orders among any facts, with the exact condition for every reason a check can give |
| `AgentRuns` | the cursor-keyed cache with one shared fetch in flight |
| `Text`, `VerbatimBlocks`, `VerbatimHeading`, `VerbatimShapes`, `VerbatimConservation`, `VerbatimRegions`, `VerbatimRoundTrip`, `VerbatimReturns`, `VerbatimReparse` | the block parser for verbatim regulation text: what it reads, conservation, print and parse |
| `ChapterExtract`, `ChapterShapes`, `ChapterSelection`, `ChapterReading`, `ChapterRows` | the BCBS chapter extractor |
| `Footnotes`, `FootnoteReading` | lifting footnotes out of provision text |
| `ObligationIndex`, `ObligationTraces` | the provision/obligation reverse index and the reader's two views of it |
| `ResetEventStore`, `ResetMeaning` | the build-phase reset script: dry run against transaction |
| `SlaApproval` | publish, approve and withhold with four eyes |
| `AgentTrend`, `UnadoptedView`, `ViewMeaning`, `OwnershipMap` | pruning against windows, facets and pages, rollups |
| `Sequences`, `Spacing`, `Wrappers` | facts about concatenation, words and the space between them, and `Option` |

Code that changes state is written as classes and loops (`EventStore`, `TradeDesk`, `Gateway`,
`RunsCache`, `Store`, `ApprovalDesk`, and the methods beside them), each proved to do what a function on
values says; the theorems are about those functions.  What a function computes is in turn read off its
input alone (the `Meaning`, `Shapes`, `Reading`, `Regions`, `Tickets` and `Traces` files): a line by the
pieces it consists of, a row by the events that wrote it, a verdict by the facts on record.

## Where the code and its comments part

The model follows the code. Each of these is a theorem, with the exact condition or a witness.

* `rms-view.ts:289-293` says every row appended after the count is safe. A row appended between the
  clock reading and the count, dated after the reading, is claimed by the snapshot and never folded
  (`RowBetweenClockAndCountIsLost`). Reading through a snapshot equals full replay for every reducer
  that tolerates re-application exactly when the rows are undisturbed: each row up to the later time was
  folded by the snapshot or belongs to the delta, and none dated between the two times comes before one
  the snapshot folded (`ReadEqualsReplay`, `UndisturbedIsExact`).
* `projectFromSnapshot` looks the newest snapshot up twice, and the delta starts where the second look-up
  says. The condition covers that too (`SafeStepIsExact`); a snapshot persisted between the two look-ups
  can break it (`NewerSnapshotBetweenLookupsLoses`).
* `decisions.ts:151-152` says a resolution older than the one on record leaves the row's status unchanged.
  The code marks the row superseded, whatever it was (`RegisterSaysLog`).
* `trade-book-view.ts:1386-1402` says that after settlement the clearing account holds the negated
  settled cash. The posting rule settles payment against payment and never posts to clearing; the claim
  holds exactly in the currencies whose settled cash nets to zero (`DocumentedClearingInvariant`).
* Nor does the ledger balance currency by currency. After any run each currency is out by what stands
  contracted to be received in it less what stands contracted to be paid, with or without the memorandum
  accounts (`NativeBalance`); one trade alone already puts it out (`OneTradeIsOutOfBalance`). Valued in the
  reporting currency at cost, as `fx-settlement.ts:142-150` and `481-487` say it should be, it balances
  over every run but for reporting amounts whose foreign amount rounded to nothing
  (`LedgerBalancesAtCost`).
* A trade whose reporting-currency amount rounds to nothing while the other does not is confirmed and
  then can never settle (`SettlesExactlyWhen`, `StuckTickets`, `TinyTradeNeverSettles`).
* Converting a holding squares the position only when the foreign currency was received; a paid holding
  is drawn down a second time (`ConversionSquaresReceivedOnly`).
* `agent-runs.ts:10-11` calls a stale read impossible. In every run, a reader that missed the cache and
  joined a fetch started at a smaller count gets one, and no other reader does
  (`StaleExactlyWhenJoining`, `JoinedReaderIsStale`).
* `regulation-verbatim-blocks.ts:59-61` says "#### ###" is not a heading; the expression accepts it with
  text "#". Parsing what a parse prints gives it back exactly when no heading text ends in '#', no
  paragraph begins with a heading line, and no line of a paragraph but its last ends in a carriage return
  (`ReparseExact`, `ReparseTextExact`, `TwoCarriageReturnsShrink`).
* The reset's refusal to touch production events covers the directly deleted types only. A run that is not
  refused removes exactly the production records that describe a deleted type
  (`ProductionRemovedOnlyByCascade`, `ProductionRecordIsRemoved`). With nothing to delete the
  SQL list is the empty string, which decides what a second run does (`SecondRunIsSilent`,
  `EmptyReferenceGoesOnSecondRun`) and when the dry run is exact (`DryRunIsExact`).
* Approvals and withholds are replayed type by type before sorting by time, so a re-approval at the very
  instant of a withhold is lost (`LastWordIsLastAppended`, `ReapprovalWithinInstantIsLost`). Only the
  first publisher of a rule version is barred from approving it (`LaterPublisherMayApprove`).
* An approval at the gateway reserves no headroom: the exposure the credit check reads is the netting sets'
  latest computed figure, which no order changes (`HeadroomSeesFacts`, `OrdersReserveNothing`).
* `projection.ts:22-25` of the credit engine says a breach marks a limit breached until it is disposed of.
  The projection replays the event types one after another, so once a breach has been disposed of a later
  one no longer shows (`StatusMeans`, `LaterBreachIsHidden`).
* Token records dated ahead of the clock can prune what the trend still needs (`WindowKeptIff`,
  `FutureRecordErases`).

## Model

| member | source | states |
|---|---|---|
| SnapshotReplay.ReadEqualsReplay | prototype/dashboard/rms-view.ts:265-293 | For every reducer that tolerates ordered re-application: a snapshot plus the rows numbered above any starting point equals full replay at the later time, if the rows are undisturbed |
| SnapshotReplay.UndisturbedIsExact | prototype/dashboard/rms-view.ts:289-293 | The condition is exact, wherever the delta starts: for the reducer that remembers rows in order, the read equals the replay if and only if the rows are undisturbed |
| SnapshotReplay.Decomposition | prototype/dashboard/rms-view.ts:240-293 | Under that condition the full replay is A + X + Y where the snapshot folded exactly A + X and the delta is exactly X + Y |
| SnapshotReplay.MonotoneLog | prototype/dashboard/rms-view.ts:289-293 | When business times never decrease down the table only the rows the delta leaves out matter |
| SnapshotReplay.RecorderReapplicable | prototype/dashboard/rms-view.ts:289-293 | Remembering rows tolerates re-application, so the exactness result is about a reducer the theorem covers |
| SnapshotRuns.DeltaIsReplay | prototype/platform/projections/runtime.ts:104-190 | In any reachable store a safe delta replay computes the full replay, whether or not the two look-ups find the same snapshot |
| SnapshotRuns.SafeStepIsExact | prototype/platform/event-store/store.ts:1041-1056 | Safety is exact: in every such store the recorder's delta replay is a full replay if and only if the step is safe |
| SnapshotRuns.NewestMeans | prototype/platform/event-store/store.ts:1002-1013 | A look-up answers the snapshot of greatest claim at or before the time, the last stored among equals, or none if there is none |
| SnapshotRuns.DeltaRows | prototype/platform/event-store/store.ts:1041-1056 | A delta replays the rows above the claim its own look-up finds, and all rows when that finds none |
| SnapshotRuns.OneSnapshotPerClaim | prototype/platform/projections/runtime.ts:196-239 | In every run no two snapshots are stored for the same time and claim |
| SnapshotRuns.ClaimIsStored | prototype/platform/projections/runtime.ts:196-239 | When the cadence fires, a snapshot for the fold's time and claim is there afterwards, after all that were there before |
| SnapshotRuns.EveryReadIsAReplay | prototype/dashboard/rms-view.ts:265-309 | Over every interleaving of appends, clock readings, counts, look-ups, folds, persists and evictions in which delta steps are safe, every completed read is a full replay |
| SnapshotRuns.RegisterReadsAreReplays | prototype/dashboard/rms-view.ts:265-309 | The same for the decisions register the dashboard shows |
| SnapshotRuns.DisciplinedRunsAreSafe | prototype/dashboard/rms-view.ts:279-309 | Runs in which business times only grow, no row is dated ahead of the clock readings still in use, and no newer snapshot slips between the two look-ups are safe |
| SnapshotRuns.RowBetweenClockAndCountIsLost | prototype/dashboard/rms-view.ts:269-293 | A concrete run: a row between clock and count is in the full replay and missing from the read |
| SnapshotRuns.CountingAfterTheFoldLoses | prototype/dashboard/rms-view.ts:279-288 | Counting after the fold loses an event that counting before it keeps |
| SnapshotRuns.NewerSnapshotBetweenLookupsLoses | prototype/platform/event-store/store.ts:1002-1060 | A snapshot persisted between the two look-ups makes the read miss a row |
| DecisionsRegister.RowsAreIndependent | prototype/platform/rms-registers/decisions.ts:77-305 | The register folds each decision's row on its own |
| DecisionsRegister.RowReapplied | prototype/platform/rms-registers/decisions.ts:77-305 | Applying a batch of events to a row again, in order, changes nothing |
| DecisionsRegister.DecisionsReapplicable | prototype/platform/rms-registers/decisions.ts:77-305 | The whole reducer tolerates ordered re-application from every state, row order included |
| DecisionsMeaning.RegisterSaysLog | prototype/platform/rms-registers/decisions.ts:77-305 | After a full replay a decision has a row exactly when some event names it; its request side is the last request's, or else the stub of its first resolution; its resolution is the resolving event of greatest time, last in the log among equals; its status is open, superseded if a resolution came after the one that prevails, revision-requested exactly when that one asks for it, or resolved |
| DecisionsMeaning.RowsAreListedAsNamed | prototype/platform/rms-registers/decisions.ts:77-305 | The rows are listed in the order in which the events first named their decisions, each once |
| DecisionsMeaning.EffectIs | prototype/platform/rms-registers/decisions.ts:85-305 | Which events ask for a decision, which settle it, and what each puts into the row, in either vocabulary |
| RmsView.EventStore.LoadSnapshot | prototype/platform/event-store/store.ts:1002-1013 | The loop answers the newest snapshot in the window |
| RmsView.EventStore.ProjectFromSnapshot | prototype/platform/projections/runtime.ts:104-190 | The read is the full replay whenever the newest snapshot is readable |
| RmsView.EventStore.MaybeSnapshot | prototype/platform/projections/runtime.ts:196-239 | A snapshot is added once per time and claim, and only when the cadence fires |
| RmsView.EventStore.BuildDecisionsFold | prototype/dashboard/rms-view.ts:265-309 | Count, fold, persist: the state is the full replay, every row says what the replayed events say, and the store stays valid |
| FxTradeBook.TradeDesk.Book | prototype/dashboard/trade-book-view.ts:1144-1349 | Appends the agreed sequence and the instrument, or nothing for an unacceptable ticket |
| FxTradeBook.TradeDesk.Settle | prototype/dashboard/trade-book-view.ts:1439-1580 | The whole new log after a settle command, and exactly when it answers yes |
| FxTradeBook.TradeDesk.SettleSeam | prototype/platform/markets/settlement/settle-fx-leg.ts:77-243 | Settlement events, holdings and close in order, nothing at all when a leg has no cost basis |
| FxTradeBook.TradeDesk.Convert | prototype/dashboard/trade-book-view.ts:1669-1824 | The whole new log after a convert command, and exactly when it answers yes |
| FxTradeBook.HalfUp | prototype/dashboard/trade-book-view.ts:1733-1737 | The rounded amount is within half a unit, halves upwards |
| FxLifecycle.StepIsLocal | prototype/dashboard/trade-book-view.ts:1439-1824 | A command reads and writes the events of its own trade only |
| FxLifecycle.SeamOnConfirmed | prototype/v2-core/fil-instances/cash-materialisation.ts:163-325 | On a confirmed trade the seam appends the settled legs, their holdings at the reporting amount and the close, or nothing if the reporting amount rounded away |
| FxLifecycle.StepFollowsMachine | prototype/dashboard/trade-book-view.ts:1144-1824 | On one trade's events each command does what a five-state machine does |
| FxLifecycle.DeskRefinesLifecycle | prototype/dashboard/trade-book-view.ts:1144-1824 | After any run the events of each trade, in log order, are the trace of its own machine, whatever other trades did |
| FxTickets.BaseAmountIsClose | prototype/dashboard/trade-book-view.ts:1246-1257 | For a notional in the quote currency the base amount is the quotient to within half a hundred-millionth, and times the rate it is the notional to within that much of the rate |
| FxTickets.PricedIsClose | prototype/platform/markets/products/book-affirmed-fx-trade.ts:130-146 | How far each booked amount is from what was typed: half a cent in the notional's own currency when that is the base, and half a cent plus half a millionth of a unit of the rate otherwise |
| FxTickets.TypedIsBooked | prototype/dashboard/trade-book-view.ts:1246-1257 | A quote-currency notional in whole cents is booked as typed when the rate is below a million |
| FxTickets.BookingReads | prototype/dashboard/trade-book-view.ts:1144-1349 | Booking appends nothing for an ill-typed ticket; otherwise the confirmation, the affirmation and, under a new id, the instrument, with the ticket's dates, scenario, currencies and amounts |
| FxTickets.RunReads | prototype/dashboard/trade-book-view.ts:1144-1824 | After any run every event of a trade is spelled out, field by field, by one ticket booked for it and the state its commands led to: which holding is long, what each costs, what a conversion fetches |
| FxSafety.EachFactOnce | prototype/dashboard/trade-book-view.ts:1466-1545 | In every run each instrument is created and terminated at most once, each trade confirmed at most once, each leg executed at most once |
| FxSafety.NothingSettlesEarly | prototype/dashboard/trade-book-view.ts:1483-1492 | Every settlement fact bears the value date and someone asked to settle that trade on or after it |
| FxSafety.RepeatIsSilent | prototype/dashboard/trade-book-view.ts:1432-1437 | Repeating a settle or convert command leaves the log unchanged, whatever the first attempt did |
| FxSafety.ClosedIsClosed | prototype/dashboard/trade-book-view.ts:1722-1727 | Once an instrument is closed no settle or convert of it, at any date or rate, changes the log |
| FxSafety.SettlesExactlyWhen | prototype/dashboard/trade-book-view.ts:1483-1572 | The route answers yes exactly when the trade is closed afterwards: from the value date on, unless the reporting amount rounded away |
| FxSafety.ConvertsExactlyWhen | prototype/dashboard/trade-book-view.ts:1672-1727 | The convert route answers yes exactly for the foreign holding of a settled trade at a positive rate, which is then closed, now or since earlier |
| FxSafety.StuckTickets | prototype/platform/markets/products/book-affirmed-fx-trade.ts:130-146 | The tickets of any currency pair that can never settle, in terms of base amount and rate: worth half a cent in the foreign currency and less in the reporting one |
| FxSafety.TinyTradeNeverSettles | prototype/v2-core/fil-instances/cash-materialisation.ts:247-259 | One such trade, confirmed at its value date, refused for ever |
| FxProvenance.LensShowsARun | prototype/dashboard/trade-book-view.ts:1380-1384 | What a provenance filter keeps of a run is itself the run of the bookings it admits |
| FxProvenance.WholeLifecycleOrNone | prototype/dashboard/trade-book-view.ts:1617-1620 | A filter keeps a trade's whole lifecycle or none of it |
| FxLedger.LegPosts | prototype/v2-core/posting-rules/fx-settlement.ts:301-354 | What a settled leg posts in either settlement mode; the rule never refuses |
| FxLedger.ConversionPosts | prototype/v2-core/posting-rules/fx-settlement.ts:457-543 | What a conversion posts to every account in every currency |
| FxLedger.OpeningPosts | prototype/v2-core/posting-rules/fx.ts:376-408 | A trade's commitment stands while it is open and is released by its settlement |
| FxLedger.LedgerIsSumOfLives | prototype/platform/accounting/posting-rules-v2/fx-instance-fold.ts:315-595 | After every run each balance of the derived ledger is the sum over trades of a closed form in the trade's state |
| FxBooks.LedgerReads | prototype/platform/accounting/posting-rules-v2/fx-instance-fold.ts:315-595 | After every run each balance, account by account and currency by currency, is the sum of what the trades leave there: commitments while open, cash received less cash paid once settled, and after a conversion the proceeds less what was sold and the profit, with the seven cash accounts named |
| FxLedger.SettlingStrikesNoProfit | prototype/dashboard/trade-book-view.ts:1396-1399 | Settling changes no profit-and-loss balance |
| FxLedger.DocumentedClearingInvariant | prototype/dashboard/trade-book-view.ts:1386-1396 | The clearing promise holds exactly where settled cash nets to zero; under sequential clearing it would hold everywhere |
| FxLedger.SequentialClearingMirrorsCash | prototype/v2-core/posting-rules/fx-settlement.ts:335-354 | Under sequential clearing the clearing account is the negation of settled cash in each currency |
| FxLedger.ConversionsArePriced | prototype/dashboard/trade-book-view.ts:1729-1740 | Each conversion sells a whole holding within half a cent of amount times rate, at the cost stamped on it |
| FxLedger.RealisedIsProceedsLessCost | prototype/platform/accounting/posting-rules-v2/fx-conversion-fold.ts:65-93 | Over every run total profit in a currency is proceeds less cost; reclassification only moves it |
| FxLedger.ConversionSquaresReceivedOnly | prototype/v2-core/posting-rules/fx-settlement.ts:457-500 | A conversion leaves no foreign position exactly when the foreign currency was received |
| FxBalance.NativeBalance | prototype/platform/projections/gl-projection-v2.ts:334-351 | After every run the accounts, with or without the memorandum ones, are out in each currency by what stands contracted to be received less what stands contracted to be paid, and balance exactly when these are equal |
| FxBalance.OneTradeIsOutOfBalance | prototype/v2-core/posting-rules/fx-settlement.ts:142-150 | One booking puts the whole ledger out in the base currency and leaves the on-balance-sheet accounts alone; its settlement puts those out too |
| FxBalance.ConversionBalancesAtCost | prototype/v2-core/posting-rules/fx-settlement.ts:473-543 | A conversion's legs, reclassification included, sum to nothing in the reporting currency at cost |
| FxBalance.LedgerBalancesAtCost | prototype/platform/projections/gl-projection-v2.ts:354-427 | After every run of bookings, settlements and conversions the ledger at cost is out in each reporting currency by the amounts standing alone, received less paid, and by nothing else |
| FxBalance.SettlementBalancesAtCost | prototype/v2-core/posting-rules/fx-settlement.ts:128-150 | A settled trade balances at cost exactly when its foreign amount did not round away alone; a run of such trades balances in every reporting currency |
| Eligibility.BuildCounterpartiesView | prototype/dashboard/markets-fx-counterparties.ts:73-162 | The loops list exactly the eligible counterparties, each once |
| Eligibility.FoldIsDeclarative | prototype/dashboard/markets-fx-counterparties.ts:93-158 | Eligible if and only if the screening of greatest time, last in the log among equals, is institutional and no breach lacks a strictly later revalidation |
| Eligibility.BreachFlagMeaning | prototype/dashboard/markets-fx-counterparties.ts:137-144 | The flag of the pass means that some breach has no strictly later revalidation |
| Eligibility.BreachFlagIsOrderFree | prototype/dashboard/markets-fx-counterparties.ts:137-144 | The breach flag is the same for every permutation of the log |
| Eligibility.OutcomeDependsOnOrder | prototype/dashboard/markets-fx-counterparties.ts:115-119 | The screening outcome is not: ties are decided by log order |
| OrderGateway.Gateway.RouteOrder | prototype/dashboard/markets-fx-gateway.ts:175-494 | The whole new log and the result; an order with a verdict appends nothing |
| OrderGateway.Gateway.RunChecks | prototype/dashboard/markets-fx-gateway.ts:205-494 | Verdicts read from the growing log equal verdicts on the log at entry |
| OrderGateway.VerdictSeesFacts | prototype/dashboard/markets-fx-gateway.ts:249-400 | A verdict depends on the facts in the log alone; proposals, requests, completions, approvals and rejections are invisible to all eight checks |
| CreditHeadroom.HeadroomSeesFacts | prototype/platform/risk/credit-limit-engine/pre-deal-check.ts:103-179 | Limit, exposure and headroom read from the log are the same for logs with the same facts, whatever the gateway appended |
| CreditHeadroom.StatusMeans | prototype/platform/risk/credit-limit-engine/projection.ts:136-235 | A limit is live exactly when it was never withdrawn and either was loaded and never breached or some disposal put it back, whatever the order of breaches and disposals |
| CreditHeadroom.LaterBreachIsHidden | prototype/platform/risk/credit-limit-engine/projection.ts:181-198 | Once a breach was disposed of by other than acceptance, a further breach leaves the limit live |
| CreditMeaning.LimitReads | prototype/platform/risk/credit-limit-engine/projection.ts:136-311 | The limit's amount and currency are those of the last review that set one, or else of the last load, or else of the last approval; its expiry that of the last dated approval; its anchor the last review, or else the last approval; and when it is live |
| CreditMeaning.LatestIsFigure | prototype/platform/risk/credit-limit-engine/pre-deal-check.ts:115-145 | The figure of a netting set is the one of greatest date, last on record among equals |
| CreditMeaning.ExposureReads | prototype/platform/risk/credit-limit-engine/pre-deal-check.ts:103-179 | The exposure is the sum, over the netting sets on record, of the default exposure or else the replacement cost, other currencies counting for nothing |
| CreditMeaning.BlockMeans | prototype/platform/risk/credit-limit-engine/pre-deal-check.ts:222-305 | The credit check passes if and only if the limit is live, not expired and not stale, and exposure plus proposal is less than its amount; and the exact condition of each of its four refusals |
| GatewayMeaning.VerdictMeans | prototype/dashboard/markets-fx-gateway.ts:255-400 | A check rejects for a reason if and only if the facts on record, the order and the thresholds say so, for each of the thirteen reasons of the eight checks |
| GatewayMeaning.CapitalMeans | prototype/platform/risk/fx-gateway-thresholds.ts:239-282 | A buy is refused for capital exactly when it is not quoted in rand, has no risk weight, or the last total plus the rounded weighted value exceeds the ceiling |
| GatewayMeaning.FundingMeans | prototype/platform/risk/fx-gateway-thresholds.ts:292-322 | A buy is refused for funding exactly when it is not quoted in rand or its outflow takes the ratio below the floor |
| GatewayRuns.TraceShape | prototype/dashboard/markets-fx-gateway.ts:205-494 | An order's trace: proposal, eight request/completion pairs in fixed order, one verdict |
| GatewayRuns.VerdictOfOrder | prototype/dashboard/markets-fx-gateway.ts:439-494 | Approved if and only if all eight approve; a rejection names a failing check, before which in the fixed order every check approves, and its reason |
| GatewayRuns.OrderLeavesOneTrace | prototype/dashboard/markets-fx-gateway.ts:175-494 | After any run each order has left exactly one trace, computed from the log at its first submission |
| GatewayRuns.CompletionsNameTheirRequests | prototype/dashboard/markets-fx-gateway.ts:236-430 | In the log itself each completion names the position of its own request and each request its proposal |
| GatewayRuns.LaterLookUpAgrees | prototype/dashboard/markets-fx-gateway.ts:129-169 | Looking an order up after any further run gives the same status, check, reason and time |
| GatewayRuns.OrdersReserveNothing | prototype/platform/risk/credit-limit-engine/pre-deal-check.ts:103-179 | Two like orders on the same facts get the same verdict however many were approved before: exposures are read by event type and no approval is among them |
| GatewayRuns.ApprovedExactlyWhenCleared | prototype/dashboard/markets-fx-gateway.ts:255-400 | An order is approved exactly when its counterparty is on record, accepted, unblocked, eligible, classified and documented, and its value in cents fits the credit limit, the capital ceiling and the liquidity floor, each stated on the facts at entry |
| AgentRuns.RunsCache.GetAgentRuns | prototype/dashboard/agent-runs.ts:251-267 | A hit is served only at the current count; a miss joins the fetch in flight or starts one |
| AgentRuns.RunsCache.FetchFinished | prototype/dashboard/agent-runs.ts:268-290 | Success replaces the cached runs; failure keeps them and records the error at the new count |
| AgentRuns.EveryRunIsSound | prototype/dashboard/agent-runs.ts:239-297 | The invariant of every interleaving of appends, requests and fetch outcomes |
| AgentRuns.OneFetchPerCount | prototype/dashboard/agent-runs.ts:7-15 | Start counts strictly increase, the fetch in flight is above the cached count, the cache holds the last success and the error of the last fetch |
| AgentRuns.AnswersAreAccountedFor | prototype/dashboard/agent-runs.ts:239-297 | In every run each answer belongs to a request and reflects exactly the fetch in flight at that request, or started by it, or that filled the cache it hit; its runs are the last success up to that fetch |
| AgentRuns.StaleExactlyWhenJoining | prototype/dashboard/agent-runs.ts:7-15 | In every run an answer is older than the store its reader saw exactly when its request missed the cache and joined a fetch started at a smaller count |
| AgentRuns.RequestIsAnswered | prototype/dashboard/agent-runs.ts:260-267 | Whatever appends and requests come in between, a request has been answered, and by its own fetch, when the next fetch finishes |
| AgentRuns.JoinedReaderIsStale | prototype/dashboard/agent-runs.ts:260-267 | A run with such a reader |
| VerbatimBlocks.ParseVerbatimBlocks | prototype/dashboard/regulation-verbatim-blocks.ts:110-206 | The nested loops terminate and compute the recursive reading of the text |
| VerbatimBlocks.FlushParagraphs | prototype/dashboard/regulation-verbatim-blocks.ts:117-136 | Buffered lines become paragraphs at blank lines |
| VerbatimBlocks.FitRow | prototype/dashboard/regulation-verbatim-blocks.ts:178-191 | Every row gets the header's width: short rows are padded, long ones re-joined |
| VerbatimHeading.ContentIsShortest | prototype/dashboard/regulation-verbatim-blocks.ts:55-69 | The heading text is what the expression's lazy group takes: blanks, hashes, blanks follow it and no shorter text |
| VerbatimHeading.HeadingIsPreferredMatch | prototype/dashboard/regulation-verbatim-blocks.ts:55-69 | A line is a heading if and only if the expression has a match whose text is not blank, and the heading is then the match a backtracking matcher prefers: longest hashes, longest white space, shortest text |
| VerbatimShapes.CellsAre | prototype/dashboard/regulation-verbatim-blocks.ts:73-78 | The cells of a row are what stands between its pipes, less one pipe at each end if there is one, each trimmed; and nothing else is |
| VerbatimShapes.SeparatorIs | prototype/dashboard/regulation-verbatim-blocks.ts:83-87 | A line is a separator row if and only if each of its cells is dashes with a colon or none before them and after them |
| VerbatimShapes.SeparatorIsRuled | prototype/dashboard/regulation-verbatim-blocks.ts:83-87 | The line a table drops holds only dashes, colons, pipes and white space |
| VerbatimRegions.SegmentIsWellCut | prototype/dashboard/regulation-verbatim-blocks.ts:138-205 | The lines are cut so that every heading line stands alone, a table is a row over a separator row of as many cells and all the rows that follow, and no line of prose is a heading or begins a table |
| VerbatimRegions.OneWellCut | prototype/dashboard/regulation-verbatim-blocks.ts:138-205 | There is no other such cut |
| VerbatimRegions.GroupIsParagraphs | prototype/dashboard/regulation-verbatim-blocks.ts:117-136 | Prose becomes one paragraph for each maximal run of lines with ink, its lines joined by line breaks and trimmed |
| VerbatimRegions.ParseTextReads | prototype/dashboard/regulation-verbatim-blocks.ts:110-206 | The blocks of a text: its lines, once each carriage return before a line feed is taken out, cut in that one way, each part become its heading, its table with every row fitted to the header, or its paragraphs |
| VerbatimConservation.ParseIsSegmented | prototype/dashboard/regulation-verbatim-blocks.ts:138-205 | The parse is the blocks of a segmentation of the lines into headings, tables and prose |
| VerbatimConservation.SegmentCovers | prototype/dashboard/regulation-verbatim-blocks.ts:138-205 | The segments hold every line once, in order |
| VerbatimConservation.EveryCharacterIsAccountedFor | prototype/dashboard/regulation-verbatim-blocks.ts:15-18 | For every text the blocks read in order hold each non-blank character once and in order, save separator rows, table pipes and heading hashes |
| VerbatimConservation.WordingIsConserved | prototype/dashboard/regulation-verbatim-blocks.ts:15-18 | The wording (no pipes, hashes or blanks) of the kept lines is the wording of the blocks |
| VerbatimConservation.HeadingKeepsInk | prototype/dashboard/regulation-verbatim-blocks.ts:55-69 | A heading line is hashes, its text and closing hashes |
| VerbatimConservation.RowKeepsInk | prototype/dashboard/regulation-verbatim-blocks.ts:73-78 | A fitted row holds the line's characters with pipes only between cells and at the ends |
| VerbatimRoundTrip.PrintedCanonicalRow | prototype/dashboard/regulation-verbatim-blocks.ts:73-78 | A printed row reads back, the re-joined over-wide last cell included |
| VerbatimRoundTrip.PrintedBlocks | prototype/dashboard/regulation-verbatim-blocks.ts:110-206 | Canonical blocks, printed line by line, parse back to themselves |
| VerbatimReparse.RoundTrip | prototype/dashboard/regulation-verbatim-blocks.ts:110-206 | Parsing the printed text of canonical blocks gives the blocks |
| VerbatimReparse.ParseIsNearlyCanonical | prototype/dashboard/regulation-verbatim-blocks.ts:110-206 | Whatever the input, the parsed blocks are canonical but for two named families |
| VerbatimReparse.ReparseExact | prototype/dashboard/regulation-verbatim-blocks.ts:55-86 | Parsing what a parse prints gives it back if and only if it has none of the two families |
| VerbatimReparse.ReparseTextExact | prototype/dashboard/regulation-verbatim-blocks.ts:110-114 | For every text: parsing what its parse prints gives the parse back if and only if it has none of the two families and no paragraph line but the last ends in a carriage return |
| VerbatimReparse.PlainSourcesArePlain | prototype/dashboard/regulation-verbatim-blocks.ts:110-114 | A text without a line feed after two carriage returns never has the latter |
| VerbatimReturns.ReturnsAreLost | prototype/dashboard/regulation-verbatim-blocks.ts:110-206 | Blocks that print a line feed after a carriage return do not come back, for no step of the parse adds a carriage return |
| VerbatimReparse.TwoCarriageReturnsShrink | prototype/dashboard/regulation-verbatim-blocks.ts:110-114 | A text whose re-parse differs because of doubled carriage returns |
| ChapterExtract.Extract | Regulations/BCBS/extract-chapters.py:43-95 | The loop over the local variables computes the scan |
| ChapterSelection.ScanIsSound | Regulations/BCBS/extract-chapters.py:43-95 | At every line pending means a heading is set and no paragraph open; the open paragraph is the last of the chapter in force |
| ChapterSelection.ParagraphsSitWhereNumbered | Regulations/BCBS/extract-chapters.py:70-80 | Every paragraph is in the chapter its own number names |
| ChapterSelection.ChapterIsSelection | Regulations/BCBS/extract-chapters.py:43-95 | A chapter's text is exactly the lines that belong to it, defined by looking at the document alone, each once and in order |
| ChapterSelection.OneChapterPerLine | Regulations/BCBS/extract-chapters.py:43-95 | No line is used in two chapters |
| ChapterReading.ChapterReads | Regulations/BCBS/extract-chapters.py:43-95 | Each chapter of the output is the list of the paragraphs that start in it, in order, each with the number on its start line, read in decimal, the heading in force there and the lines that continue it |
| ChapterReading.HeadingIsMeant | Regulations/BCBS/extract-chapters.py:79-93 | The heading in force is that of the last heading line since the last chapter header, with the wrapped lines that carry it on while nothing has opened or closed a paragraph, joined at a hyphen without a space; or none |
| ChapterReading.ShapeMeans | Regulations/BCBS/extract-chapters.py:18-40 | Every line's shape by what it is made of |
| ChapterShapes.HeaderIs | Regulations/BCBS/extract-chapters.py:18-18 | A chapter header is eight or more spaces, two to four capitals, two decimal digits and spaces |
| ChapterShapes.StartIs | Regulations/BCBS/extract-chapters.py:19-19 | A paragraph start is two digits, a full stop, digits, spaces and text, and these are its number and its text |
| ChapterShapes.SupplementIs | Regulations/BCBS/extract-chapters.py:21-21 | Supplementary material opens with one of six words, in full, in any case |
| ChapterRows.RowReads | Regulations/BCBS/extract-chapters.py:97-106 | A row's text is the words of its paragraph in order, with one space between them |
| ChapterSelection.ChapterTextIsConserved | Regulations/BCBS/extract-chapters.py:97-106 | The written rows have exactly the characters of the selected lines |
| ObligationIndex.KeyIsInjective | prototype/dashboard/regulation-obligation-index.ts:63-65 | Keys are equal only for equal slug and provision, when slugs have no colon |
| ObligationIndex.KeysCollide | prototype/dashboard/regulation-obligation-index.ts:63-65 | Two slugs can share a key exactly when one, closed by two colons, begins the other closed likewise; with a colon this happens |
| ObligationIndex.SlugRoundTrip | prototype/dashboard/regulation-obligation-index.ts:73-79 | The slug is read back from a section id exactly when the section number has no dash |
| ObligationIndex.OwnedProvisions | prototype/dashboard/regulation-obligation-index.ts:189-202 | The two loops collect an obligation's provisions |
| ObligationIndex.OwnedIsTraced | prototype/dashboard/regulation-obligation-index.ts:184-202 | They hold exactly the provisions it traces to by edge or source, each once |
| ObligationIndex.BuildIndex | prototype/dashboard/regulation-obligation-index.ts:124-219 | Each key lists the obligations owning it in order of adoption |
| ObligationIndex.ListedExactlyWhenTraced | prototype/dashboard/regulation-obligation-index.ts:211-216 | Listed under a provision's key exactly once if it traces there, and not otherwise |
| ObligationIndex.DerivedObligations | prototype/dashboard/regulation-reader-view.ts:604-622 | A section lists each obligation once, whichever of its ids it came by |
| ObligationIndex.SourceLinks | prototype/dashboard/regulation-reader-view.ts:757-774 | An obligation's provisions grouped by regulation |
| ObligationIndex.ViewsAreInverse | prototype/dashboard/regulation-reader-view.ts:588-622 | A section lists an obligation exactly when the obligation links back to one of the section's ids |
| ObligationTraces.SlugMeans | prototype/dashboard/regulation-obligation-index.ts:73-79 | The slug of a graph id: what stands between the mark and the last dash, which introduces a section, or else the chapter of a Basel id, in small letters |
| ObligationTraces.TracesMeans | prototype/dashboard/regulation-obligation-index.ts:103-202 | An obligation traces to a provision by an edge from it, or as a stated source under the cited document or else under the regulation the id names |
| ObligationTraces.CandidatesMean | prototype/dashboard/regulation-reader-view.ts:588-597 | The ids a section goes by, each once |
| ObligationTraces.SectionLists | prototype/dashboard/regulation-reader-view.ts:604-622 | A section lists an adopted obligation if and only if it traces, under that regulation, to an id the section goes by, in terms of the spelling of the ids |
| Footnotes.ParseFootnotes | prototype/dashboard/bank-obligations-view.ts:427-465 | The loops terminate and compute the lifting |
| Footnotes.WalkApparatus | prototype/dashboard/bank-obligations-view.ts:446-459 | The walk along one block cuts it at each next number |
| Footnotes.NumberedConsecutively | prototype/dashboard/bank-obligations-view.ts:446-459 | A block's notes are numbered consecutively from its first number |
| FootnoteReading.PartsAre | prototype/dashboard/bank-obligations-view.ts:432-432 | The text is divided at the earliest separator, white space or none, the word and white space, and again in what follows |
| FootnoteReading.NotesAre | prototype/dashboard/bank-obligations-view.ts:446-459 | Each note ends at the earliest place where the next number, in decimal, stands after a stop and white space and before white space and a capital or bracket |
| FootnoteReading.TextReads | prototype/dashboard/bank-obligations-view.ts:427-465 | Body and notes of a text: the words of the first part and of the parts that do not begin with one to three digits and white space, and the notes with any words of the others, in order |
| Footnotes.TextIsAccountedFor | prototype/dashboard/bank-obligations-view.ts:427-465 | In order: the first part, then for each block the word and the block's own content |
| Footnotes.EveryCharacterEndsUpSomewhere | prototype/dashboard/bank-obligations-view.ts:427-465 | The non-blank characters of body and notes together are those of the text less the word per block and the note numbers |
| ResetEventStore.Store.DryRun | ops/reset-event-store.ts:177-252 | The count the dry run reports |
| ResetEventStore.Store.Emit | ops/reset-event-store.ts:273-331 | Refuses on production events in scope; otherwise the whole new store |
| ResetEventStore.WipedIsSurviving | ops/reset-event-store.ts:286-304 | The deletions, statement by statement, keep exactly the events not doomed, in order |
| ResetMeaning.ResetReads | ops/reset-event-store.ts:128-331 | The reset refuses exactly when a production event is of a listed type; otherwise what stays are the events neither of a listed type nor citing one, in order, and an approved production Decision is added if none is left |
| ResetMeaning.DryRunReads | ops/reset-event-store.ts:202-250 | The dry run counts the events of a type to be deleted and those that cite one |
| ResetMeaning.ClassMeans | ops/reset-event-store.ts:128-134 | Kept before describing before deleted: a type is deleted if it is listed or of a listed family and neither kept nor describing |
| ResetMeaning.ShippedDescribes | ops/reset-event-store.ts:113-118 | The four describing types the script ships with, and which of them lists several |
| ResetEventStore.DryRunIsExact | ops/reset-event-store.ts:202-250 | The transaction removes what the dry run counted, plus untyped events when no type is to be deleted |
| ResetEventStore.RemainingCount | ops/reset-event-store.ts:313-346 | What is left: total less counted, plus one if the Decision is newly recorded |
| ResetEventStore.KeptTypesSurvive | ops/reset-event-store.ts:128-134 | No event of a kept type is removed |
| ResetEventStore.ProductionRemovedOnlyByCascade | ops/reset-event-store.ts:192-200 | When the run is not refused, a production event is removed if and only if it is a describing record whose reference is to the types being deleted |
| ResetEventStore.ProductionSparedExactlyWhen | ops/reset-event-store.ts:192-200 | Such a run spares every production event exactly when there is no such record |
| ResetEventStore.ProductionRecordIsRemoved | ops/reset-event-store.ts:273-277 | And then it is removed although the run was not refused |
| ResetEventStore.ClaimsPointAtSurvivors | ops/reset-event-store.ts:306-306 | Dispatch claims left are those of events left |
| ResetEventStore.SecondRunIsSilent | ops/reset-event-store.ts:281-304 | A second run removes nothing exactly when nothing left is untyped or refers to the empty type only |
| ResetEventStore.EmptyReferenceGoesOnSecondRun | ops/reset-event-store.ts:281-304 | A record referring to the empty string survives the first run and not the second |
| ResetEventStore.ShippedIsSane | ops/reset-event-store.ts:47-122 | The shipped scope keeps Decisions and the empty type, so the theorems apply to it |
| SlaApproval.ApprovalDesk.ApproveRule | prototype/dashboard/sla-approval-view.ts:187-251 | Appends an approval bound to the first publication, or nothing |
| SlaApproval.StepReads | prototype/dashboard/sla-approval-view.ts:154-289 | What each of the three requests appends, by the fields of the request and the earliest publication of its version |
| SlaApproval.ComputeEligibility | prototype/platform/accounting/sla/approval.ts:247-280 | The fold's eligible keys are those whose last counting decision is an approval |
| SlaApproval.EveryApprovalIsBacked | prototype/dashboard/sla-approval-view.ts:187-251 | In every reachable log an approval follows a publication of the same version, by someone else, with that publication's hash |
| SlaApproval.RouteApprovalsCount | prototype/platform/accounting/sla/approval.ts:195-220 | Such an approval passes the four-eyes test whatever is published later |
| SlaApproval.RefusedIsSilent | prototype/dashboard/sla-approval-view.ts:187-289 | The log is unchanged exactly when the request is refused, and a complete approval is refused exactly when the version was never published or first published by the approver |
| SlaApproval.StatusFollowsLastWord | prototype/dashboard/sla-approval-view.ts:73-123 | The status table follows the last word on each version |
| SlaApproval.LastWordIsLastAppended | prototype/platform/accounting/sla/approval-loader.ts:39-93 | The last word is the last decision appended, unless that is an approval and a withhold bears the same instant |
| SlaApproval.ReapprovalWithinInstantIsLost | prototype/dashboard/sla-approval-view.ts:64-70 | A run that shows it |
| SlaApproval.LaterPublisherMayApprove | prototype/dashboard/sla-approval-view.ts:209-232 | A later publisher may approve, binding the first publication's hash |
| AgentTrend.BuildTrends | prototype/dashboard/agent-ops.ts:236-268 | The trend of every agent seen, from its pruned records |
| AgentTrend.TrendOfAgentReads | prototype/dashboard/agent-ops.ts:67-85 | The trend from the records no later one of the agent's is more than fourteen days past: improving or degrading by a twentieth of the tokens of the week before, in whole numbers |
| AgentTrend.PrunedIsOutlasting | prototype/dashboard/agent-ops.ts:150-156 | Which records the pruning keeps |
| AgentTrend.PruningKeepsTrend | prototype/dashboard/agent-ops.ts:139-171 | With no record dated after now, in any order of arrival, pruning does not change the trend |
| AgentTrend.WindowKeptIff | prototype/dashboard/agent-ops.ts:150-156 | The windows see everything exactly when no arrival jumps fourteen days past a record they still want |
| AgentTrend.FutureRecordErases | prototype/dashboard/agent-ops.ts:150-156 | A record ahead of the clock that changes the trend |
| UnadoptedView.GetView | prototype/dashboard/bank-obligations-view.ts:263-326 | The page, totals and facet counts of a query |
| ViewMeaning.ViewReads | prototype/dashboard/bank-obligations-view.ts:263-326 | A page is an excerpt, by the clamped offset and limit, of the rows that hold the search in any case and bear the source and standard asked for, by id; the totals count them and those adopted before |
| UnadoptedView.SourceFacetIsTotal | prototype/dashboard/bank-obligations-view.ts:298-301 | A source facet is the total the query reports narrowed to that source |
| UnadoptedView.StandardFacetIsTotal | prototype/dashboard/bank-obligations-view.ts:302-305 | A standard facet likewise |
| UnadoptedView.PagesCoverList | prototype/dashboard/bank-obligations-view.ts:307-313 | Pages at 0, L, 2L, ... give the whole filtered list, sorted, each row once, for every limit |
| OwnershipMap.Count | prototype/dashboard/ownership-map-view.ts:74-103 | The tally loop counts per key and per top level, orphans and drift |
| OwnershipMap.DriftCounts | prototype/dashboard/ownership-map-view.ts:74-103 | The drift figure is the number of placed obligations whose stated owner is neither the seat nor one of its co-accountable ones |
| OwnershipMap.OrphansAre | prototype/dashboard/ownership-map-view.ts:74-103 | The orphans listed are the obligations placed under no row, in order |
| OwnershipMap.SeatFigureIsDirect | prototype/dashboard/ownership-map-view.ts:105-125 | An agent's figure is a direct count of the obligations it holds |
| OwnershipMap.CountsAreConserved | prototype/dashboard/ownership-map-view.ts:105-158 | The sums over agents and over top-level domains both equal total less orphans |

## Left out

- HTTP routing, request-field parsing, file and process access, logging and SQLite itself: tables are sequences, commands are calls.
- The other read-model builders, static catalogues, pricing formulas, fuzzy text classifiers and locale-aware sorting.
- `buildInstrumentDetailView` rollups and the `pushParagraph` grouping: they would only add easy members.
- Identifiers: event ids are log positions or fresh names; instrument urns are a datatype, so a trade id that ends in a cash suffix is not modelled; rule keys are structured, not joined strings.
- Floating point: rates, notionals and thresholds are reals, decimal division is exact before its stated rounding.
- Concurrency inside one synchronous route: book, settle, convert, gateway and reset each run without other writers in between. FX runs hold the events of these commands only, and the two appends of a conversion are one step.
- The blocked list, the synthetic LEI and the ratified thresholds: parameters of the gateway.
- The credit engine's utilisation percentage, traffic light and degraded-mode warning; lifecycle events that change no status.
- FX revaluation, swaps, forwards, NDFs, cancellations, reporting-period windows and treatment elections: no desk command emits them.
- FX cash revaluation at closing marks and conversion by a rate map: the balance proved is at cost, the basis of the settlement and conversion entries.
- Unicode beyond what each expression needs: case folding is ASCII, and word characters and digits of the chapter extractor are ASCII.
- SnapshotRuns.DisciplinedRunsAreSafe: one direction only; the exact condition is stated per step in SnapshotRuns.SafeStepIsExact.
- AgentRuns.OneFetchPerCount: assumes the store count never decreases, as it does not in an append-only store.
- ResetEventStore.DryRunIsExact: assumes no other process writes between the inventory and the transaction; array references are arrays or missing.
- ObligationIndex.ListedExactlyWhenTraced: assumes distinct obligation ids, which the projection keys by, and slugs without a colon.
- UnadoptedView.PagesCoverList: rows with equal ids, which the knowledge base does not have, keep their input order.
