# Market-order planner (meta-exchange) in Dafny

This project models the planning core of the BSDigital meta-exchange, the
`PlaceMarketOrderHandler`. Given a market order (buy or sell an amount of BTC),
it takes the EUR and BTC balances of several exchanges and each exchange's
order book, sorted best price first. From these it computes an execution plan:
how much to trade on each exchange.

The planner works greedily:

1. It seeds a best-first queue with each exchange's best book order. The queue
   is keyed by price, and price ties are broken by the exchange's balance:
   EUR when buying, BTC when selling.
2. It repeatedly takes the best candidate and fills the least of three
   amounts: the remaining demand, the order's amount, and what the exchange
   can afford.
3. After each fill it updates that exchange's balances. It then puts the
   order's remainder back in the queue, or pulls the exchange's next book
   order.
4. At the end it consolidates the raw fills into one line per exchange.

Modules, one per concept:

- `Types`: the records `BookOrder`, `Order`, `Exchange` and `PlaceMarketOrderCommand`, plus the `Result` of a run.
- `Priorities`: the queue key and the two side-specific comparators.
- `OrderQueue`: the best-first queue as a sequence, and its dequeue.
- `Ledger`: the fill size and the balance update.
- `Frontier`: the per-exchange cursors over the books, which stand in for the enumerators.
- `Planner`: seeding, one loop iteration (`Step`), the loop (`Run`), and `Handle`.
- `Consolidation`: grouping the fills by exchange.
- `Invariants`: what one iteration does and keeps.
- `PlanProperties`: the invariants over whole runs.
- `Scenarios`: concrete runs from the handler's unit tests.

Amounts, prices and balances are exact `real`s. The handler's three lookup
and division exceptions are modelled as `Err` results:

- `UnknownExchange`: a missing key in the exchanges dictionary.
- `UnknownOrderBook`: a missing key in the order-book dictionary.
- `DivideByZero`: a buy against an ask priced at zero.

`Run` is a total function. Its termination measure is lexicographic:

1. book orders not yet pulled, plus queued candidates;
2. whether demand remains;
3. the number of queued candidates whose exchange can still afford something.

`Planner.StepMakesProgress` proves that every iteration lowers this measure.
In particular, a partial fill that leaves demand open must have used up the
exchange's whole spendable balance.

Behaviours of the code worth knowing, some at odds with its comments or tests:

- **Remainder key.** The remainder of a partly filled order is re-keyed with
  the exchange's balance from *before* the fill. A fresh key would carry the
  post-fill balance, but `ReplaceDequeuedOrder` receives the `exchange` value
  captured at line 104, ahead of the update at line 112
  (PlaceMarketOrderHandler.cs:116). `Invariants.PartialFillExhaustsDemandOrBalance`
  shows the stale key is harmless: after a partial fill, either demand is met
  or that exchange can afford nothing more.
- **Price ties.** The comparator puts the exchange with the *larger* balance
  first (lines 64 and 68). This contradicts the ignored test
  `Handle_SamePriceMultipleExchanges_PreferLowerBalance`.
  `Scenarios.TiePlansOnLargerBalance` proves that `Handle`, on that test's
  snapshot, returns one line on exchange 1, not on exchange 2 as the test
  expects. `Scenarios.ReversedTiePlansOnLargerBalance` proves the same plan
  when exchange 2's ask is queued first, so the balance decides the tie, not
  the queueing order.
- **Empty book orders block their exchange.** A book order with amount zero
  or less gets a fill of zero or less (`Math.Min` at line 105 returns a
  negative amount as it is). It is dropped at line 111 without moving that
  exchange's enumerator, so the exchange's deeper, fillable orders are never
  offered. The comment at line 111 names only an empty balance as the reason
  for a drop. The model does the same (`Invariants.StepFillRule` and
  `Invariants.StepRefeedRule`: a dropped candidate leaves the cursors and
  re-queues nothing).
- **Consolidation order.** Consolidation keeps the order in which each
  exchange first appears among the fills, as LINQ `GroupBy` does.

## Model

| member | source | states |
|---|---|---|
| Priorities.ComparerIsTotalPreorder | Source/Core.UseCases/PlaceMarketOrderHandler.cs:59-69 | Both comparators are antisymmetric in sign, reflexive and transitive. They report a tie only for identical keys, so the queue has a consistent order. |
| Priorities.BeforeIsStrictOrder | Source/Core.UseCases/PlaceMarketOrderHandler.cs:59-69 | "Strictly ahead in the queue" is irreflexive, asymmetric and transitive. |
| Priorities.BeforeMeansBetterPrice | Source/Core.UseCases/PlaceMarketOrderHandler.cs:59-69 | Both directions of the ordering policy. Buying: lower ask first, then more EUR first. Selling: higher bid first, then more BTC first. |
| OrderQueue.BestIndex | Source/Core.UseCases/PlaceMarketOrderHandler.cs:102 | The chosen position holds an entry that no entry of the queue is strictly ahead of. It is strictly ahead of every entry before it. |
| OrderQueue.Dequeue | Source/Core.UseCases/PlaceMarketOrderHandler.cs:102 | The dequeue removes exactly one entry, which is a best one. The rest is the queue minus that entry, in order and as a multiset. |
| Invariants.StepTakesBestCandidate | Source/Core.UseCases/PlaceMarketOrderHandler.cs:59-102 | Each iteration works on a queued candidate with the best price. For a buy no queued ask is cheaper; for a sell no queued bid is higher. Among equal prices it takes the one with the largest balance. |
| Invariants.BestIndexIsMinimal | Source/Core.UseCases/PlaceMarketOrderHandler.cs:102 | No queue entry is strictly ahead of the dequeued one. |
| Ledger.FillAmount | Source/Core.UseCases/PlaceMarketOrderHandler.cs:105-109 | The fill is at most each of remaining demand, order amount and affordable amount, and equals one of them. |
| Ledger.ResolveNewExchangeBalance | Source/Core.UseCases/PlaceMarketOrderHandler.cs:142-157 | The exchange keeps its id. Its value at the fill price is conserved. Its BTC goes up by the fill on a buy and down by it on a sell. |
| Ledger.FillKeepsBalancesNonNegative | Source/Core.UseCases/PlaceMarketOrderHandler.cs:142-157 | A positive fill within the affordable bound, at a positive price, leaves both balances non-negative. The spent currency strictly falls and the received one strictly rises. |
| Ledger.ExhaustingFillEmptiesBalance | Source/Core.UseCases/PlaceMarketOrderHandler.cs:142-157 | A fill equal to the affordable bound leaves the exchange unable to afford anything at any price. |
| Frontier.Advance | Source/Core.UseCases/PlaceMarketOrderHandler.cs:135-136 | Moving an exchange's enumerator yields that book's next unread order exactly when one is left. Only that exchange's cursor moves, by one, and it never runs past the book. |
| Frontier.AdvanceConsumesOne | Source/Core.UseCases/PlaceMarketOrderHandler.cs:133-139 | Pulling a book order lowers the count of unread book orders by one. Finding the book exhausted leaves the count unchanged. |
| Planner.SeedFrom | Source/Core.UseCases/PlaceMarketOrderHandler.cs:73-79 | On success, the seeding loop leaves every enumerator within its book. The full seeding contract is in the `PlanProperties.SeedFrom*` rows. |
| Planner.BuildPriorityQueue | Source/Core.UseCases/PlaceMarketOrderHandler.cs:53-82 | The initial queue comes with cursors that fit the books. |
| PlanProperties.SeedFromQueuesEveryBook | Source/Core.UseCases/PlaceMarketOrderHandler.cs:73-79 | Seeding queues a candidate for every non-empty book it visits, and loses none already queued. |
| PlanProperties.SeedFromSetsCursors | Source/Core.UseCases/PlaceMarketOrderHandler.cs:73-79 | After seeding, every visited non-empty book has exactly its first order pulled. Every other cursor is unchanged. |
| PlanProperties.SeedFromKeepsFrontier | Source/Core.UseCases/PlaceMarketOrderHandler.cs:71-79 | Seeding keeps one candidate per exchange. Each candidate is its book's first order, with its price as the key. |
| PlanProperties.SeedFromKeysByBalance | Source/Core.UseCases/PlaceMarketOrderHandler.cs:74-77 | Every candidate seeding queues names a known exchange. Its key is the order's price with that exchange's starting balance as tie-break: EUR for a buy, BTC for a sell. |
| PlanProperties.SeedFromSound | Source/Core.UseCases/PlaceMarketOrderHandler.cs:73-79 | On a sound snapshot, seeding cannot fail, and every queued candidate names a known exchange and book at a positive price. |
| PlanProperties.BuildPriorityQueueSeedsEveryBook | Source/Core.UseCases/PlaceMarketOrderHandler.cs:71-79 | A book is represented in the initial queue if and only if it is non-empty, by its first order only. Its cursor is 1 if it is non-empty and 0 otherwise. Each candidate is keyed by `ResolvePriority` against its exchange's starting balances. |
| Planner.ReplaceDequeuedOrder | Source/Core.UseCases/PlaceMarketOrderHandler.cs:125-140 | On success, the re-feed leaves every enumerator within its book. What it queues is in `Invariants.StepRefeedRule`. |
| Invariants.StepRefeedRule | Source/Core.UseCases/PlaceMarketOrderHandler.cs:111-140 | **Dropped candidate:** nothing is re-queued. **Partial fill:** exactly the remainder is re-queued, keyed with the pre-fill balance. **Full fill:** the exchange's next book order is re-queued, keyed with the updated balance, and its cursor moves by one. If the book is exhausted, nothing is queued. |
| Invariants.StepFillRule | Source/Core.UseCases/PlaceMarketOrderHandler.cs:102-114 | A step appends a fill line if and only if remaining demand, order amount and bound are all positive. A dropped candidate changes nothing else. An appended line is positive, on the candidate's exchange and side, within all three limits, and lowers the remaining demand by its amount. |
| Invariants.StepUpdatesOneExchange | Source/Core.UseCases/PlaceMarketOrderHandler.cs:104-112 | Only the candidate's exchange changes, by exactly the fill: its BTC moves by the fill amount and its EUR by the fill times the order's price. A dropped candidate changes no balance. |
| Planner.Step | Source/Core.UseCases/PlaceMarketOrderHandler.cs:102-117 | On success, one iteration leaves every enumerator within its book. What it does is in the `Invariants` rows. |
| Priorities.ResolvePriority | Source/Core.UseCases/PlaceMarketOrderHandler.cs:84-91 | The key carries the order's price and, as tie-break, the exchange's EUR balance when buying and its BTC balance when selling. |
| Priorities.ResolvedKeysRankByPriceThenBalance | Source/Core.UseCases/PlaceMarketOrderHandler.cs:59-91 | For any two book orders keyed by `ResolvePriority`, the first is dequeued strictly earlier if and only if its price is better, or the prices are equal and its exchange holds more of the tie-break currency. |
| Ledger.SpendableBoundIsAffordability | Source/Core.UseCases/PlaceMarketOrderHandler.cs:105-109 | At a positive price, an amount is within `SpendableBound` if and only if buying it costs at most the EUR balance, or selling it takes at most the BTC balance. |
| Planner.Execute | Source/Core.UseCases/PlaceMarketOrderHandler.cs:24-28 | A successful run has seeded successfully, keeps the cursors within the books, and stops only with demand met or the queue empty. Its accounting and ledger are in `PlanProperties.RawFillsWithinRequest`, `ExecuteKeepsLedger` and `ShortfallOnlyWhenQueueRunsDry`. |
| Planner.Handle | Source/Core.UseCases/PlaceMarketOrderHandler.cs:22-33 | The handler succeeds exactly when the run does. It returns one line per exchange with a fill, and only those. The plan's total equals the total of the raw fills. Bounds and solvency are in `PlanProperties.FilledNeverExceedsRequest`, `SoundSnapshotStaysSolvent` and `NonPositiveAmountPlansNothing`. |
| Planner.Run | Source/Core.UseCases/PlaceMarketOrderHandler.cs:102-117 | The loop ends only when demand is met or the queue is empty. |
| Planner.StepMakesProgress | Source/Core.UseCases/PlaceMarketOrderHandler.cs:102-140 | Every iteration lowers the termination measure. Either pending-plus-queued falls, or it stays equal and the demand is met or a live candidate is lost. |
| Planner.PartialFillLosesLiveCandidate | Source/Core.UseCases/PlaceMarketOrderHandler.cs:105-131 | A partial fill that leaves demand open lowers the number of queued candidates the exchanges can still afford. |
| Invariants.PartialFillExhaustsDemandOrBalance | Source/Core.UseCases/PlaceMarketOrderHandler.cs:105-131 | After a partial fill, the remaining demand is zero or the exchange can afford nothing at that price. So the stale key on the remainder never decides a later fill. |
| Invariants.StepKeepsAccounting | Source/Core.UseCases/PlaceMarketOrderHandler.cs:100-114 | Each iteration keeps filled plus remaining equal to the request. Every fill stays positive and of the command's side. |
| Invariants.StepKeepsLedger | Source/Core.UseCases/PlaceMarketOrderHandler.cs:104-113 | Each iteration keeps every exchange's BTC balance equal to its start plus (buy) or minus (sell) the BTC filled on it. An exchange without fills stays untouched. |
| Invariants.StepSucceedsOnSoundQueue | Source/Core.UseCases/PlaceMarketOrderHandler.cs:104-137 | With every queued candidate on a known exchange and book at a positive price, an iteration cannot fail. |
| Invariants.StepKeepsBalancesSolvent | Source/Core.UseCases/PlaceMarketOrderHandler.cs:105-112 | Each iteration keeps every balance non-negative. The spent currency never exceeds, and the received one never drops below, its start. |
| Invariants.StepRefeedsSoundCandidate | Source/Core.UseCases/PlaceMarketOrderHandler.cs:125-140 | The queue after an iteration is the dequeued rest plus at most one sound candidate. |
| Invariants.StepKeepsQueueSound | Source/Core.UseCases/PlaceMarketOrderHandler.cs:125-140 | Every queued candidate stays on a known exchange and book at a positive price. |
| Invariants.StepKeepsSolvency | Source/Core.UseCases/PlaceMarketOrderHandler.cs:102-140 | On a sound snapshot, each iteration succeeds and keeps the solvency invariant. |
| Invariants.RestStaysAtFrontier | Source/Core.UseCases/PlaceMarketOrderHandler.cs:102 | After a dequeue the taken candidate sits at its exchange's cursor. No other queued candidate belongs to that exchange. |
| Invariants.FullFillKeepsFrontier | Source/Core.UseCases/PlaceMarketOrderHandler.cs:133-139 | Using up a candidate and pulling its exchange's next order keeps at most one candidate per exchange, each at its exchange's cursor. |
| Invariants.PartialFillKeepsFrontier | Source/Core.UseCases/PlaceMarketOrderHandler.cs:111-132 | Dropping a candidate or re-queuing its remainder keeps at most one candidate per exchange, each at its exchange's cursor. |
| Invariants.StepKeepsFrontier | Source/Core.UseCases/PlaceMarketOrderHandler.cs:102-140 | Each iteration keeps exactly that frontier invariant: the planner never looks past an exchange's current best order. |
| Invariants.StepMovesCursorsForward | Source/Core.UseCases/PlaceMarketOrderHandler.cs:133-139 | Cursors never rewind. Only the candidate's exchange's cursor moves, by at most one. |
| PlanProperties.RunKeepsAccounting | Source/Core.UseCases/PlaceMarketOrderHandler.cs:100-117 | The whole loop keeps filled plus remaining equal to the request. |
| PlanProperties.RunKeepsLedger | Source/Core.UseCases/PlaceMarketOrderHandler.cs:102-117 | The whole loop keeps each exchange's BTC balance equal to its starting BTC plus (buy) or minus (sell) the fills recorded on it; an exchange without fills is untouched (EUR included). |
| PlanProperties.RunKeepsSolvency | Source/Core.UseCases/PlaceMarketOrderHandler.cs:102-140 | On a sound snapshot, the loop cannot fail and never overdraws a balance. |
| PlanProperties.RunKeepsFrontier | Source/Core.UseCases/PlaceMarketOrderHandler.cs:102-140 | The whole loop keeps at most one candidate per exchange, at its cursor. |
| PlanProperties.RunMovesCursorsForward | Source/Core.UseCases/PlaceMarketOrderHandler.cs:133-139 | Over the whole loop no cursor rewinds. |
| PlanProperties.RawFillsWithinRequest | Source/Core.UseCases/PlaceMarketOrderHandler.cs:100-114 | The raw fills are positive and of the command's side. They total at most the requested amount, and are none when that amount is not positive. |
| PlanProperties.FilledNeverExceedsRequest | Source/Core.UseCases/PlaceMarketOrderHandler.cs:100-123 | The plan's lines are positive and of the command's side. They total at most the requested amount, and there are none when that amount is not positive. |
| PlanProperties.ShortfallOnlyWhenQueueRunsDry | Source/Core.UseCases/PlaceMarketOrderHandler.cs:102 | A positive request is filled in full unless the queue ran out. |
| PlanProperties.NonPositiveAmountPlansNothing | Source/Core.UseCases/PlaceMarketOrderHandler.cs:100-102 | A request for zero or less plans nothing and touches no balance. |
| PlanProperties.EmptyBooksPlanNothing | Source/Core.UseCases/PlaceMarketOrderHandler.cs:73-102 | With every book empty, the run succeeds with an empty plan and unchanged balances. |
| PlanProperties.SoundSnapshotStaysSolvent | Source/Core.UseCases/PlaceMarketOrderHandler.cs:102-157 | On a sound snapshot the handler cannot fail. No final balance is negative, and the spent currency never exceeds its starting balance. |
| PlanProperties.ExecuteKeepsLedger | Source/Core.UseCases/PlaceMarketOrderHandler.cs:104-113 | After a run, every exchange's BTC has moved by exactly the BTC filled on it. |
| PlanProperties.LedgerFollowsPlan | Source/Core.UseCases/PlaceMarketOrderHandler.cs:112-123 | Each consolidated line equals its exchange's BTC movement. An exchange without a line is untouched. |
| PlanProperties.BalancesFollowPlan | Source/Core.UseCases/PlaceMarketOrderHandler.cs:112-123 | Each exchange's final BTC balance is its starting BTC plus (buy) or minus (sell) the amount of its line in the returned plan; an exchange without a line is untouched (EUR included). |
| Consolidation.FirstIndex | Source/Core.UseCases/PlaceMarketOrderHandler.cs:120-121 | Gives the position of an exchange's first fill line: it is on that exchange, and no earlier line is. |
| Consolidation.GroupKeys | Source/Core.UseCases/PlaceMarketOrderHandler.cs:120-121 | The group keys are distinct and are exactly the exchanges with a fill. They are ordered by each exchange's first fill. |
| Consolidation.Consolidate | Source/Core.UseCases/PlaceMarketOrderHandler.cs:120-123 | One line per exchange with a fill, and only those. Each line is on the command's side and carries the sum of that exchange's fills. Lines are in first-appearance order. |
| Consolidation.ConsolidatePreservesTotal | Source/Core.UseCases/PlaceMarketOrderHandler.cs:120-123 | Consolidation neither loses nor invents any amount. |
| Consolidation.ConsolidatedLinesArePositive | Source/Core.UseCases/PlaceMarketOrderHandler.cs:120-123 | Positive fills consolidate to positive lines. |
| Consolidation.SingleExchangeConsolidates | Tests/Tests.Core.UseCases/PlaceMarketOrderHandlerTests.cs:195-215 | Any non-empty run of fills on a single exchange consolidates to one line with their total. |
| Scenarios.SeedsBothAsks | Tests/Tests.Core.UseCases/PlaceMarketOrderHandlerTests.cs:134-154 | Both first asks are queued, keyed by price and EUR balance. |
| Scenarios.FillsCheapAskFirst | Tests/Tests.Core.UseCases/PlaceMarketOrderHandlerTests.cs:134-154 | The first iteration fills the ask at 1.0 on exchange 2 in full, not the ask at 1.1. |
| Scenarios.BuyTakesLowestAsk | Tests/Tests.Core.UseCases/PlaceMarketOrderHandlerTests.cs:134-154 | Buying 0.00000001 BTC yields exactly one line: 0.00000001 on exchange 2. |
| Scenarios.BalanceLimitsFirstFill | Tests/Tests.Core.UseCases/PlaceMarketOrderHandlerTests.cs:278-297 | With 0.000000001 EUR, the ask at 1 is filled only for 0.000000001 BTC, and its remainder is re-queued. |
| Scenarios.EmptyBalanceDropsLeftOver | Tests/Tests.Core.UseCases/PlaceMarketOrderHandlerTests.cs:278-297 | Once the EUR is spent, the remainder is dropped without a fill. |
| Scenarios.BalanceCapsThePlan | Tests/Tests.Core.UseCases/PlaceMarketOrderHandlerTests.cs:278-297 | The plan is exactly one line of 0.000000001 on exchange 1. The ask at 1000 is never reached. |
| Scenarios.TieGoesToLargerBalance | Tests/Tests.Core.UseCases/PlaceMarketOrderHandlerTests.cs:255-276 | At equal asks, the exchange with more EUR is dequeued first, whether its ask was queued first or second. |
| Scenarios.SeedsTiedAsks | Tests/Tests.Core.UseCases/PlaceMarketOrderHandlerTests.cs:255-276 | The test's snapshot seeds both asks at price 1, keyed by 0.00001 and 0.000005 EUR. |
| Scenarios.TieFillsOnLargerBalance | Tests/Tests.Core.UseCases/PlaceMarketOrderHandlerTests.cs:255-276 | From that seeded queue, the first iteration buys the whole amount on exchange 1 (more EUR). |
| Scenarios.TieStopsOnceFilled | Tests/Tests.Core.UseCases/PlaceMarketOrderHandlerTests.cs:255-276 | Seeding and the loop on the test's snapshot end after that single fill. |
| Scenarios.TiePlansOnLargerBalance | Tests/Tests.Core.UseCases/PlaceMarketOrderHandlerTests.cs:255-276 | `Handle` on the test's snapshot returns exactly one line, 0.00000001 on exchange 1, where the ignored test expects exchange 2. |
| Scenarios.SeedsPoorAskFirst | Source/Core.UseCases/PlaceMarketOrderHandler.cs:72-78 | The same tie with the books enumerated as 2, 1 seeds exchange 2's ask (less EUR) ahead of exchange 1's. |
| Scenarios.TieSkipsEarlierPoorerAsk | Source/Core.UseCases/PlaceMarketOrderHandler.cs:59-69 | From that queue, the first iteration passes over the earlier-queued ask and buys the whole amount on exchange 1, so the tie is decided by balance and not by queueing order. |
| Scenarios.ReversedTieStopsOnceFilled | Source/Core.UseCases/PlaceMarketOrderHandler.cs:24-28 | Seeding and the loop on the reversed snapshot end after that single fill, in the same state as the original order. |
| Scenarios.ReversedTiePlansOnLargerBalance | Source/Core.UseCases/PlaceMarketOrderHandler.cs:22-33 | `Handle` on the reversed snapshot also returns one line, 0.00000001 on exchange 1. |
| Scenarios.SeedsBothBids | Tests/Tests.Core.UseCases/PlaceMarketOrderHandlerTests.cs:370-390 | Both first bids are queued, keyed by price and BTC balance. |
| Scenarios.FillsHighBidFirst | Tests/Tests.Core.UseCases/PlaceMarketOrderHandlerTests.cs:370-390 | The first iteration sells into the bid at 1.1 on exchange 2 in full. |
| Scenarios.SellHitsHighestBid | Tests/Tests.Core.UseCases/PlaceMarketOrderHandlerTests.cs:370-390 | Selling 0.00000001 BTC yields exactly one line: 0.00000001 on exchange 2. |
| Scenarios.SingleFillIsItsOwnPlan | Source/Core.UseCases/PlaceMarketOrderHandler.cs:120-123 | A plan of one fill consolidates to itself. |

## Left out

- Fetching the data (PlaceMarketOrderHandler.cs:35-49 and the database loader): the model takes a `Snapshot` of balances and books as input. The query handlers, EF Core and JSON loading are I/O.
- Saving the changed balances (the TODO at line 30): the source does not do it. The model still returns the final balances, as `Execute`'s state.
- Async/await, dependency injection, the ASP.NET endpoint and the console host: none of it affects the plan.
- Concurrent runs: the handler runs single-threaded on its own snapshot, and the model has no shared state.
- C# `decimal` (28-29 significant digits, rounding in `EurBalance / Price`, `OverflowException` from any `decimal` operation, such as the balance updates at lines 148-149 and 153-154 or the `Sum` at line 122): amounts are exact reals. A fill that rounds in the source is exact here. `OverflowException`, and `SwitchExpressionException` for an `OrderType` value outside `Buy`/`Sell`, are not modelled.
- PlanProperties.SoundSnapshotStaysSolvent: promises non-negative balances only under exact division. Under `decimal` it fails. Example: buying 1 BTC on an exchange with 2 EUR against an ask of 1 at price 3. Line 107 gives `2m / 3m` = 0.6666666666666666666666666667, which becomes the fill. Line 149 then sets EUR to 2 - 2.0000000000000000000000000001 = -0.0000000000000000000000000001.
- Ledger.FillKeepsBalancesNonNegative, Invariants.StepKeepsBalancesSolvent and PlanProperties.RunKeepsSolvency: hold only under exact division, for the same reason and with the same counterexample.
- The order of .NET `PriorityQueue` among entries with identical keys: the heap leaves it unspecified. The model takes the earliest-queued of the best entries. `StepTakesBestCandidate` and every ensures of `Dequeue` except the last hold for any best entry. `Dequeue`'s last ensures, that every entry queued ahead of the chosen one ranks strictly after it, holds only for the earliest-queued choice the model makes.
- The enumeration order of the books dictionary: it is an explicit parameter, `Snapshot.keys`, listing every book once.
- Sorting of the books: the source assumes each book is sorted best price first (line 72) and does not check it. The model does not assume it either. Every property here holds for unsorted books too.
- PlanProperties.SoundSnapshotStaysSolvent and the other `Sound*`/`Solvent` lemmas: these require a sound snapshot (known exchanges and books, positive prices, non-negative balances). The source makes no such check. Outside sound snapshots it either throws (an unknown exchange or book, or a buy at price 0), which `Step` models as `Err`, or it runs on and can end with a negative balance (a sell into a bid priced below zero, or a negative starting balance). The model does the same.
- PlanProperties.RunKeepsFrontier, PlanProperties.BuildPriorityQueueSeedsEveryBook, PlanProperties.SeedFromQueuesEveryBook and PlanProperties.SeedFromKeepsFrontier: these require every book order to name the exchange it is filed under (`Keyed`). The source's data has this shape, but the handler does not check it.
- Invariants.StepUpdatesOneExchange: states the EUR change per fill. The whole-run ledger (`LedgerMatchesFills`) tracks BTC only, because the EUR moved depends on each fill's price rather than on the plan's totals.
- Planner.Step: its own ensures states only that cursors stay within the books. What an iteration does is stated about it by `Invariants.StepFillRule`, `StepUpdatesOneExchange`, `StepRefeedRule` and `StepTakesBestCandidate`.
- Planner.ReplaceDequeuedOrder: its own ensures states only the cursor bound. Its re-feed behaviour is in `Invariants.StepRefeedRule`.
- Planner.SeedFrom: its own ensures states only the cursor bound. What seeding queues is in `PlanProperties.SeedFromQueuesEveryBook`, `SeedFromSetsCursors` and `SeedFromKeepsFrontier`. The key each candidate carries is in `SeedFromKeysByBalance`.
- Planner.BuildPriorityQueue: its own ensures states only the cursor bound. What it queues, and with which keys, is in `PlanProperties.BuildPriorityQueueSeedsEveryBook`.
