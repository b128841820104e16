/** Concrete planning runs: scenarios the handler's unit tests pin down. */
module Scenarios {
  import opened Types
  import opened Priorities
  import opened OrderQueue
  import opened Ledger
  import opened Frontier
  import opened Consolidation
  import opened Planner

  // Two exchanges with 0.00001 EUR each; exchange 1 asks 1.1, exchange 2 asks 1.0.
  const exchanges := map[1 := Exchange(1, 0.00001, 0.0), 2 := Exchange(2, 0.00001, 0.0)]
  const asks := map[1 := [BookOrder(0.00000001, 1.1, 1)], 2 := [BookOrder(0.00000001, 1.0, 2)]]
  const snapshot := Snapshot(exchanges, asks, [1, 2])
  const dearAsk := Entry(BookOrder(0.00000001, 1.1, 1), Priority(1.1, 0.00001))
  const cheapAsk := Entry(BookOrder(0.00000001, 1.0, 2), Priority(1.0, 0.00001))
  const seeded := map[1 := 1, 2 := 1]

  /** Exchange 2's ask is queued after exchange 1's. */
  lemma SeedsCheapAsk()
    ensures SeedFrom(Buy, exchanges, asks, [2], Seeded([dearAsk], map[1 := 1, 2 := 0])) == Ok(Seeded([dearAsk, cheapAsk], seeded))
  {
    assert [2][1..] == [];
    assert [dearAsk] + [cheapAsk] == [dearAsk, cheapAsk];
    assert map[1 := 1, 2 := 0][2 := 1] == seeded;
    assert SeedFrom(Buy, exchanges, asks, [], Seeded([dearAsk, cheapAsk], seeded)) == Ok(Seeded([dearAsk, cheapAsk], seeded));
  }

  /** Both asks are queued, each keyed by its price and its exchange's EUR. */
  lemma SeedsBothAsks()
    ensures BuildPriorityQueue(Buy, snapshot) == Ok(Seeded([dearAsk, cheapAsk], seeded))
  {
    var c0 := map[1 := 0, 2 := 0];
    assert StartCursors(asks) == c0;
    assert [1, 2][1..] == [2];
    assert [] + [dearAsk] == [dearAsk];
    assert c0[1 := 1] == map[1 := 1, 2 := 0];
    SeedsCheapAsk();
  }

  /** The first iteration takes the cheaper ask and fills it completely. */
  lemma FillsCheapAskFirst()
    ensures Step(Buy, asks, PlanState(0.00000001, [dearAsk, cheapAsk], exchanges, seeded, []))
         == Ok(PlanState(0.0, [dearAsk], exchanges[2 := Exchange(2, 0.00001 - 0.00000001, 0.00000001)],
                         seeded, [Order(0.00000001, 2, Buy)]))
  {
    assert BestIndex(Buy, [dearAsk, cheapAsk]) == 1;
    assert Dequeue(Buy, [dearAsk, cheapAsk]) == Dequeued(cheapAsk, 1, [dearAsk]);
    assert FillAmount(0.00000001, 0.00000001, 0.00001 / 1.0) == 0.00000001;
    assert Advance(asks, seeded, 2) == Advanced(None, seeded);
    assert [] + [Order(0.00000001, 2, Buy)] == [Order(0.00000001, 2, Buy)];
  }

  const bought := PlanState(0.0, [dearAsk], exchanges[2 := Exchange(2, 0.00001 - 0.00000001, 0.00000001)],
                            seeded, [Order(0.00000001, 2, Buy)])

  /** The loop stops after that iteration: the demand is met. */
  lemma RunStopsOnceFilled()
    ensures Run(Buy, asks, [1, 2], PlanState(0.00000001, [dearAsk, cheapAsk], exchanges, seeded, [])) == Ok(bought)
  {
    assert CursorsFit(asks, seeded);
    assert KeysEnumerate(asks, [1, 2]);
    FillsCheapAskFirst();
    LastStepEndsRun(Buy, asks, [1, 2], PlanState(0.00000001, [dearAsk, cheapAsk], exchanges, seeded, []), bought);
  }

  /** Seeding and the fill loop together end in that state. */
  lemma StopsOnceFilled()
    ensures Execute(PlaceMarketOrderCommand(0.00000001, Buy), snapshot) == Ok(bought)
  {
    SeedsBothAsks();
    RunStopsOnceFilled();
    assert Initial(PlaceMarketOrderCommand(0.00000001, Buy), snapshot, Seeded([dearAsk, cheapAsk], seeded))
        == PlanState(0.00000001, [dearAsk, cheapAsk], exchanges, seeded, []);
  }

  /** Buying 0.00000001 BTC takes it all from exchange 2, the lower ask. */
  lemma BuyTakesLowestAsk()
    ensures Handle(PlaceMarketOrderCommand(0.00000001, Buy), snapshot) == Ok([Order(0.00000001, 2, Buy)])
  {
    StopsOnceFilled();
    SingleFillIsItsOwnPlan(Order(0.00000001, 2, Buy));
  }

  /** A single fill consolidates into itself. */
  lemma SingleFillIsItsOwnPlan(o: Order)
    ensures Consolidate([o], o.orderType) == [o]
  {
    assert [o][..0] == [];
    assert GroupKeys([o]) == [o.exchangeId];
    assert AmountFor([o], o.exchangeId) == o.amount;
    assert Lines([o], [o.exchangeId], o.orderType) == [o];
  }

  // One exchange with 0.000000001 EUR; asks of 0.00000001 BTC at 1 and at 1000.
  const poorExchange := map[1 := Exchange(1, 0.000000001, 0.0)]
  const twoLevels := map[1 := [BookOrder(0.00000001, 1.0, 1), BookOrder(0.00000001, 1000.0, 1)]]
  const poorSnapshot := Snapshot(poorExchange, twoLevels, [1])
  const firstLevel := Entry(BookOrder(0.00000001, 1.0, 1), Priority(1.0, 0.000000001))
  // What is left of the first level after the fill, keyed with the balance from before it.
  const leftOver := Entry(BookOrder(0.00000001 - 0.000000001, 1.0, 1), Priority(1.0, 0.000000001))
  const spent := map[1 := Exchange(1, 0.0, 0.000000001)]

  /** The first iteration buys what the EUR balance affords and re-queues the rest. */
  lemma BalanceLimitsFirstFill()
    ensures Step(Buy, twoLevels, PlanState(0.00000001, [firstLevel], poorExchange, map[1 := 1], []))
         == Ok(PlanState(0.00000001 - 0.000000001, [leftOver], spent, map[1 := 1], [Order(0.000000001, 1, Buy)]))
  {
    assert Dequeue(Buy, [firstLevel]) == Dequeued(firstLevel, 0, []);
    assert FillAmount(0.00000001, 0.00000001, 0.000000001 / 1.0) == 0.000000001;
    assert poorExchange[1 := ResolveNewExchangeBalance(Buy, poorExchange[1], 0.000000001, firstLevel.order)] == spent;
    assert [] + [leftOver] == [leftOver];
    assert [] + [Order(0.000000001, 1, Buy)] == [Order(0.000000001, 1, Buy)];
  }

  /** The second iteration drops the left-over order: no EUR is left to pay for it. */
  lemma EmptyBalanceDropsLeftOver()
    ensures Step(Buy, twoLevels, PlanState(0.00000001 - 0.000000001, [leftOver], spent, map[1 := 1], [Order(0.000000001, 1, Buy)]))
         == Ok(PlanState(0.00000001 - 0.000000001, [], spent, map[1 := 1], [Order(0.000000001, 1, Buy)]))
  {
    assert Dequeue(Buy, [leftOver]) == Dequeued(leftOver, 0, []);
    assert FillAmount(0.00000001 - 0.000000001, 0.00000001 - 0.000000001, 0.0 / 1.0) == 0.0;
  }

  /** The single book's first level is queued, keyed by the exchange's EUR. */
  lemma SeedsFirstLevel()
    ensures BuildPriorityQueue(Buy, poorSnapshot) == Ok(Seeded([firstLevel], map[1 := 1]))
  {
    var c0 := map[1 := 0];
    assert StartCursors(twoLevels) == c0;
    assert [1][1..] == [] && [] + [firstLevel] == [firstLevel] && c0[1 := 1] == map[1 := 1];
    assert SeedFrom(Buy, poorExchange, twoLevels, [], Seeded([firstLevel], map[1 := 1])) == Ok(Seeded([firstLevel], map[1 := 1]));
  }

  const capped := PlanState(0.00000001 - 0.000000001, [], spent, map[1 := 1], [Order(0.000000001, 1, Buy)])

  /** The fill loop ends with the queue empty and the demand partly unmet. */
  lemma RunStopsWhenQueueRunsDry()
    ensures Run(Buy, twoLevels, [1], PlanState(0.00000001, [firstLevel], poorExchange, map[1 := 1], [])) == Ok(capped)
  {
    BalanceLimitsFirstFill();
    EmptyBalanceDropsLeftOver();
    var s1 := PlanState(0.00000001 - 0.000000001, [leftOver], spent, map[1 := 1], [Order(0.000000001, 1, Buy)]);
    assert Run(Buy, twoLevels, [1], capped) == Ok(capped);
    assert Run(Buy, twoLevels, [1], s1) == Ok(capped);
  }

  /** Seeding and the fill loop together end in that state. */
  lemma StopsWhenQueueRunsDry()
    ensures Execute(PlaceMarketOrderCommand(0.00000001, Buy), poorSnapshot) == Ok(capped)
  {
    SeedsFirstLevel();
    RunStopsWhenQueueRunsDry();
    assert Initial(PlaceMarketOrderCommand(0.00000001, Buy), poorSnapshot, Seeded([firstLevel], map[1 := 1]))
        == PlanState(0.00000001, [firstLevel], poorExchange, map[1 := 1], []);
  }

  /** Buying 0.00000001 BTC with 0.000000001 EUR against an ask at 1 buys
      0.000000001 BTC and never reaches the ask at 1000. */
  lemma BalanceCapsThePlan()
    ensures Handle(PlaceMarketOrderCommand(0.00000001, Buy), poorSnapshot) == Ok([Order(0.000000001, 1, Buy)])
  {
    StopsWhenQueueRunsDry();
    SingleFillIsItsOwnPlan(Order(0.000000001, 1, Buy));
  }

  // Two exchanges asking the same price; exchange 1 holds more EUR than exchange 2.
  const unequalBalances := map[1 := Exchange(1, 0.00001, 0.0), 2 := Exchange(2, 0.000005, 0.0)]
  const samePrice := map[1 := [BookOrder(0.00000001, 1.0, 1)], 2 := [BookOrder(0.00000001, 1.0, 2)]]
  const richAsk := Entry(BookOrder(0.00000001, 1.0, 1), Priority(1.0, 0.00001))
  const poorAsk := Entry(BookOrder(0.00000001, 1.0, 2), Priority(1.0, 0.000005))

  /** At equal price the comparator puts the exchange with MORE EUR first,
      whichever of the two was queued first. */
  lemma TieGoesToLargerBalance()
    ensures Dequeue(Buy, [richAsk, poorAsk]) == Dequeued(richAsk, 0, [poorAsk])
    ensures Dequeue(Buy, [poorAsk, richAsk]) == Dequeued(richAsk, 1, [poorAsk])
  {
    assert BestIndex(Buy, [richAsk, poorAsk]) == 0;
    assert BestIndex(Buy, [poorAsk, richAsk]) == 1;
  }

  const tiedBought := PlanState(0.0, [poorAsk], unequalBalances[1 := Exchange(1, 0.00001 - 0.00000001, 0.00000001)],
                                seeded, [Order(0.00000001, 1, Buy)])

  const tieSnapshot := Snapshot(unequalBalances, samePrice, [1, 2])

  /** Both asks are queued, each keyed by its price and its exchange's EUR. */
  lemma SeedsTiedAsks()
    ensures BuildPriorityQueue(Buy, tieSnapshot) == Ok(Seeded([richAsk, poorAsk], seeded))
  {
    var c0 := map[1 := 0, 2 := 0];
    var c1 := map[1 := 1, 2 := 0];
    assert StartCursors(samePrice) == c0;
    assert [1, 2][1..] == [2] && [2][1..] == [];
    assert [] + [richAsk] == [richAsk] && [richAsk] + [poorAsk] == [richAsk, poorAsk];
    assert c0[1 := 1] == c1 && c1[2 := 1] == seeded;
    assert SeedFrom(Buy, unequalBalances, samePrice, [], Seeded([richAsk, poorAsk], seeded)) == Ok(Seeded([richAsk, poorAsk], seeded));
    assert SeedFrom(Buy, unequalBalances, samePrice, [2], Seeded([richAsk], c1)) == Ok(Seeded([richAsk, poorAsk], seeded));
  }

  /** Exchange 1 can afford the whole amount, and paying for it leaves the
      balances of `tiedBought`. */
  lemma RichAskFillsWhole()
    ensures FillAmount(0.00000001, 0.00000001, SpendableBound(Buy, unequalBalances[1], 1.0)) == 0.00000001
    ensures unequalBalances[1 := ResolveNewExchangeBalance(Buy, unequalBalances[1], 0.00000001, richAsk.order)] == tiedBought.exchanges
  {
  }

  /** Exchange 1's book holds nothing after its first ask, so nothing is re-queued. */
  lemma RichBookRunsOut()
    ensures ReplaceDequeuedOrder(Buy, samePrice, tiedBought, 0.00000001, richAsk.order, unequalBalances[1]) == Ok(tiedBought)
  {
    assert Advance(samePrice, seeded, 1) == Advanced(None, seeded);
  }

  /** The first iteration buys the whole amount on exchange 1, the exchange
      holding more EUR. */
  lemma TieFillsOnLargerBalance()
    ensures Step(Buy, samePrice, PlanState(0.00000001, [richAsk, poorAsk], unequalBalances, seeded, [])) == Ok(tiedBought)
  {
    assert BestIndex(Buy, [richAsk, poorAsk]) == 0;
    assert Dequeue(Buy, [richAsk, poorAsk]) == Dequeued(richAsk, 0, [poorAsk]);
    RichAskFillsWhole();
    RichBookRunsOut();
    assert [] + [Order(0.00000001, 1, Buy)] == [Order(0.00000001, 1, Buy)];
  }

  // Two exchanges with 0.00001 EUR and 0.00000002 BTC each; exchange 1 bids 1.0,
  // exchange 2 bids 1.1.
  const holders := map[1 := Exchange(1, 0.00001, 0.00000002), 2 := Exchange(2, 0.00001, 0.00000002)]
  const bids := map[1 := [BookOrder(0.00000001, 1.0, 1)], 2 := [BookOrder(0.00000001, 1.1, 2)]]
  const bidSnapshot := Snapshot(holders, bids, [1, 2])
  const lowBid := Entry(BookOrder(0.00000001, 1.0, 1), Priority(1.0, 0.00000002))
  const highBid := Entry(BookOrder(0.00000001, 1.1, 2), Priority(1.1, 0.00000002))
  const sold := PlanState(0.0, [lowBid], holders[2 := Exchange(2, 0.00001 + 0.00000001 * 1.1, 0.00000001)],
                          seeded, [Order(0.00000001, 2, Sell)])

  /** Both bids are queued, each keyed by its price and its exchange's BTC. */
  lemma SeedsBothBids()
    ensures BuildPriorityQueue(Sell, bidSnapshot) == Ok(Seeded([lowBid, highBid], seeded))
  {
    var c0 := map[1 := 0, 2 := 0];
    var c1 := map[1 := 1, 2 := 0];
    assert StartCursors(bids) == c0;
    assert [1, 2][1..] == [2] && [2][1..] == [];
    assert [] + [lowBid] == [lowBid] && [lowBid] + [highBid] == [lowBid, highBid];
    assert c0[1 := 1] == c1 && c1[2 := 1] == seeded;
    assert SeedFrom(Sell, holders, bids, [], Seeded([lowBid, highBid], seeded)) == Ok(Seeded([lowBid, highBid], seeded));
    assert SeedFrom(Sell, holders, bids, [2], Seeded([lowBid], c1)) == Ok(Seeded([lowBid, highBid], seeded));
  }

  /** The first iteration sells into the higher bid and fills it completely. */
  lemma FillsHighBidFirst()
    ensures Step(Sell, bids, PlanState(0.00000001, [lowBid, highBid], holders, seeded, [])) == Ok(sold)
  {
    assert BestIndex(Sell, [lowBid, highBid]) == 1;
    assert Dequeue(Sell, [lowBid, highBid]) == Dequeued(highBid, 1, [lowBid]);
    assert FillAmount(0.00000001, 0.00000001, 0.00000002) == 0.00000001;
    assert holders[2 := ResolveNewExchangeBalance(Sell, holders[2], 0.00000001, highBid.order)] == sold.exchanges;
    assert [] + [Order(0.00000001, 2, Sell)] == [Order(0.00000001, 2, Sell)];
    assert Advance(bids, seeded, 2) == Advanced(None, seeded);
    assert ReplaceDequeuedOrder(Sell, bids, sold, 0.00000001, highBid.order, holders[2]) == Ok(sold);
  }

  /** The loop stops after that iteration: the demand is met. */
  lemma RunSellStopsOnceFilled()
    ensures Run(Sell, bids, [1, 2], PlanState(0.00000001, [lowBid, highBid], holders, seeded, [])) == Ok(sold)
  {
    assert CursorsFit(bids, seeded);
    assert KeysEnumerate(bids, [1, 2]);
    FillsHighBidFirst();
    LastStepEndsRun(Sell, bids, [1, 2], PlanState(0.00000001, [lowBid, highBid], holders, seeded, []), sold);
  }

  /** Seeding and the fill loop together end in that state. */
  lemma SellStopsOnceFilled()
    ensures Execute(PlaceMarketOrderCommand(0.00000001, Sell), bidSnapshot) == Ok(sold)
  {
    SeedsBothBids();
    RunSellStopsOnceFilled();
    assert Initial(PlaceMarketOrderCommand(0.00000001, Sell), bidSnapshot, Seeded([lowBid, highBid], seeded))
        == PlanState(0.00000001, [lowBid, highBid], holders, seeded, []);
  }

  /** Selling 0.00000001 BTC sells it all on exchange 2, the higher bid. */
  lemma SellHitsHighestBid()
    ensures Handle(PlaceMarketOrderCommand(0.00000001, Sell), bidSnapshot) == Ok([Order(0.00000001, 2, Sell)])
  {
    SellStopsOnceFilled();
    SingleFillIsItsOwnPlan(Order(0.00000001, 2, Sell));
  }

  /** The loop stops after that iteration: the demand is met. */
  lemma RunStopsAfterTie()
    ensures Run(Buy, samePrice, [1, 2], PlanState(0.00000001, [richAsk, poorAsk], unequalBalances, seeded, [])) == Ok(tiedBought)
  {
    assert CursorsFit(samePrice, seeded);
    assert KeysEnumerate(samePrice, [1, 2]);
    TieFillsOnLargerBalance();
    LastStepEndsRun(Buy, samePrice, [1, 2], PlanState(0.00000001, [richAsk, poorAsk], unequalBalances, seeded, []), tiedBought);
  }

  /** A step that meets the demand is the loop's last. */
  lemma LastStepEndsRun(t: OrderType, books: Books, keys: seq<int>, s: PlanState, n: PlanState)
    requires CursorsFit(books, s.cursors) && KeysEnumerate(books, keys)
    requires s.remaining > 0.0 && |s.queue| > 0
    requires Step(t, books, s) == Ok(n) && n.remaining <= 0.0
    ensures Run(t, books, keys, s) == Ok(n)
  {
    assert Run(t, books, keys, n) == Ok(n);
  }

  /** Seeding and the fill loop together end in that state. */
  lemma TieStopsOnceFilled()
    ensures Execute(PlaceMarketOrderCommand(0.00000001, Buy), tieSnapshot) == Ok(tiedBought)
  {
    SeedsTiedAsks();
    RunStopsAfterTie();
    assert Initial(PlaceMarketOrderCommand(0.00000001, Buy), tieSnapshot, Seeded([richAsk, poorAsk], seeded))
        == PlanState(0.00000001, [richAsk, poorAsk], unequalBalances, seeded, []);
  }

  /** On equal asks, buying 0.00000001 BTC yields one line on exchange 1 (more
      EUR), not on exchange 2 (less EUR). */
  lemma TiePlansOnLargerBalance()
    ensures Handle(PlaceMarketOrderCommand(0.00000001, Buy), tieSnapshot) == Ok([Order(0.00000001, 1, Buy)])
  {
    TieStopsOnceFilled();
    SingleFillIsItsOwnPlan(Order(0.00000001, 1, Buy));
  }

  // The same tie, with the books enumerated the other way round: the ask of
  // exchange 2 (less EUR) is queued first.
  const reversedTieSnapshot := Snapshot(unequalBalances, samePrice, [2, 1])

  /** Both asks are queued, the poorer exchange's first. */
  lemma SeedsPoorAskFirst()
    ensures BuildPriorityQueue(Buy, reversedTieSnapshot) == Ok(Seeded([poorAsk, richAsk], seeded))
  {
    var c0 := map[1 := 0, 2 := 0];
    var c1 := map[1 := 0, 2 := 1];
    assert StartCursors(samePrice) == c0;
    assert [2, 1][1..] == [1] && [1][1..] == [];
    assert [] + [poorAsk] == [poorAsk] && [poorAsk] + [richAsk] == [poorAsk, richAsk];
    assert c0[2 := 1] == c1 && c1[1 := 1] == seeded;
    assert SeedFrom(Buy, unequalBalances, samePrice, [], Seeded([poorAsk, richAsk], seeded)) == Ok(Seeded([poorAsk, richAsk], seeded));
    assert SeedFrom(Buy, unequalBalances, samePrice, [1], Seeded([poorAsk], c1)) == Ok(Seeded([poorAsk, richAsk], seeded));
  }

  /** The first iteration skips the earlier-queued ask and buys on exchange 1,
      the exchange holding more EUR. */
  lemma TieSkipsEarlierPoorerAsk()
    ensures Step(Buy, samePrice, PlanState(0.00000001, [poorAsk, richAsk], unequalBalances, seeded, [])) == Ok(tiedBought)
  {
    assert BestIndex(Buy, [poorAsk, richAsk]) == 1;
    assert Dequeue(Buy, [poorAsk, richAsk]) == Dequeued(richAsk, 1, [poorAsk]);
    RichAskFillsWhole();
    RichBookRunsOut();
    assert [] + [Order(0.00000001, 1, Buy)] == [Order(0.00000001, 1, Buy)];
  }

  /** The loop stops after that iteration: the demand is met. */
  lemma RunStopsAfterReversedTie()
    ensures Run(Buy, samePrice, [2, 1], PlanState(0.00000001, [poorAsk, richAsk], unequalBalances, seeded, [])) == Ok(tiedBought)
  {
    assert CursorsFit(samePrice, seeded);
    assert KeysEnumerate(samePrice, [2, 1]);
    TieSkipsEarlierPoorerAsk();
    LastStepEndsRun(Buy, samePrice, [2, 1], PlanState(0.00000001, [poorAsk, richAsk], unequalBalances, seeded, []), tiedBought);
  }

  /** Seeding and the fill loop together end in that state. */
  lemma ReversedTieStopsOnceFilled()
    ensures Execute(PlaceMarketOrderCommand(0.00000001, Buy), reversedTieSnapshot) == Ok(tiedBought)
  {
    SeedsPoorAskFirst();
    RunStopsAfterReversedTie();
    assert Initial(PlaceMarketOrderCommand(0.00000001, Buy), reversedTieSnapshot, Seeded([poorAsk, richAsk], seeded))
        == PlanState(0.00000001, [poorAsk, richAsk], unequalBalances, seeded, []);
  }

  /** With the poorer exchange's ask queued first, buying 0.00000001 BTC still
      yields one line on exchange 1: the balance, not the queueing order,
      decides the tie. */
  lemma ReversedTiePlansOnLargerBalance()
    ensures Handle(PlaceMarketOrderCommand(0.00000001, Buy), reversedTieSnapshot) == Ok([Order(0.00000001, 1, Buy)])
  {
    ReversedTieStopsOnceFilled();
    SingleFillIsItsOwnPlan(Order(0.00000001, 1, Buy));
  }
}
