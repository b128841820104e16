/** Properties of whole planning runs: seeding, the fill loop, and the plan
    the handler returns. */
module PlanProperties {
  import opened Types
  import opened Priorities
  import opened OrderQueue
  import opened Ledger
  import opened Frontier
  import opened Consolidation
  import opened Planner
  import opened Invariants

  /** Some queued candidate belongs to exchange `k`. */
  predicate Queued(q: seq<Entry>, k: int)
  {
    exists i :: 0 <= i < |q| && q[i].order.exchangeId == k
  }

  /** Seeding, on books whose orders carry their book's exchange id, queues a
      candidate for every non-empty book listed in `pending` and keeps every candidate already queued. */
  lemma {:induction false} SeedFromQueuesEveryBook(t: OrderType, exchanges: map<int, Exchange>, books: Books, pending: seq<int>, acc: Seeded)
    requires Keyed(books) && CursorsFit(books, acc.cursors)
    requires forall i :: 0 <= i < |pending| ==> pending[i] in books
    ensures var r := SeedFrom(t, exchanges, books, pending, acc);
      r.Ok? ==>
        && (forall k :: k in pending && |books[k]| > 0 ==> Queued(r.value.queue, k))
        && (forall k :: Queued(acc.queue, k) ==> Queued(r.value.queue, k))
    decreases |pending|
  {
    if |pending| > 0 {
      var k := pending[0];
      var rest := pending[1..];
      assert forall k' :: k' in pending ==> k' == k || k' in rest;
      if |books[k]| == 0 {
        SeedFromQueuesEveryBook(t, exchanges, books, rest, acc);
      } else {
        var first := books[k][0];
        if first.exchangeId in exchanges {
          var entry := Entry(first, ResolvePriority(first, t, exchanges[first.exchangeId]));
          var next := Seeded(acc.queue + [entry], acc.cursors[k := 1]);
          forall k' | Queued(acc.queue, k') ensures Queued(next.queue, k') {
            var i :| 0 <= i < |acc.queue| && acc.queue[i].order.exchangeId == k';
            assert next.queue[i] == acc.queue[i];
          }
          assert next.queue[|acc.queue|] == entry && first.exchangeId == k;
          SeedFromQueuesEveryBook(t, exchanges, books, rest, next);
        }
      }
    }
  }

  /** Seeding moves the cursor of every non-empty book listed in `pending` to
      one and leaves every other cursor where it was. */
  lemma {:induction false} SeedFromSetsCursors(t: OrderType, exchanges: map<int, Exchange>, books: Books, pending: seq<int>, acc: Seeded)
    requires CursorsFit(books, acc.cursors)
    requires forall i :: 0 <= i < |pending| ==> pending[i] in books
    ensures var r := SeedFrom(t, exchanges, books, pending, acc);
      r.Ok? ==> forall k :: k in books ==>
        r.value.cursors[k] == if k in pending && |books[k]| > 0 then 1 else acc.cursors[k]
    decreases |pending|
  {
    if |pending| > 0 {
      var k := pending[0];
      var rest := pending[1..];
      assert forall k' :: k' in pending <==> k' == k || k' in rest;
      if |books[k]| == 0 {
        SeedFromSetsCursors(t, exchanges, books, rest, acc);
      } else {
        var first := books[k][0];
        if first.exchangeId in exchanges {
          var entry := Entry(first, ResolvePriority(first, t, exchanges[first.exchangeId]));
          SeedFromSetsCursors(t, exchanges, books, rest, Seeded(acc.queue + [entry], acc.cursors[k := 1]));
        }
      }
    }
  }

  /** Seeding, on books whose orders carry their book's exchange id, keeps one
      candidate per exchange, each the first order of its book at a cursor of one. */
  lemma {:induction false} SeedFromKeepsFrontier(t: OrderType, exchanges: map<int, Exchange>, books: Books, pending: seq<int>, acc: Seeded)
    requires Keyed(books) && CursorsFit(books, acc.cursors)
    requires forall i :: 0 <= i < |pending| ==> pending[i] in books && acc.cursors[pending[i]] == 0
    requires forall i, j :: 0 <= i < j < |pending| ==> pending[i] != pending[j]
    requires FrontierInvariant(books, PlanState(0.0, acc.queue, exchanges, acc.cursors, []))
    requires forall i :: 0 <= i < |acc.queue| ==> acc.cursors[acc.queue[i].order.exchangeId] == 1
    requires forall i :: 0 <= i < |acc.queue| ==> acc.queue[i].order == books[acc.queue[i].order.exchangeId][0]
    ensures var r := SeedFrom(t, exchanges, books, pending, acc);
      r.Ok? ==>
        && FrontierInvariant(books, PlanState(0.0, r.value.queue, exchanges, r.value.cursors, []))
        && (forall i :: 0 <= i < |r.value.queue| ==> r.value.cursors[r.value.queue[i].order.exchangeId] == 1)
        && (forall i :: 0 <= i < |r.value.queue| ==> r.value.queue[i].order == books[r.value.queue[i].order.exchangeId][0])
    decreases |pending|
  {
    if |pending| > 0 {
      var k := pending[0];
      var rest := pending[1..];
      if |books[k]| == 0 {
        SeedFromKeepsFrontier(t, exchanges, books, rest, acc);
      } else {
        var first := books[k][0];
        if first.exchangeId in exchanges {
          var entry := Entry(first, ResolvePriority(first, t, exchanges[first.exchangeId]));
          EnqueueFirstKeepsFrontier(exchanges, books, acc, k, entry);
          assert k !in rest;
          SeedFromKeepsFrontier(t, exchanges, books, rest, Seeded(acc.queue + [entry], acc.cursors[k := 1]));
        }
      }
    }
  }

  /** Enqueueing the first order of a book not yet pulled from, and moving
      its cursor to one, keeps the seeding invariant. */
  lemma EnqueueFirstKeepsFrontier(exchanges: map<int, Exchange>, books: Books, acc: Seeded, k: int, entry: Entry)
    requires Keyed(books) && CursorsFit(books, acc.cursors)
    requires k in books && |books[k]| > 0 && acc.cursors[k] == 0
    requires entry.order == books[k][0] && entry.priority.price == entry.order.price
    requires FrontierInvariant(books, PlanState(0.0, acc.queue, exchanges, acc.cursors, []))
    requires forall i :: 0 <= i < |acc.queue| ==> acc.cursors[acc.queue[i].order.exchangeId] == 1
    requires forall i :: 0 <= i < |acc.queue| ==> acc.queue[i].order == books[acc.queue[i].order.exchangeId][0]
    ensures var next := Seeded(acc.queue + [entry], acc.cursors[k := 1]);
      && FrontierInvariant(books, PlanState(0.0, next.queue, exchanges, next.cursors, []))
      && (forall i :: 0 <= i < |next.queue| ==> next.cursors[next.queue[i].order.exchangeId] == 1)
      && (forall i :: 0 <= i < |next.queue| ==> next.queue[i].order == books[next.queue[i].order.exchangeId][0])
  {
    var next := Seeded(acc.queue + [entry], acc.cursors[k := 1]);
    forall i | 0 <= i < |acc.queue|
      ensures acc.queue[i].order.exchangeId != k
    {
      assert acc.cursors[acc.queue[i].order.exchangeId] == 1;
    }
    forall i | 0 <= i < |acc.queue|
      ensures next.queue[i] == acc.queue[i] && AtFrontier(books, next.cursors, next.queue[i])
    {
    }
    assert next.queue[|acc.queue|] == entry;
  }

  /** Seeding on a sound snapshot succeeds and queues only sound candidates. */
  lemma {:induction false} SeedFromSound(t: OrderType, snap: Snapshot, pending: seq<int>, acc: Seeded)
    requires SoundSnapshot(snap) && CursorsFit(snap.books, acc.cursors)
    requires forall i :: 0 <= i < |pending| ==> pending[i] in snap.books
    requires forall i :: 0 <= i < |acc.queue| ==> SoundOrder(snap.exchanges, snap.books, acc.queue[i].order)
    ensures var r := SeedFrom(t, snap.exchanges, snap.books, pending, acc);
      && r.Ok?
      && forall i :: 0 <= i < |r.value.queue| ==> SoundOrder(snap.exchanges, snap.books, r.value.queue[i].order)
    decreases |pending|
  {
    if |pending| > 0 {
      var k := pending[0];
      if |snap.books[k]| == 0 {
        SeedFromSound(t, snap, pending[1..], acc);
      } else {
        var first := snap.books[k][0];
        assert SoundOrder(snap.exchanges, snap.books, first);
        var entry := Entry(first, ResolvePriority(first, t, snap.exchanges[first.exchangeId]));
        SeedFromSound(t, snap, pending[1..], Seeded(acc.queue + [entry], acc.cursors[k := 1]));
      }
    }
  }

  /** Entry `e` is keyed by its order's price and by the tie-break balance
      its exchange holds in `exchanges`. */
  predicate KeyedByBalance(t: OrderType, exchanges: map<int, Exchange>, e: Entry)
  {
    e.order.exchangeId in exchanges && e.priority == ResolvePriority(e.order, t, exchanges[e.order.exchangeId])
  }

  /** Seeding keys every candidate it queues with its exchange's starting
      balance: EUR for a buy, BTC for a sell. */
  lemma {:induction false} SeedFromKeysByBalance(t: OrderType, exchanges: map<int, Exchange>, books: Books, pending: seq<int>, acc: Seeded)
    requires CursorsFit(books, acc.cursors)
    requires forall i :: 0 <= i < |pending| ==> pending[i] in books
    requires forall i :: 0 <= i < |acc.queue| ==> KeyedByBalance(t, exchanges, acc.queue[i])
    ensures var r := SeedFrom(t, exchanges, books, pending, acc);
      r.Ok? ==> forall i :: 0 <= i < |r.value.queue| ==>
        && r.value.queue[i].order.exchangeId in exchanges
        && r.value.queue[i].priority.price == r.value.queue[i].order.price
        && (t == Buy ==> r.value.queue[i].priority.balance == exchanges[r.value.queue[i].order.exchangeId].eurBalance)
        && (t == Sell ==> r.value.queue[i].priority.balance == exchanges[r.value.queue[i].order.exchangeId].btcBalance)
        && KeyedByBalance(t, exchanges, r.value.queue[i])
    decreases |pending|
  {
    var r := SeedFrom(t, exchanges, books, pending, acc);
    if |pending| == 0 {
      forall i | 0 <= i < |acc.queue|
        ensures acc.queue[i].priority == ResolvePriority(acc.queue[i].order, t, exchanges[acc.queue[i].order.exchangeId])
      {
        assert KeyedByBalance(t, exchanges, acc.queue[i]);
      }
    } else {
      var k := pending[0];
      if |books[k]| == 0 {
        SeedFromKeysByBalance(t, exchanges, books, pending[1..], acc);
      } else {
        var first := books[k][0];
        if first.exchangeId in exchanges {
          var entry := Entry(first, ResolvePriority(first, t, exchanges[first.exchangeId]));
          var next := Seeded(acc.queue + [entry], acc.cursors[k := 1]);
          assert forall i :: 0 <= i < |next.queue| ==> next.queue[i] == if i < |acc.queue| then acc.queue[i] else entry;
          assert r == SeedFrom(t, exchanges, books, pending[1..], next);
          SeedFromKeysByBalance(t, exchanges, books, pending[1..], next);
        }
      }
    }
  }

  /** The initial queue holds exactly one candidate for each exchange with a
      non-empty book: the first order of that book. */
  lemma BuildPriorityQueueSeedsEveryBook(t: OrderType, snap: Snapshot)
    requires KeysEnumerate(snap.books, snap.keys) && Keyed(snap.books)
    ensures var r := BuildPriorityQueue(t, snap);
      r.Ok? ==>
        && FrontierInvariant(snap.books, PlanState(0.0, r.value.queue, snap.exchanges, r.value.cursors, []))
        && (forall i :: 0 <= i < |r.value.queue| ==>
              var k := r.value.queue[i].order.exchangeId;
              r.value.cursors[k] == 1 && r.value.queue[i].order == snap.books[k][0])
        && (forall k :: k in snap.books ==> (|snap.books[k]| > 0 <==> Queued(r.value.queue, k)))
        && (forall k :: k in snap.books ==> r.value.cursors[k] == if |snap.books[k]| > 0 then 1 else 0)
        && (forall i :: 0 <= i < |r.value.queue| ==>
              r.value.queue[i].order.exchangeId in snap.exchanges
              && r.value.queue[i].priority
                 == ResolvePriority(r.value.queue[i].order, t, snap.exchanges[r.value.queue[i].order.exchangeId]))
  {
    var start := Seeded([], StartCursors(snap.books));
    SeedFromKeysByBalance(t, snap.exchanges, snap.books, snap.keys, start);
    SeedFromQueuesEveryBook(t, snap.exchanges, snap.books, snap.keys, start);
    SeedFromSetsCursors(t, snap.exchanges, snap.books, snap.keys, start);
    SeedFromKeepsFrontier(t, snap.exchanges, snap.books, snap.keys, start);
    var r := BuildPriorityQueue(t, snap);
    if r.Ok? {
      var q := r.value.queue;
      var fs := PlanState(0.0, q, snap.exchanges, r.value.cursors, []);
      forall k | k in snap.books && Queued(q, k) ensures |snap.books[k]| > 0 {
        var i :| 0 <= i < |q| && q[i].order.exchangeId == k;
        assert AtFrontier(snap.books, r.value.cursors, q[i]);
      }
    }
  }

  /** The fill loop keeps the fill accounting. */
  lemma {:induction false} RunKeepsAccounting(t: OrderType, books: Books, keys: seq<int>, s: PlanState, amount: real)
    requires CursorsFit(books, s.cursors) && KeysEnumerate(books, keys)
    requires Accounting(t, amount, s)
    ensures var r := Run(t, books, keys, s); r.Ok? ==> Accounting(t, amount, r.value)
    decreases Pending(books, s.cursors, keys) + |s.queue|, if s.remaining > 0.0 then 1 else 0, Live(t, s.exchanges, s.queue)
  {
    if s.remaining > 0.0 && |s.queue| > 0 {
      var r := Step(t, books, s);
      if r.Ok? {
        StepMakesProgress(t, books, keys, s);
        StepKeepsAccounting(t, books, s, amount);
        RunKeepsAccounting(t, books, keys, r.value, amount);
      }
    }
  }

  /** The fill loop keeps the balances in step with the fills. */
  lemma {:induction false} RunKeepsLedger(t: OrderType, books: Books, keys: seq<int>, s: PlanState, init: map<int, Exchange>)
    requires CursorsFit(books, s.cursors) && KeysEnumerate(books, keys)
    requires LedgerMatchesFills(t, init, s)
    ensures var r := Run(t, books, keys, s); r.Ok? ==> LedgerMatchesFills(t, init, r.value)
    decreases Pending(books, s.cursors, keys) + |s.queue|, if s.remaining > 0.0 then 1 else 0, Live(t, s.exchanges, s.queue)
  {
    if s.remaining > 0.0 && |s.queue| > 0 {
      var r := Step(t, books, s);
      if r.Ok? {
        StepMakesProgress(t, books, keys, s);
        StepKeepsLedger(t, books, s, init);
        RunKeepsLedger(t, books, keys, r.value, init);
      }
    }
  }

  /** On a sound snapshot the fill loop never fails and keeps every balance
      non-negative. */
  lemma {:induction false} RunKeepsSolvency(t: OrderType, snap: Snapshot, s: PlanState)
    requires CursorsFit(snap.books, s.cursors) && KeysEnumerate(snap.books, snap.keys)
    requires SoundSnapshot(snap) && Solvent(t, snap.exchanges, snap.books, s)
    ensures var r := Run(t, snap.books, snap.keys, s); r.Ok? && Solvent(t, snap.exchanges, snap.books, r.value)
    decreases Pending(snap.books, s.cursors, snap.keys) + |s.queue|, if s.remaining > 0.0 then 1 else 0, Live(t, s.exchanges, s.queue)
  {
    if s.remaining > 0.0 && |s.queue| > 0 {
      StepKeepsSolvency(t, snap.books, s, snap.exchanges, snap);
      var r := Step(t, snap.books, s);
      StepMakesProgress(t, snap.books, snap.keys, s);
      RunKeepsSolvency(t, snap, r.value);
    }
  }

  /** On books whose orders carry their book's exchange id, the fill loop
      keeps at most one candidate per exchange, each at its exchange's cursor. */
  lemma {:induction false} RunKeepsFrontier(t: OrderType, books: Books, keys: seq<int>, s: PlanState)
    requires CursorsFit(books, s.cursors) && KeysEnumerate(books, keys) && Keyed(books)
    requires FrontierInvariant(books, s)
    ensures var r := Run(t, books, keys, s); r.Ok? ==> FrontierInvariant(books, r.value)
    decreases Pending(books, s.cursors, keys) + |s.queue|, if s.remaining > 0.0 then 1 else 0, Live(t, s.exchanges, s.queue)
  {
    if s.remaining > 0.0 && |s.queue| > 0 {
      var r := Step(t, books, s);
      if r.Ok? {
        StepMakesProgress(t, books, keys, s);
        StepKeepsFrontier(t, books, s);
        RunKeepsFrontier(t, books, keys, r.value);
      }
    }
  }

  /** Over the whole loop, cursors never move backwards. */
  lemma {:induction false} RunMovesCursorsForward(t: OrderType, books: Books, keys: seq<int>, s: PlanState)
    requires CursorsFit(books, s.cursors) && KeysEnumerate(books, keys)
    ensures var r := Run(t, books, keys, s);
      r.Ok? ==> r.value.cursors.Keys == s.cursors.Keys && forall k :: k in s.cursors ==> s.cursors[k] <= r.value.cursors[k]
    decreases Pending(books, s.cursors, keys) + |s.queue|, if s.remaining > 0.0 then 1 else 0, Live(t, s.exchanges, s.queue)
  {
    if s.remaining > 0.0 && |s.queue| > 0 {
      var r := Step(t, books, s);
      if r.Ok? {
        StepMakesProgress(t, books, keys, s);
        StepMovesCursorsForward(t, books, s);
        RunMovesCursorsForward(t, books, keys, r.value);
      }
    }
  }

  /** The raw fills never exceed the requested amount; a request of zero or
      less fills nothing; every fill is positive and of the command's side. */
  lemma RawFillsWithinRequest(cmd: PlaceMarketOrderCommand, snap: Snapshot)
    requires KeysEnumerate(snap.books, snap.keys)
    ensures var r := Execute(cmd, snap);
      r.Ok? ==>
        && (cmd.amount <= 0.0 ==> r.value.fills == [])
        && (cmd.amount > 0.0 ==> Total(r.value.fills) <= cmd.amount)
        && forall i :: 0 <= i < |r.value.fills| ==>
             r.value.fills[i].amount > 0.0 && r.value.fills[i].orderType == cmd.orderType
  {
    var seeded := BuildPriorityQueue(cmd.orderType, snap);
    if seeded.Ok? {
      RunKeepsAccounting(cmd.orderType, snap.books, snap.keys, Initial(cmd, snap, seeded.value), cmd.amount);
    }
  }

  /** The consolidated plan never exceeds the requested amount; a request of
      zero or less plans nothing; every line is positive and carries the
      command's order type. */
  lemma FilledNeverExceedsRequest(cmd: PlaceMarketOrderCommand, snap: Snapshot)
    requires KeysEnumerate(snap.books, snap.keys)
    ensures var r := Handle(cmd, snap);
      r.Ok? ==>
        && (cmd.amount <= 0.0 ==> r.value == [])
        && (cmd.amount > 0.0 ==> Total(r.value) <= cmd.amount)
        && forall i :: 0 <= i < |r.value| ==> r.value[i].amount > 0.0 && r.value[i].orderType == cmd.orderType
  {
    RawFillsWithinRequest(cmd, snap);
    var r := Execute(cmd, snap);
    if r.Ok? {
      ConsolidatePreservesTotal(r.value.fills, cmd.orderType);
      ConsolidatedLinesArePositive(r.value.fills, cmd.orderType);
      if cmd.amount <= 0.0 {
        assert GroupKeys(r.value.fills) == [];
      }
    }
  }

  /** When something is requested, the plan falls short of it only if the
      queue ran out of candidates. */
  lemma ShortfallOnlyWhenQueueRunsDry(cmd: PlaceMarketOrderCommand, snap: Snapshot)
    requires KeysEnumerate(snap.books, snap.keys)
    requires cmd.amount > 0.0
    ensures var r := Execute(cmd, snap);
      r.Ok? ==> Total(r.value.fills) == cmd.amount || |r.value.queue| == 0
  {
    var seeded := BuildPriorityQueue(cmd.orderType, snap);
    if seeded.Ok? {
      RunKeepsAccounting(cmd.orderType, snap.books, snap.keys, Initial(cmd, snap, seeded.value), cmd.amount);
    }
  }

  /** A request of zero or less changes no balance and yields an empty plan. */
  lemma NonPositiveAmountPlansNothing(cmd: PlaceMarketOrderCommand, snap: Snapshot)
    requires KeysEnumerate(snap.books, snap.keys)
    requires cmd.amount <= 0.0
    ensures var r := Execute(cmd, snap);
      r.Ok? ==> r.value.fills == [] && r.value.exchanges == snap.exchanges
    ensures var r := Handle(cmd, snap); r.Ok? ==> r.value == []
  {
    var r := Execute(cmd, snap);
    if r.Ok? {
      assert GroupKeys(r.value.fills) == [];
    }
  }

  /** Books without any orders yield an empty plan and change no balance. */
  lemma EmptyBooksPlanNothing(cmd: PlaceMarketOrderCommand, snap: Snapshot)
    requires KeysEnumerate(snap.books, snap.keys)
    requires forall k :: k in snap.books ==> |snap.books[k]| == 0
    ensures Execute(cmd, snap).Ok?
    ensures Execute(cmd, snap).value.fills == [] && Execute(cmd, snap).value.exchanges == snap.exchanges
    ensures Handle(cmd, snap) == Ok([])
  {
    forall i | 0 <= i < |snap.keys| ensures snap.keys[i] in snap.books && |snap.books[snap.keys[i]]| == 0 {
      var k := snap.keys[i];
      assert k in snap.books;
    }
    SeedEmptyBooks(cmd.orderType, snap, snap.keys, Seeded([], StartCursors(snap.books)));
    assert GroupKeys([]) == [];
  }

  lemma {:induction false} SeedEmptyBooks(t: OrderType, snap: Snapshot, pending: seq<int>, acc: Seeded)
    requires CursorsFit(snap.books, acc.cursors)
    requires forall i :: 0 <= i < |pending| ==> pending[i] in snap.books && |snap.books[pending[i]]| == 0
    ensures SeedFrom(t, snap.exchanges, snap.books, pending, acc) == Ok(acc)
    decreases |pending|
  {
    if |pending| > 0 {
      SeedEmptyBooks(t, snap, pending[1..], acc);
    }
  }

  /** On a sound snapshot (no negative balance, every book order priced above
      zero and naming an exchange that has balances and a book) planning
      never fails, no balance ends negative, the spent currency only goes
      down and the received one only goes up. */
  lemma SoundSnapshotStaysSolvent(cmd: PlaceMarketOrderCommand, snap: Snapshot)
    requires KeysEnumerate(snap.books, snap.keys) && SoundSnapshot(snap)
    ensures Execute(cmd, snap).Ok? && Handle(cmd, snap).Ok?
    ensures var final := Execute(cmd, snap).value.exchanges;
      && final.Keys == snap.exchanges.Keys
      && forall k :: k in final ==>
           && final[k].eurBalance >= 0.0 && final[k].btcBalance >= 0.0
           && (cmd.orderType == Buy ==> final[k].eurBalance <= snap.exchanges[k].eurBalance)
           && (cmd.orderType == Sell ==> final[k].btcBalance <= snap.exchanges[k].btcBalance)
  {
    var start := Seeded([], StartCursors(snap.books));
    SeedFromSound(cmd.orderType, snap, snap.keys, start);
    var seeded := BuildPriorityQueue(cmd.orderType, snap);
    RunKeepsSolvency(cmd.orderType, snap, Initial(cmd, snap, seeded.value));
  }

  /** Planning keeps the balances in step with the raw fills. */
  lemma ExecuteKeepsLedger(cmd: PlaceMarketOrderCommand, snap: Snapshot)
    requires KeysEnumerate(snap.books, snap.keys)
    ensures var r := Execute(cmd, snap);
      r.Ok? ==> LedgerMatchesFills(cmd.orderType, snap.exchanges, r.value)
  {
    var seeded := BuildPriorityQueue(cmd.orderType, snap);
    if seeded.Ok? {
      RunKeepsLedger(cmd.orderType, snap.books, snap.keys, Initial(cmd, snap, seeded.value), snap.exchanges);
    }
  }

  /** When the balances follow the raw fills, they follow the consolidated
      plan: one line per exchange carrying exactly its BTC movement. */
  lemma LedgerFollowsPlan(t: OrderType, init: map<int, Exchange>, s: PlanState)
    requires LedgerMatchesFills(t, init, s)
    ensures var plan := Consolidate(s.fills, t);
      && (forall i :: 0 <= i < |plan| ==>
            var k := plan[i].exchangeId;
            && k in init
            && (t == Buy ==> s.exchanges[k].btcBalance == init[k].btcBalance + plan[i].amount)
            && (t == Sell ==> s.exchanges[k].btcBalance == init[k].btcBalance - plan[i].amount))
      && (forall k :: k in init && !Mentions(plan, k) ==> s.exchanges[k] == init[k])
  {
    var plan := Consolidate(s.fills, t);
    forall i | 0 <= i < |plan| ensures plan[i].exchangeId in init {
      var j :| 0 <= j < |s.fills| && s.fills[j].exchangeId == plan[i].exchangeId;
    }
  }

  /** Each exchange's final BTC balance differs from its starting one by
      exactly the amount of its line in the consolidated plan (added when
      buying, taken when selling); an exchange without a line keeps its
      balances untouched. */
  lemma BalancesFollowPlan(cmd: PlaceMarketOrderCommand, snap: Snapshot)
    requires KeysEnumerate(snap.books, snap.keys)
    ensures var r := Execute(cmd, snap);
      r.Ok? ==>
        var plan := Consolidate(r.value.fills, cmd.orderType);
        && r.value.exchanges.Keys == snap.exchanges.Keys
        && (forall i :: 0 <= i < |plan| ==>
              var k := plan[i].exchangeId;
              && k in snap.exchanges
              && (cmd.orderType == Buy ==> r.value.exchanges[k].btcBalance == snap.exchanges[k].btcBalance + plan[i].amount)
              && (cmd.orderType == Sell ==> r.value.exchanges[k].btcBalance == snap.exchanges[k].btcBalance - plan[i].amount))
        && (forall k :: k in snap.exchanges && !Mentions(plan, k) ==> r.value.exchanges[k] == snap.exchanges[k])
  {
    ExecuteKeepsLedger(cmd, snap);
    var r := Execute(cmd, snap);
    if r.Ok? {
      LedgerFollowsPlan(cmd.orderType, snap.exchanges, r.value);
    }
  }
}
