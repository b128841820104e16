/** The greedy market-order planner: seed the best-first queue with each
    exchange's best book order, then repeatedly take the best candidate, fill
    as much of it as demand, the order and the exchange's balance allow, book
    the fill, and re-feed the queue; finally consolidate the fills. */
module Planner {
  import opened Types
  import opened Priorities
  import opened OrderQueue
  import opened Ledger
  import opened Frontier
  import opened Consolidation

  /** What one planning run reads: balances by exchange id, order books by
      exchange id (each pre-sorted best price first), and the order in which
      the books map enumerates its keys. */
  datatype Snapshot = Snapshot(exchanges: map<int, Exchange>, books: Books, keys: seq<int>)

  /** The planner's state between two iterations of the fill loop. */
  datatype PlanState = PlanState(
    remaining: real,                  // BTC still to fill
    queue: seq<Entry>,                // best-first candidate queue
    exchanges: map<int, Exchange>,    // balances as updated by the fills so far
    cursors: map<int, nat>,           // book orders pulled so far, per book
    fills: seq<Order>)                // raw fill lines, in the order they were taken

  datatype Seeded = Seeded(queue: seq<Entry>, cursors: map<int, nat>)

  /** No book order has been pulled yet. */
  function StartCursors(books: Books): (c: map<int, nat>)
    ensures CursorsFit(books, c)
    ensures forall k :: k in c ==> c[k] == 0
  {
    map k | k in books :: 0
  }

  /** Enqueue the first order of every book listed in `pending`, in that order;
      an empty book contributes nothing. */
  function SeedFrom(t: OrderType, exchanges: map<int, Exchange>, books: Books, pending: seq<int>, acc: Seeded): (r: Result<Seeded>)
    requires CursorsFit(books, acc.cursors)
    requires forall i :: 0 <= i < |pending| ==> pending[i] in books
    ensures r.Ok? ==> CursorsFit(books, r.value.cursors)
    decreases |pending|
  {
    if |pending| == 0 then Ok(acc)
    else
      var k := pending[0];
      if |books[k]| == 0 then SeedFrom(t, exchanges, books, pending[1..], acc)
      else
        var first := books[k][0];
        if first.exchangeId !in exchanges then Err(UnknownExchange(first.exchangeId))
        else
          var entry := Entry(first, ResolvePriority(first, t, exchanges[first.exchangeId]));
          SeedFrom(t, exchanges, books, pending[1..], Seeded(acc.queue + [entry], acc.cursors[k := 1]))
  }

  /** The initial queue: each exchange's best book order, keyed by its price
      and its exchange's tie-break balance. */
  function BuildPriorityQueue(t: OrderType, snap: Snapshot): (r: Result<Seeded>)
    requires KeysEnumerate(snap.books, snap.keys)
    ensures r.Ok? ==> CursorsFit(snap.books, r.value.cursors)
  {
    SeedFrom(t, snap.exchanges, snap.books, snap.keys, Seeded([], StartCursors(snap.books)))
  }

  /** Put back what is left of a partly filled book order, keyed with the
      balance the exchange had BEFORE the fill; or, when the order was used up,
      pull the exchange's next book order, keyed with its balance AFTER the fill. */
  function ReplaceDequeuedOrder(t: OrderType, books: Books, s: PlanState, fill: real, order: BookOrder, exchange: Exchange): (r: Result<PlanState>)
    requires CursorsFit(books, s.cursors)
    requires order.exchangeId in s.exchanges
    ensures r.Ok? ==> CursorsFit(books, r.value.cursors)
  {
    if fill < order.amount then
      var remainder := order.(amount := order.amount - fill);
      Ok(s.(queue := s.queue + [Entry(remainder, ResolvePriority(remainder, t, exchange))]))
    else if order.exchangeId !in books then Err(UnknownOrderBook(order.exchangeId))
    else
      var a := Advance(books, s.cursors, order.exchangeId);
      match a.next
      case None => Ok(s.(cursors := a.cursors))
      case Some(next) =>
        var priority := ResolvePriority(next, t, s.exchanges[order.exchangeId]);
        Ok(s.(cursors := a.cursors, queue := s.queue + [Entry(next, priority)]))
  }

  /** One iteration of the fill loop. */
  function Step(t: OrderType, books: Books, s: PlanState): (r: Result<PlanState>)
    requires s.remaining > 0.0 && |s.queue| > 0
    requires CursorsFit(books, s.cursors)
    ensures r.Ok? ==> CursorsFit(books, r.value.cursors)
  {
    var d := Dequeue(t, s.queue);
    var order := d.entry.order;
    if order.exchangeId !in s.exchanges then Err(UnknownExchange(order.exchangeId))
    else if t == Buy && order.price == 0.0 then Err(DivideByZero)
    else
      var exchange := s.exchanges[order.exchangeId];
      var fill := FillAmount(s.remaining, order.amount, SpendableBound(t, exchange, order.price));
      if fill <= 0.0 then Ok(s.(queue := d.rest))
      else
        var booked := PlanState(
          s.remaining - fill,
          d.rest,
          s.exchanges[order.exchangeId := ResolveNewExchangeBalance(t, exchange, fill, order)],
          s.cursors,
          s.fills + [Order(fill, order.exchangeId, t)]);
        ReplaceDequeuedOrder(t, books, booked, fill, order, exchange)
  }

  /** A queued candidate the exchange could still fill at least partly. */
  predicate LiveEntry(t: OrderType, exchanges: map<int, Exchange>, e: Entry)
  {
    && e.order.exchangeId in exchanges
    && (t == Buy ==> e.order.price != 0.0)
    && SpendableBound(t, exchanges[e.order.exchangeId], e.order.price) > 0.0
  }

  /** Number of live candidates in the queue. */
  function Live(t: OrderType, exchanges: map<int, Exchange>, q: seq<Entry>): nat
  {
    if |q| == 0 then 0
    else (if LiveEntry(t, exchanges, q[0]) then 1 else 0) + Live(t, exchanges, q[1..])
  }

  /** The fill loop: runs while demand remains and the queue is not empty. */
  function Run(t: OrderType, books: Books, keys: seq<int>, s: PlanState): (r: Result<PlanState>)
    requires CursorsFit(books, s.cursors) && KeysEnumerate(books, keys)
    ensures r.Ok? ==> CursorsFit(books, r.value.cursors)
    ensures r.Ok? ==> r.value.remaining <= 0.0 || |r.value.queue| == 0
    decreases Pending(books, s.cursors, keys) + |s.queue|,
              if s.remaining > 0.0 then 1 else 0,
              Live(t, s.exchanges, s.queue)
  {
    if s.remaining <= 0.0 || |s.queue| == 0 then Ok(s)
    else
      match Step(t, books, s)
      case Err(f) => Err(f)
      case Ok(next) =>
        StepMakesProgress(t, books, keys, s);
        Run(t, books, keys, next)
  }

  /** The state the fill loop starts in. */
  function Initial(cmd: PlaceMarketOrderCommand, snap: Snapshot, seeded: Seeded): PlanState
  {
    PlanState(cmd.amount, seeded.queue, snap.exchanges, seeded.cursors, [])
  }

  /** Seed the queue and run the fill loop; the final state carries the raw
      fills and the updated balances. */
  function Execute(cmd: PlaceMarketOrderCommand, snap: Snapshot): (r: Result<PlanState>)
    requires KeysEnumerate(snap.books, snap.keys)
    ensures r.Ok? ==> BuildPriorityQueue(cmd.orderType, snap).Ok?
    ensures r.Ok? ==> CursorsFit(snap.books, r.value.cursors)
    ensures r.Ok? ==> r.value.remaining <= 0.0 || |r.value.queue| == 0
  {
    var seeded :- BuildPriorityQueue(cmd.orderType, snap);
    Run(cmd.orderType, snap.books, snap.keys, Initial(cmd, snap, seeded))
  }

  /** The command handler: the consolidated execution plan. */
  function Handle(cmd: PlaceMarketOrderCommand, snap: Snapshot): (r: Result<seq<Order>>)
    requires KeysEnumerate(snap.books, snap.keys)
    ensures r.Ok? <==> Execute(cmd, snap).Ok?
    ensures r.Ok? ==> Total(r.value) == Total(Execute(cmd, snap).value.fills)
    ensures r.Ok? ==> forall id :: Mentions(r.value, id) <==> Mentions(Execute(cmd, snap).value.fills, id)
    ensures r.Ok? ==> forall i, j :: 0 <= i < j < |r.value| ==> r.value[i].exchangeId != r.value[j].exchangeId
  {
    var final :- Execute(cmd, snap);
    ConsolidatePreservesTotal(final.fills, cmd.orderType);
    Ok(Consolidate(final.fills, cmd.orderType))
  }

  lemma {:induction false} LiveAppend(t: OrderType, exchanges: map<int, Exchange>, a: seq<Entry>, b: seq<Entry>)
    ensures Live(t, exchanges, a + b) == Live(t, exchanges, a) + Live(t, exchanges, b)
  {
    if |a| == 0 {
      assert a + b == b;
    } else {
      assert (a + b)[1..] == a[1..] + b;
      LiveAppend(t, exchanges, a[1..], b);
    }
  }

  lemma {:induction false} LiveShrinks(t: OrderType, before: map<int, Exchange>, after: map<int, Exchange>, q: seq<Entry>)
    requires forall i :: 0 <= i < |q| && LiveEntry(t, after, q[i]) ==> LiveEntry(t, before, q[i])
    ensures Live(t, after, q) <= Live(t, before, q)
  {
    if |q| > 0 {
      assert forall i :: 0 <= i < |q[1..]| ==> q[1..][i] == q[i + 1];
      LiveShrinks(t, before, after, q[1..]);
    }
  }

  /** Taking out the candidate at `i` lowers the live count by its own share. */
  lemma LiveRemove(t: OrderType, exchanges: map<int, Exchange>, q: seq<Entry>, i: nat)
    requires i < |q|
    ensures Live(t, exchanges, q)
         == Live(t, exchanges, q[..i] + q[i + 1..]) + (if LiveEntry(t, exchanges, q[i]) then 1 else 0)
  {
    assert q == q[..i] + [q[i]] + q[i + 1..];
    LiveAppend(t, exchanges, q[..i] + [q[i]], q[i + 1..]);
    LiveAppend(t, exchanges, q[..i], [q[i]]);
    LiveAppend(t, exchanges, q[..i], q[i + 1..]);
    assert [q[i]][1..] == [];
  }

  /** A partial fill that leaves demand open used up the exchange's whole
      spendable balance, so the queue holds one live candidate fewer. */
  lemma PartialFillLosesLiveCandidate(t: OrderType, books: Books, s: PlanState)
    requires s.remaining > 0.0 && |s.queue| > 0 && CursorsFit(books, s.cursors)
    requires Step(t, books, s).Ok?
    requires var d := Dequeue(t, s.queue);
      var order := d.entry.order;
      var n := Step(t, books, s).value;
      && n.remaining > 0.0
      && 0.0 < FillAmount(s.remaining, order.amount, SpendableBound(t, s.exchanges[order.exchangeId], order.price)) < order.amount
    ensures Live(t, Step(t, books, s).value.exchanges, Step(t, books, s).value.queue) < Live(t, s.exchanges, s.queue)
  {
    var d := Dequeue(t, s.queue);
    var order := d.entry.order;
    var k := order.exchangeId;
    var exchange := s.exchanges[k];
    var bound := SpendableBound(t, exchange, order.price);
    var fill := FillAmount(s.remaining, order.amount, bound);
    var n := Step(t, books, s).value;
    assert fill == bound;
    forall i | 0 <= i < |d.rest| && LiveEntry(t, n.exchanges, d.rest[i])
      ensures LiveEntry(t, s.exchanges, d.rest[i])
    {
      if d.rest[i].order.exchangeId == k {
        ExhaustingFillEmptiesBalance(t, exchange, fill, order, d.rest[i].order.price);
      }
    }
    LiveShrinks(t, s.exchanges, n.exchanges, d.rest);
    var remainder := order.(amount := order.amount - fill);
    var back := Entry(remainder, ResolvePriority(remainder, t, exchange));
    ExhaustingFillEmptiesBalance(t, exchange, fill, order, remainder.price);
    assert n.queue == d.rest + [back];
    LiveAppend(t, n.exchanges, d.rest, [back]);
    assert [back][1..] == [];
    LiveRemove(t, s.exchanges, s.queue, d.index);
  }

  /** Every iteration makes progress: it either drops a candidate or uses up
      a book order (fewer pending book orders plus queued candidates), or it
      fills part of a candidate, which either meets the remaining demand or
      empties the exchange's spendable balance (one live candidate fewer). */
  lemma StepMakesProgress(t: OrderType, books: Books, keys: seq<int>, s: PlanState)
    requires s.remaining > 0.0 && |s.queue| > 0
    requires CursorsFit(books, s.cursors) && KeysEnumerate(books, keys)
    requires Step(t, books, s).Ok?
    ensures var n := Step(t, books, s).value;
      var before := Pending(books, s.cursors, keys) + |s.queue|;
      var after := Pending(books, n.cursors, keys) + |n.queue|;
      after < before
      || (after == before && (n.remaining <= 0.0 || Live(t, n.exchanges, n.queue) < Live(t, s.exchanges, s.queue)))
  {
    var d := Dequeue(t, s.queue);
    var order := d.entry.order;
    var k := order.exchangeId;
    var fill := FillAmount(s.remaining, order.amount, SpendableBound(t, s.exchanges[k], order.price));
    var n := Step(t, books, s).value;
    if fill > 0.0 {
      if fill < order.amount {
        if n.remaining > 0.0 {
          PartialFillLosesLiveCandidate(t, books, s);
        }
      } else {
        AdvanceConsumesOne(books, s.cursors, keys, k);
      }
    }
  }
}
