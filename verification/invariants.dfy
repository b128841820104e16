/** What one iteration of the fill loop does, and the invariants it keeps. */
module Invariants {
  import opened Types
  import opened Priorities
  import opened OrderQueue
  import opened Ledger
  import opened Frontier
  import opened Planner

  /** Fill accounting against a request of `amount`: what was filled plus what
      remains is the request; every fill is positive and of the command's side;
      once something was filled, the remaining demand is not negative. */
  predicate Accounting(t: OrderType, amount: real, s: PlanState)
  {
    && Total(s.fills) + s.remaining == amount
    && (|s.fills| > 0 ==> s.remaining >= 0.0)
    && forall i :: 0 <= i < |s.fills| ==> s.fills[i].amount > 0.0 && s.fills[i].orderType == t
  }

  /** The balances against the starting ones `init`: the same exchanges; the
      BTC balance of each moved by exactly the BTC filled on it; an exchange
      without fills is untouched. */
  predicate LedgerMatchesFills(t: OrderType, init: map<int, Exchange>, s: PlanState)
  {
    && s.exchanges.Keys == init.Keys
    && (forall i :: 0 <= i < |s.fills| ==> s.fills[i].exchangeId in init)
    && forall k :: k in init ==>
         && s.exchanges[k].id == init[k].id
         && (t == Buy ==> s.exchanges[k].btcBalance == init[k].btcBalance + AmountFor(s.fills, k))
         && (t == Sell ==> s.exchanges[k].btcBalance == init[k].btcBalance - AmountFor(s.fills, k))
         && (!Mentions(s.fills, k) ==> s.exchanges[k] == init[k])
  }

  /** A book order whose exchange has balances and a book, at a positive price. */
  predicate SoundOrder(exchanges: map<int, Exchange>, books: Books, o: BookOrder)
  {
    o.exchangeId in exchanges && o.exchangeId in books && o.price > 0.0
  }

  /** A snapshot the planner can run on without a lookup failing: balances are
      not negative and every book order is sound. */
  predicate SoundSnapshot(snap: Snapshot)
  {
    && (forall k :: k in snap.exchanges ==>
          snap.exchanges[k].eurBalance >= 0.0 && snap.exchanges[k].btcBalance >= 0.0)
    && (forall k, i :: k in snap.books && 0 <= i < |snap.books[k]| ==>
          SoundOrder(snap.exchanges, snap.books, snap.books[k][i]))
  }

  /** Solvency against the starting balances `init`: no balance is negative,
      the spent currency never grew and the received one never shrank, and
      every queued candidate is sound. */
  predicate Solvent(t: OrderType, init: map<int, Exchange>, books: Books, s: PlanState)
  {
    && s.exchanges.Keys == init.Keys
    && (forall k :: k in s.exchanges ==>
          && s.exchanges[k].eurBalance >= 0.0 && s.exchanges[k].btcBalance >= 0.0
          && (t == Buy ==> s.exchanges[k].eurBalance <= init[k].eurBalance && s.exchanges[k].btcBalance >= init[k].btcBalance)
          && (t == Sell ==> s.exchanges[k].btcBalance <= init[k].btcBalance && s.exchanges[k].eurBalance >= init[k].eurBalance))
    && (forall i :: 0 <= i < |s.queue| ==> SoundOrder(s.exchanges, books, s.queue[i].order))
  }

  /** A queued candidate sits at its exchange's cursor: it is the last book
      order pulled from that exchange, or what is left of it. */
  predicate AtFrontier(books: Books, cursors: map<int, nat>, e: Entry)
  {
    var k := e.order.exchangeId;
    && k in books && k in cursors && 1 <= cursors[k] <= |books[k]|
    && e.order.price == books[k][cursors[k] - 1].price
    && e.order.amount <= books[k][cursors[k] - 1].amount
    && e.priority.price == e.order.price
  }

  /** The queue holds at most one candidate per exchange, each at its
      exchange's cursor. */
  predicate FrontierInvariant(books: Books, s: PlanState)
  {
    && (forall i, j :: 0 <= i < j < |s.queue| ==> s.queue[i].order.exchangeId != s.queue[j].order.exchangeId)
    && (forall i :: 0 <= i < |s.queue| ==> AtFrontier(books, s.cursors, s.queue[i]))
  }

  /** The fill rule. A step takes the best candidate; if the least of the
      remaining demand, the order's amount and the exchange's bound is not
      positive, the candidate is dropped and nothing else changes; otherwise
      exactly one fill line is appended, positive and within all three limits,
      and the remaining demand goes down by it. */
  lemma StepFillRule(t: OrderType, books: Books, s: PlanState)
    requires s.remaining > 0.0 && |s.queue| > 0 && CursorsFit(books, s.cursors)
    requires Step(t, books, s).Ok?
    ensures var d := Dequeue(t, s.queue);
      var o := d.entry.order;
      var n := Step(t, books, s).value;
      && o.exchangeId in s.exchanges
      && (t == Buy ==> o.price != 0.0)
      && var bound := SpendableBound(t, s.exchanges[o.exchangeId], o.price);
      && (n.fills == s.fills <==> s.remaining <= 0.0 || o.amount <= 0.0 || bound <= 0.0)
      && (n.fills == s.fills ==> n == s.(queue := d.rest))
      && (n.fills != s.fills ==>
            && |n.fills| == |s.fills| + 1
            && n.fills[..|s.fills|] == s.fills
            && var f := n.fills[|s.fills|];
            && f.exchangeId == o.exchangeId && f.orderType == t
            && 0.0 < f.amount <= s.remaining && f.amount <= o.amount && f.amount <= bound
            && n.remaining == s.remaining - f.amount)
  {
    var d := Dequeue(t, s.queue);
    var o := d.entry.order;
    var n := Step(t, books, s).value;
    if o.exchangeId in s.exchanges && !(t == Buy && o.price == 0.0) {
      var fill := FillAmount(s.remaining, o.amount, SpendableBound(t, s.exchanges[o.exchangeId], o.price));
      if fill > 0.0 {
        assert n.fills == s.fills + [Order(fill, o.exchangeId, t)];
        assert n.fills[..|s.fills|] == s.fills;
      }
    }
  }

  /** Balance update: a fill of `f` BTC at price `p` on exchange `k` changes
      only exchange `k`: buying adds `f` BTC and takes `f * p` EUR, selling
      takes `f` BTC and adds `f * p` EUR. A dropped candidate changes nothing. */
  lemma StepUpdatesOneExchange(t: OrderType, books: Books, s: PlanState)
    requires s.remaining > 0.0 && |s.queue| > 0 && CursorsFit(books, s.cursors)
    requires Step(t, books, s).Ok?
    ensures var o := Dequeue(t, s.queue).entry.order;
      var k := o.exchangeId;
      var n := Step(t, books, s).value;
      && k in s.exchanges
      && (n.fills == s.fills || |n.fills| == |s.fills| + 1)
      && n.exchanges.Keys == s.exchanges.Keys
      && (forall j :: j in s.exchanges && j != k ==> n.exchanges[j] == s.exchanges[j])
      && (n.fills == s.fills ==> n.exchanges == s.exchanges)
      && (n.fills != s.fills ==>
            var f := n.fills[|s.fills|].amount;
            && n.exchanges[k].id == s.exchanges[k].id
            && (t == Buy ==>
                  n.exchanges[k].btcBalance == s.exchanges[k].btcBalance + f
                  && n.exchanges[k].eurBalance == s.exchanges[k].eurBalance - f * o.price)
            && (t == Sell ==>
                  n.exchanges[k].btcBalance == s.exchanges[k].btcBalance - f
                  && n.exchanges[k].eurBalance == s.exchanges[k].eurBalance + f * o.price))
  {
    var d := Dequeue(t, s.queue);
    var o := d.entry.order;
    var k := o.exchangeId;
    var n := Step(t, books, s).value;
    var fill := FillAmount(s.remaining, o.amount, SpendableBound(t, s.exchanges[k], o.price));
    if fill > 0.0 {
      assert n.fills == s.fills + [Order(fill, k, t)];
      BookingMovesOneExchange(t, s.exchanges, n.exchanges, fill, o);
    } else {
      assert n == s.(queue := d.rest);
    }
  }

  /** Booking a fill of `fill` BTC against `o` changes only `o`'s exchange, by
      `fill` BTC one way and `fill * o.price` EUR the other. */
  lemma BookingMovesOneExchange(t: OrderType, before: map<int, Exchange>, after: map<int, Exchange>, fill: real, o: BookOrder)
    requires o.exchangeId in before
    requires after == before[o.exchangeId := ResolveNewExchangeBalance(t, before[o.exchangeId], fill, o)]
    ensures var k := o.exchangeId;
      && after.Keys == before.Keys
      && (forall j :: j in before && j != k ==> after[j] == before[j])
      && after[k].id == before[k].id
      && (t == Buy ==>
            after[k].btcBalance == before[k].btcBalance + fill
            && after[k].eurBalance == before[k].eurBalance - fill * o.price)
      && (t == Sell ==>
            after[k].btcBalance == before[k].btcBalance - fill
            && after[k].eurBalance == before[k].eurBalance + fill * o.price)
  {
  }

  /** Re-feed rule. After a fill of `f` on the candidate `o`: if `f < o.amount`
      the only entry added is `o` with amount `o.amount - f`, at the same price,
      and no cursor moves; otherwise `o`'s exchange advances its cursor by one
      and its next book order, if it has one, is the only entry added. A
      dropped candidate adds nothing. */
  lemma StepRefeedRule(t: OrderType, books: Books, s: PlanState)
    requires s.remaining > 0.0 && |s.queue| > 0 && CursorsFit(books, s.cursors)
    requires Step(t, books, s).Ok?
    ensures var d := Dequeue(t, s.queue);
      var o := d.entry.order;
      var k := o.exchangeId;
      var n := Step(t, books, s).value;
      && (n.fills == s.fills ==> n.queue == d.rest && n.cursors == s.cursors)
      && (n.fills != s.fills && n.fills[|s.fills|].amount < o.amount ==>
            var f := n.fills[|s.fills|].amount;
            && n.cursors == s.cursors
            && |n.queue| == |d.rest| + 1 && n.queue[..|d.rest|] == d.rest
            && n.queue[|d.rest|].order == BookOrder(o.amount - f, o.price, k)
            && n.queue[|d.rest|].priority == ResolvePriority(n.queue[|d.rest|].order, t, s.exchanges[k]))
      && (n.fills != s.fills && n.fills[|s.fills|].amount >= o.amount ==>
            && k in books
            && (forall j :: j in s.cursors && j != k ==> n.cursors[j] == s.cursors[j])
            && (s.cursors[k] < |books[k]| ==>
                  && n.cursors[k] == s.cursors[k] + 1
                  && |n.queue| == |d.rest| + 1 && n.queue[..|d.rest|] == d.rest
                  && n.queue[|d.rest|].order == books[k][s.cursors[k]]
                  && n.queue[|d.rest|].priority == ResolvePriority(books[k][s.cursors[k]], t, n.exchanges[k]))
            && (s.cursors[k] == |books[k]| ==> n.cursors == s.cursors && n.queue == d.rest))
  {
    var d := Dequeue(t, s.queue);
    var o := d.entry.order;
    var k := o.exchangeId;
    var n := Step(t, books, s).value;
    var fill := FillAmount(s.remaining, o.amount, SpendableBound(t, s.exchanges[k], o.price));
    if fill <= 0.0 {
      assert n == s.(queue := d.rest);
    } else {
      assert n.fills == s.fills + [Order(fill, k, t)];
      assert n.fills[|s.fills|].amount == fill;
      if fill < o.amount {
        var remainder := o.(amount := o.amount - fill);
        assert n.queue == d.rest + [Entry(remainder, ResolvePriority(remainder, t, s.exchanges[k]))];
        assert n.queue[..|d.rest|] == d.rest;
      } else {
        var a := Advance(books, s.cursors, k);
        assert n.cursors == a.cursors;
        if a.next.Some? {
          assert n.queue == d.rest + [Entry(a.next.value, ResolvePriority(a.next.value, t, n.exchanges[k]))];
          assert n.queue[..|d.rest|] == d.rest;
        }
      }
    }
  }

  /** The candidate a step works on is one no other queued candidate is
      strictly ahead of: when buying, no cheaper one; when selling, no dearer
      one; and at the same price, none whose key balance is larger. */
  lemma StepTakesBestCandidate(t: OrderType, s: PlanState)
    requires |s.queue| > 0
    ensures var e := Dequeue(t, s.queue).entry;
      && e in s.queue
      && (forall x :: x in s.queue ==> !Before(t, x.priority, e.priority))
      && (t == Buy ==> forall x :: x in s.queue ==>
            x.priority.price >= e.priority.price
            && (x.priority.price == e.priority.price ==> x.priority.balance <= e.priority.balance))
      && (t == Sell ==> forall x :: x in s.queue ==>
            x.priority.price <= e.priority.price
            && (x.priority.price == e.priority.price ==> x.priority.balance <= e.priority.balance))
  {
    var d := Dequeue(t, s.queue);
    forall x | x in s.queue
      ensures !Before(t, x.priority, d.entry.priority)
    {
      var i :| 0 <= i < |s.queue| && s.queue[i] == x;
      BestIndexIsMinimal(t, s.queue, d.index, i);
    }
    forall x | x in s.queue
      ensures !Before(t, x.priority, d.entry.priority)
      ensures t == Buy ==> x.priority.price >= d.entry.priority.price
      ensures t == Sell ==> x.priority.price <= d.entry.priority.price
    {
      BeforeMeansBetterPrice(t, x.priority, d.entry.priority);
    }
  }

  lemma BestIndexIsMinimal(t: OrderType, q: seq<Entry>, i: nat, j: nat)
    requires |q| > 0 && i == Dequeue(t, q).index && j < |q|
    ensures !Before(t, q[j].priority, q[i].priority)
  {
    if j != i {
      var d := Dequeue(t, q);
      if j < i {
        assert q[j] == d.rest[j];
      } else {
        assert q[j] == d.rest[j - 1];
      }
    }
  }

  /** After a partial fill, either the demand is met or the exchange's
      spendable balance is gone, so the remainder's key (which still carries
      the balance from before the fill) never decides a later fill. */
  lemma PartialFillExhaustsDemandOrBalance(t: OrderType, books: Books, s: PlanState)
    requires s.remaining > 0.0 && |s.queue| > 0 && CursorsFit(books, s.cursors)
    requires Step(t, books, s).Ok?
    ensures var o := Dequeue(t, s.queue).entry.order;
      var n := Step(t, books, s).value;
      && o.exchangeId in n.exchanges && (t == Buy ==> o.price != 0.0)
      && (|n.fills| > |s.fills| && n.fills[|s.fills|].amount < o.amount ==>
            n.remaining == 0.0 || SpendableBound(t, n.exchanges[o.exchangeId], o.price) == 0.0)
  {
    var d := Dequeue(t, s.queue);
    var o := d.entry.order;
    var k := o.exchangeId;
    var n := Step(t, books, s).value;
    var exchange := s.exchanges[k];
    var fill := FillAmount(s.remaining, o.amount, SpendableBound(t, exchange, o.price));
    if fill > 0.0 {
      assert n.fills == s.fills + [Order(fill, k, t)];
      assert n.exchanges == s.exchanges[k := ResolveNewExchangeBalance(t, exchange, fill, o)];
      if fill < o.amount && fill != s.remaining {
        ExhaustingFillEmptiesBalance(t, exchange, fill, o, o.price);
      }
    } else {
      assert n == s.(queue := d.rest);
    }
  }

  /** Booking a positive fill line of the command's side, no larger than the
      remaining demand, and taking it off that demand keeps the accounting. */
  lemma BookingKeepsAccounting(t: OrderType, amount: real, s: PlanState, n: PlanState, f: Order)
    requires Accounting(t, amount, s)
    requires n.fills == s.fills + [f] && 0.0 < f.amount <= s.remaining && f.orderType == t
    requires n.remaining == s.remaining - f.amount
    ensures Accounting(t, amount, n)
  {
    TotalAppend(s.fills, f);
    assert forall i :: 0 <= i < |s.fills| ==> n.fills[i] == s.fills[i];
  }

  /** Every step keeps the fill accounting. */
  lemma StepKeepsAccounting(t: OrderType, books: Books, s: PlanState, amount: real)
    requires s.remaining > 0.0 && |s.queue| > 0 && CursorsFit(books, s.cursors)
    requires Step(t, books, s).Ok?
    requires Accounting(t, amount, s)
    ensures Accounting(t, amount, Step(t, books, s).value)
  {
    var n := Step(t, books, s).value;
    StepFillRule(t, books, s);
    if n.fills != s.fills {
      var f := n.fills[|s.fills|];
      assert n.fills == s.fills + [f];
      BookingKeepsAccounting(t, amount, s, n, f);
    }
  }

  /** Booking one fill line on exchange `k`, and moving that exchange's BTC
      balance by exactly the filled amount, keeps the balances in step with
      the fills. */
  lemma BookingKeepsLedger(t: OrderType, init: map<int, Exchange>, s: PlanState, n: PlanState, f: Order)
    requires LedgerMatchesFills(t, init, s)
    requires f.exchangeId in s.exchanges && n.fills == s.fills + [f]
    requires n.exchanges.Keys == s.exchanges.Keys
    requires forall j :: j in s.exchanges && j != f.exchangeId ==> n.exchanges[j] == s.exchanges[j]
    requires var k := f.exchangeId;
      && n.exchanges[k].id == s.exchanges[k].id
      && (t == Buy ==> n.exchanges[k].btcBalance == s.exchanges[k].btcBalance + f.amount)
      && (t == Sell ==> n.exchanges[k].btcBalance == s.exchanges[k].btcBalance - f.amount)
    ensures LedgerMatchesFills(t, init, n)
  {
    MentionsAppend(s.fills, f);
    forall i | 0 <= i < |n.fills| ensures n.fills[i].exchangeId in init {
      if i < |s.fills| {
        assert n.fills[i] == s.fills[i];
      }
    }
    forall k | k in init
      ensures AmountFor(n.fills, k) == AmountFor(s.fills, k) + (if f.exchangeId == k then f.amount else 0.0)
    {
      AmountForAppend(s.fills, f, k);
    }
  }

  /** Every step keeps the balances in step with the fills. */
  lemma StepKeepsLedger(t: OrderType, books: Books, s: PlanState, init: map<int, Exchange>)
    requires s.remaining > 0.0 && |s.queue| > 0 && CursorsFit(books, s.cursors)
    requires Step(t, books, s).Ok?
    requires LedgerMatchesFills(t, init, s)
    ensures LedgerMatchesFills(t, init, Step(t, books, s).value)
  {
    var n := Step(t, books, s).value;
    StepFillRule(t, books, s);
    StepUpdatesOneExchange(t, books, s);
    if n.fills != s.fills {
      var f := n.fills[|s.fills|];
      assert n.fills == s.fills + [f];
      BookingKeepsLedger(t, init, s, n, f);
    }
  }

  /** When every queued candidate names a known exchange and book at a
      positive price, no lookup fails and no division by zero happens,
      whatever the balances. */
  lemma StepSucceedsOnSoundQueue(t: OrderType, books: Books, s: PlanState)
    requires s.remaining > 0.0 && |s.queue| > 0 && CursorsFit(books, s.cursors)
    requires forall i :: 0 <= i < |s.queue| ==> SoundOrder(s.exchanges, books, s.queue[i].order)
    ensures Step(t, books, s).Ok?
  {
    var d := Dequeue(t, s.queue);
    assert SoundOrder(s.exchanges, books, s.queue[d.index].order);
  }

  /** A step on a solvent state keeps every balance non-negative and moves
      each only in the direction of the trade. */
  lemma StepKeepsBalancesSolvent(t: OrderType, books: Books, s: PlanState, init: map<int, Exchange>)
    requires s.remaining > 0.0 && |s.queue| > 0 && CursorsFit(books, s.cursors)
    requires Solvent(t, init, books, s)
    requires Step(t, books, s).Ok?
    ensures var n := Step(t, books, s).value;
      && n.exchanges.Keys == init.Keys
      && (forall k :: k in n.exchanges ==>
            && n.exchanges[k].eurBalance >= 0.0 && n.exchanges[k].btcBalance >= 0.0
            && (t == Buy ==> n.exchanges[k].eurBalance <= init[k].eurBalance && n.exchanges[k].btcBalance >= init[k].btcBalance)
            && (t == Sell ==> n.exchanges[k].btcBalance <= init[k].btcBalance && n.exchanges[k].eurBalance >= init[k].eurBalance))
  {
    var d := Dequeue(t, s.queue);
    var o := d.entry.order;
    var k := o.exchangeId;
    var n := Step(t, books, s).value;
    assert SoundOrder(s.exchanges, books, s.queue[d.index].order);
    var fill := FillAmount(s.remaining, o.amount, SpendableBound(t, s.exchanges[k], o.price));
    if fill <= 0.0 {
      assert n.exchanges == s.exchanges;
    } else {
      assert n.exchanges == s.exchanges[k := ResolveNewExchangeBalance(t, s.exchanges[k], fill, o)];
      FillKeepsBalancesNonNegative(t, s.exchanges[k], fill, o);
    }
  }

  /** Taking one candidate out of a sound queue and appending at most one
      sound candidate keeps the queue sound, as long as the same exchanges
      keep balances. */
  lemma RefeedKeepsQueueSound(before: map<int, Exchange>, after: map<int, Exchange>, books: Books,
                              q: seq<Entry>, index: nat, rest: seq<Entry>, n: seq<Entry>)
    requires after.Keys == before.Keys
    requires index < |q| && rest == q[..index] + q[index + 1..]
    requires |rest| <= |n| <= |rest| + 1 && n[..|rest|] == rest
    requires forall i :: 0 <= i < |q| ==> SoundOrder(before, books, q[i].order)
    requires |n| > |rest| ==> SoundOrder(after, books, n[|rest|].order)
    ensures forall i :: 0 <= i < |n| ==> SoundOrder(after, books, n[i].order)
  {
    forall i | 0 <= i < |n| ensures SoundOrder(after, books, n[i].order) {
      if i < index {
        assert n[i] == rest[i] == q[i];
      } else if i < |rest| {
        assert n[i] == rest[i] == q[i + 1];
      }
    }
  }

  /** A step appends at most one candidate to what stays queued, and on sound
      books that candidate is sound. */
  lemma StepRefeedsSoundCandidate(t: OrderType, books: Books, s: PlanState)
    requires s.remaining > 0.0 && |s.queue| > 0 && CursorsFit(books, s.cursors)
    requires forall k, i :: k in books && 0 <= i < |books[k]| ==> SoundOrder(s.exchanges, books, books[k][i])
    requires SoundOrder(s.exchanges, books, Dequeue(t, s.queue).entry.order)
    requires Step(t, books, s).Ok?
    ensures var d := Dequeue(t, s.queue);
      var n := Step(t, books, s).value;
      && n.exchanges.Keys == s.exchanges.Keys
      && |d.rest| <= |n.queue| <= |d.rest| + 1
      && n.queue[..|d.rest|] == d.rest
      && (|n.queue| > |d.rest| ==> SoundOrder(n.exchanges, books, n.queue[|d.rest|].order))
  {
    var d := Dequeue(t, s.queue);
    var o := d.entry.order;
    var k := o.exchangeId;
    var n := Step(t, books, s).value;
    StepUpdatesOneExchange(t, books, s);
    StepRefeedRule(t, books, s);
    if |n.queue| > |d.rest| && n.fills[|s.fills|].amount >= o.amount {
      assert SoundOrder(s.exchanges, books, books[k][s.cursors[k]]);
    }
  }

  /** A step on a sound snapshot queues only sound candidates. */
  lemma StepKeepsQueueSound(t: OrderType, books: Books, s: PlanState)
    requires s.remaining > 0.0 && |s.queue| > 0 && CursorsFit(books, s.cursors)
    requires forall k, i :: k in books && 0 <= i < |books[k]| ==> SoundOrder(s.exchanges, books, books[k][i])
    requires forall i :: 0 <= i < |s.queue| ==> SoundOrder(s.exchanges, books, s.queue[i].order)
    requires Step(t, books, s).Ok?
    ensures var n := Step(t, books, s).value;
      forall i :: 0 <= i < |n.queue| ==> SoundOrder(n.exchanges, books, n.queue[i].order)
  {
    var d := Dequeue(t, s.queue);
    var n := Step(t, books, s).value;
    assert SoundOrder(s.exchanges, books, s.queue[d.index].order);
    StepRefeedsSoundCandidate(t, books, s);
    RefeedKeepsQueueSound(s.exchanges, n.exchanges, books, s.queue, d.index, d.rest, n.queue);
  }

  /** A step on a sound snapshot succeeds and keeps the state solvent. */
  lemma StepKeepsSolvency(t: OrderType, books: Books, s: PlanState, init: map<int, Exchange>, snap: Snapshot)
    requires s.remaining > 0.0 && |s.queue| > 0 && CursorsFit(books, s.cursors)
    requires books == snap.books && init == snap.exchanges && SoundSnapshot(snap)
    requires Solvent(t, init, books, s)
    ensures Step(t, books, s).Ok?
    ensures Solvent(t, init, books, Step(t, books, s).value)
  {
    StepSucceedsOnSoundQueue(t, books, s);
    StepKeepsBalancesSolvent(t, books, s, init);
    assert forall k, i :: k in books && 0 <= i < |books[k]| ==> SoundOrder(s.exchanges, books, books[k][i]) by {
      forall k, i | k in books && 0 <= i < |books[k]| ensures SoundOrder(s.exchanges, books, books[k][i]) {
        assert SoundOrder(snap.exchanges, snap.books, snap.books[k][i]);
      }
    }
    StepKeepsQueueSound(t, books, s);
  }

  /** What stays queued after a dequeue keeps the frontier property and
      holds no candidate of the dequeued exchange. */
  lemma RestStaysAtFrontier(t: OrderType, books: Books, s: PlanState)
    requires |s.queue| > 0 && FrontierInvariant(books, s)
    ensures var d := Dequeue(t, s.queue);
      && AtFrontier(books, s.cursors, d.entry)
      && (forall i, j :: 0 <= i < j < |d.rest| ==> d.rest[i].order.exchangeId != d.rest[j].order.exchangeId)
      && (forall i :: 0 <= i < |d.rest| ==>
            d.rest[i].order.exchangeId != d.entry.order.exchangeId && AtFrontier(books, s.cursors, d.rest[i]))
  {
    var d := Dequeue(t, s.queue);
    forall i | 0 <= i < |d.rest|
      ensures d.rest[i].order.exchangeId != d.entry.order.exchangeId && AtFrontier(books, s.cursors, d.rest[i])
    {
      var j := if i < d.index then i else i + 1;
      assert d.rest[i] == s.queue[j];
    }
    forall i, j | 0 <= i < j < |d.rest|
      ensures d.rest[i].order.exchangeId != d.rest[j].order.exchangeId
    {
      var i' := if i < d.index then i else i + 1;
      var j' := if j < d.index then j else j + 1;
      assert d.rest[i] == s.queue[i'] && d.rest[j] == s.queue[j'];
    }
  }

  /** Re-feeding keeps the frontier: when the other exchanges' cursors stay
      put and at most one candidate of exchange `k`, at `k`'s cursor, is
      appended to candidates of other exchanges, the frontier property holds. */
  lemma RefeedKeepsFrontier(books: Books, cursors: map<int, nat>, n: PlanState, rest: seq<Entry>, k: int, extra: seq<Entry>)
    requires n.queue == rest + extra && |extra| <= 1
    requires n.cursors.Keys == cursors.Keys
    requires forall j :: j in cursors && j != k ==> n.cursors[j] == cursors[j]
    requires forall i, j :: 0 <= i < j < |rest| ==> rest[i].order.exchangeId != rest[j].order.exchangeId
    requires forall i :: 0 <= i < |rest| ==> rest[i].order.exchangeId != k && AtFrontier(books, cursors, rest[i])
    requires forall e :: e in extra ==> e.order.exchangeId == k && AtFrontier(books, n.cursors, e)
    ensures FrontierInvariant(books, n)
  {
    assert forall i :: 0 <= i < |rest| ==> n.queue[i] == rest[i];
    if |extra| == 1 {
      assert n.queue[|rest|] == extra[0];
    }
  }

  /** A step that uses up its candidate's book order keeps the frontier:
      only that exchange's cursor moves, and the order pulled next sits at
      the new cursor. */
  lemma FullFillKeepsFrontier(t: OrderType, books: Books, s: PlanState)
    requires s.remaining > 0.0 && |s.queue| > 0 && CursorsFit(books, s.cursors)
    requires Keyed(books) && FrontierInvariant(books, s)
    requires Step(t, books, s).Ok?
    requires var o := Dequeue(t, s.queue).entry.order;
      o.exchangeId in s.exchanges && (t == Buy ==> o.price != 0.0)
      && var fill := FillAmount(s.remaining, o.amount, SpendableBound(t, s.exchanges[o.exchangeId], o.price));
      0.0 < fill && o.amount <= fill
    ensures FrontierInvariant(books, Step(t, books, s).value)
  {
    var d := Dequeue(t, s.queue);
    var k := d.entry.order.exchangeId;
    var n := Step(t, books, s).value;
    RestStaysAtFrontier(t, books, s);
    var a := Advance(books, s.cursors, k);
    assert n.cursors == a.cursors;
    if a.next.Some? {
      var next := a.next.value;
      var added := Entry(next, ResolvePriority(next, t, n.exchanges[k]));
      assert n.queue == d.rest + [added];
      assert next.exchangeId == k;
      RefeedKeepsFrontier(books, s.cursors, n, d.rest, k, [added]);
    } else {
      assert n.queue == d.rest + [];
      RefeedKeepsFrontier(books, s.cursors, n, d.rest, k, []);
    }
  }

  /** A step that fills its candidate only partly, or drops it, keeps the
      frontier: no cursor moves, and a remainder stays at its cursor. */
  lemma PartialFillKeepsFrontier(t: OrderType, books: Books, s: PlanState)
    requires s.remaining > 0.0 && |s.queue| > 0 && CursorsFit(books, s.cursors)
    requires FrontierInvariant(books, s)
    requires Step(t, books, s).Ok?
    requires var o := Dequeue(t, s.queue).entry.order;
      o.exchangeId in s.exchanges && (t == Buy ==> o.price != 0.0)
      && var fill := FillAmount(s.remaining, o.amount, SpendableBound(t, s.exchanges[o.exchangeId], o.price));
      fill <= 0.0 || fill < o.amount
    ensures FrontierInvariant(books, Step(t, books, s).value)
  {
    var d := Dequeue(t, s.queue);
    var o := d.entry.order;
    var k := o.exchangeId;
    var n := Step(t, books, s).value;
    RestStaysAtFrontier(t, books, s);
    var fill := FillAmount(s.remaining, o.amount, SpendableBound(t, s.exchanges[k], o.price));
    if fill <= 0.0 {
      assert n.queue == d.rest + [] && n.cursors == s.cursors;
      RefeedKeepsFrontier(books, s.cursors, n, d.rest, k, []);
    } else {
      var remainder := o.(amount := o.amount - fill);
      var back := Entry(remainder, ResolvePriority(remainder, t, s.exchanges[k]));
      assert n.queue == d.rest + [back] && n.cursors == s.cursors;
      RefeedKeepsFrontier(books, s.cursors, n, d.rest, k, [back]);
    }
  }

  /** Every step keeps at most one candidate per exchange, each at its
      exchange's cursor. */
  lemma StepKeepsFrontier(t: OrderType, books: Books, s: PlanState)
    requires s.remaining > 0.0 && |s.queue| > 0 && CursorsFit(books, s.cursors)
    requires Keyed(books)
    requires Step(t, books, s).Ok?
    requires FrontierInvariant(books, s)
    ensures FrontierInvariant(books, Step(t, books, s).value)
  {
    var o := Dequeue(t, s.queue).entry.order;
    var fill := FillAmount(s.remaining, o.amount, SpendableBound(t, s.exchanges[o.exchangeId], o.price));
    if fill <= 0.0 || fill < o.amount {
      PartialFillKeepsFrontier(t, books, s);
    } else {
      FullFillKeepsFrontier(t, books, s);
    }
  }

  /** Cursors only move forward, by at most one per step, and only the cursor
      of the exchange whose candidate was taken moves. */
  lemma StepMovesCursorsForward(t: OrderType, books: Books, s: PlanState)
    requires s.remaining > 0.0 && |s.queue| > 0 && CursorsFit(books, s.cursors)
    requires Step(t, books, s).Ok?
    ensures var n := Step(t, books, s).value;
      var k := Dequeue(t, s.queue).entry.order.exchangeId;
      && n.cursors.Keys == s.cursors.Keys
      && (forall j :: j in s.cursors ==> s.cursors[j] <= n.cursors[j] <= s.cursors[j] + 1)
      && (forall j :: j in s.cursors && j != k ==> n.cursors[j] == s.cursors[j])
  {
    StepRefeedRule(t, books, s);
  }
}
