/** The queue key of a candidate book order and the side-specific comparator
    the best-first queue is built with. */
module Priorities {
  import opened Types

  /** Queue key: the order's price and the tie-break balance of its exchange. */
  datatype Priority = Priority(price: real, balance: real)

  /** Sign of `a - b`, as a decimal comparison reports it. */
  function CompareTo(a: real, b: real): int
  {
    if a < b then -1 else if a > b then 1 else 0
  }

  /** The comparator of the queue: negative when `a` is dequeued before `b`.
      Sell: highest price first, then highest balance.
      Buy: lowest price first, then highest balance. */
  function Compare(t: OrderType, a: Priority, b: Priority): int
  {
    match t
    case Sell =>
      if CompareTo(b.price, a.price) != 0 then CompareTo(b.price, a.price)
      else CompareTo(b.balance, a.balance)
    case Buy =>
      if CompareTo(a.price, b.price) != 0 then CompareTo(a.price, b.price)
      else CompareTo(b.balance, a.balance)
  }

  /** `a` is strictly ahead of `b` in the queue. */
  predicate Before(t: OrderType, a: Priority, b: Priority)
  {
    Compare(t, a, b) < 0
  }

  /** The balance that breaks price ties: EUR when buying, BTC when selling. */
  function TieBreakBalance(t: OrderType, exchange: Exchange): real
  {
    match t
    case Buy => exchange.eurBalance
    case Sell => exchange.btcBalance
  }

  /** The key a book order is enqueued with. */
  function ResolvePriority(order: BookOrder, t: OrderType, exchange: Exchange): (p: Priority)
    ensures p.price == order.price
    ensures t == Buy ==> p.balance == exchange.eurBalance
    ensures t == Sell ==> p.balance == exchange.btcBalance
  {
    Priority(order.price, TieBreakBalance(t, exchange))
  }

  /** The comparator is a consistent total preorder, as a priority queue needs:
      its sign flips with its arguments and "not after" is transitive. */
  lemma ComparerIsTotalPreorder(t: OrderType, a: Priority, b: Priority, c: Priority)
    ensures Compare(t, a, b) == -Compare(t, b, a)
    ensures Compare(t, a, a) == 0
    ensures Compare(t, a, b) <= 0 && Compare(t, b, c) <= 0 ==> Compare(t, a, c) <= 0
    ensures Compare(t, a, b) == 0 <==> a == b
  {
  }

  /** `Before` is transitive and irreflexive. */
  lemma BeforeIsStrictOrder(t: OrderType, a: Priority, b: Priority, c: Priority)
    ensures !Before(t, a, a)
    ensures Before(t, a, b) && Before(t, b, c) ==> Before(t, a, c)
    ensures Before(t, a, b) ==> !Before(t, b, a)
  {
  }

  /** Buying: the cheaper order comes first; on equal price the exchange with
      more EUR comes first. Selling: the dearer bid comes first; on equal price
      the exchange with more BTC comes first. */
  lemma BeforeMeansBetterPrice(t: OrderType, a: Priority, b: Priority)
    ensures t == Buy ==>
      (Before(t, a, b) <==> a.price < b.price || (a.price == b.price && a.balance > b.balance))
    ensures t == Sell ==>
      (Before(t, a, b) <==> a.price > b.price || (a.price == b.price && a.balance > b.balance))
  {
  }

  /** Of two book orders keyed by `ResolvePriority`, the first is dequeued
      strictly earlier exactly when it has the better price, or the same price
      and an exchange holding more of the currency it would spend (EUR when
      buying) or sell (BTC when selling). */
  lemma ResolvedKeysRankByPriceThenBalance(t: OrderType, a: BookOrder, ea: Exchange, b: BookOrder, eb: Exchange)
    ensures var pa := ResolvePriority(a, t, ea);
      var pb := ResolvePriority(b, t, eb);
      var better := if t == Buy then a.price < b.price else a.price > b.price;
      Before(t, pa, pb) <==> better || (a.price == b.price && TieBreakBalance(t, ea) > TieBreakBalance(t, eb))
  {
    BeforeMeansBetterPrice(t, ResolvePriority(a, t, ea), ResolvePriority(b, t, eb));
  }
}
