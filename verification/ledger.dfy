/** Per-exchange balance bookkeeping: how much an exchange can afford at a
    price, how big a fill is, and how a fill moves the two balances. */
module Ledger {
  import opened Types

  /** The most BTC the exchange can trade at `price`: its EUR buys
      `eurBalance / price` BTC; when selling, it can sell its whole BTC balance. */
  function SpendableBound(t: OrderType, exchange: Exchange, price: real): real
    requires t == Buy ==> price != 0.0
  {
    match t
    case Buy => exchange.eurBalance / price
    case Sell => exchange.btcBalance
  }

  function Min(a: real, b: real): real
  {
    if a <= b then a else b
  }

  /** Fill size: the least of what is still wanted, what the book order offers
      and what the exchange can afford. */
  function FillAmount(remaining: real, orderAmount: real, bound: real): (fill: real)
    ensures fill <= remaining && fill <= orderAmount && fill <= bound
    ensures fill == remaining || fill == orderAmount || fill == bound
  {
    Min(remaining, Min(orderAmount, bound))
  }

  /** The exchange after trading `fill` BTC at the order's price. */
  function ResolveNewExchangeBalance(t: OrderType, exchange: Exchange, fill: real, order: BookOrder): (e: Exchange)
    ensures e.id == exchange.id
    ensures e.eurBalance + e.btcBalance * order.price == exchange.eurBalance + exchange.btcBalance * order.price
    ensures t == Buy ==> e.btcBalance - exchange.btcBalance == fill
    ensures t == Sell ==> exchange.btcBalance - e.btcBalance == fill
  {
    match t
    case Buy =>
      exchange.(btcBalance := exchange.btcBalance + fill, eurBalance := exchange.eurBalance - fill * order.price)
    case Sell =>
      exchange.(btcBalance := exchange.btcBalance - fill, eurBalance := exchange.eurBalance + fill * order.price)
  }

  /** A fill within the bound, at a positive price, leaves both balances
      non-negative, and the spent currency does not grow. */
  lemma FillKeepsBalancesNonNegative(t: OrderType, exchange: Exchange, fill: real, order: BookOrder)
    requires order.price > 0.0
    requires exchange.eurBalance >= 0.0 && exchange.btcBalance >= 0.0
    requires 0.0 < fill <= SpendableBound(t, exchange, order.price)
    ensures var e := ResolveNewExchangeBalance(t, exchange, fill, order);
      && e.eurBalance >= 0.0 && e.btcBalance >= 0.0
      && (t == Buy ==> e.eurBalance < exchange.eurBalance && e.btcBalance > exchange.btcBalance)
      && (t == Sell ==> e.btcBalance < exchange.btcBalance && e.eurBalance > exchange.eurBalance)
  {
    if t == Buy {
      var p := order.price;
      assert fill * p <= (exchange.eurBalance / p) * p;
      assert (exchange.eurBalance / p) * p == exchange.eurBalance;
    }
  }

  /** A fill equal to the bound spends the whole spendable balance: afterwards
      the exchange can afford nothing at any price. */
  lemma ExhaustingFillEmptiesBalance(t: OrderType, exchange: Exchange, fill: real, order: BookOrder, price: real)
    requires t == Buy ==> order.price != 0.0 && price != 0.0
    requires fill == SpendableBound(t, exchange, order.price)
    ensures SpendableBound(t, ResolveNewExchangeBalance(t, exchange, fill, order), price) == 0.0
  {
    if t == Buy {
      assert (exchange.eurBalance / order.price) * order.price == exchange.eurBalance;
    }
  }

  /** At a positive price, `SpendableBound` is exactly the affordability
      limit: an amount is within it if and only if buying it costs at most the
      EUR balance, or selling it takes at most the BTC balance. */
  lemma SpendableBoundIsAffordability(t: OrderType, exchange: Exchange, price: real, x: real)
    requires price > 0.0
    ensures t == Buy ==> (x <= SpendableBound(t, exchange, price) <==> x * price <= exchange.eurBalance)
    ensures t == Sell ==> (x <= SpendableBound(t, exchange, price) <==> x <= exchange.btcBalance)
  {
    if t == Buy {
      var q := exchange.eurBalance / price;
      assert q * price == exchange.eurBalance;
      if x <= q {
        assert x * price <= q * price;
      } else {
        assert x * price > q * price;
      }
    }
  }
}
