/** The plain records the market-order planner works on: order books, fill lines,
    exchanges with their EUR (quote) and BTC (base) balances, and the command.
    Amounts, prices and balances are exact reals. */
module Types {

  /** Side of the market order: Buy takes asks, Sell hits bids. */
  datatype OrderType = Buy | Sell

  /** One resting order of an exchange's book. */
  datatype BookOrder = BookOrder(amount: real, price: real, exchangeId: int)

  /** One line of the execution plan: how much to trade on which exchange. */
  datatype Order = Order(amount: real, exchangeId: int, orderType: OrderType)

  /** An exchange with the balances the planner may spend. */
  datatype Exchange = Exchange(id: int, eurBalance: real, btcBalance: real)

  /** The request: trade `amount` BTC on side `orderType`. */
  datatype PlaceMarketOrderCommand = PlaceMarketOrderCommand(amount: real, orderType: OrderType)

  datatype Option<T> = None | Some(value: T)

  /** The exceptions a planning run can end in. */
  datatype Failure =
    | UnknownExchange(exchangeId: int)   // a dictionary lookup of the exchanges map missed
    | UnknownOrderBook(exchangeId: int)  // a dictionary lookup of the order books map missed
    | DivideByZero                       // a Buy against an order priced at zero

  datatype Result<T> = Ok(value: T) | Err(failure: Failure) {
    predicate IsFailure() {
      Err?
    }

    function PropagateFailure<U>(): Result<U>
      requires Err?
    {
      Err(failure)
    }

    function Extract(): T
      requires Ok?
    {
      value
    }
  }

  /** Sum of the amounts of a list of fill lines. */
  function Total(orders: seq<Order>): real
  {
    if |orders| == 0 then 0.0 else Total(orders[..|orders| - 1]) + orders[|orders| - 1].amount
  }

  /** Sum of the amounts of the lines placed on exchange `id`. */
  function AmountFor(orders: seq<Order>, id: int): real
  {
    if |orders| == 0 then 0.0
    else
      var last := orders[|orders| - 1];
      AmountFor(orders[..|orders| - 1], id) + (if last.exchangeId == id then last.amount else 0.0)
  }

  /** Does some line of `orders` name exchange `id`? */
  predicate Mentions(orders: seq<Order>, id: int)
  {
    exists i :: 0 <= i < |orders| && orders[i].exchangeId == id
  }

  lemma TotalAppend(orders: seq<Order>, o: Order)
    ensures Total(orders + [o]) == Total(orders) + o.amount
  {
    assert (orders + [o])[..|orders|] == orders;
  }

  lemma AmountForAppend(orders: seq<Order>, o: Order, id: int)
    ensures AmountFor(orders + [o], id)
         == AmountFor(orders, id) + (if o.exchangeId == id then o.amount else 0.0)
  {
    assert (orders + [o])[..|orders|] == orders;
  }

  /** The lines of `orders + [o]` mention exactly the exchanges of `orders` and `o`'s. */
  lemma MentionsAppend(orders: seq<Order>, o: Order)
    ensures forall id :: Mentions(orders + [o], id) <==> Mentions(orders, id) || o.exchangeId == id
  {
    forall id | Mentions(orders + [o], id)
      ensures Mentions(orders, id) || o.exchangeId == id
    {
      var i :| 0 <= i < |orders + [o]| && (orders + [o])[i].exchangeId == id;
      if i < |orders| {
        assert orders[i].exchangeId == id;
      }
    }
    forall id | Mentions(orders, id)
      ensures Mentions(orders + [o], id)
    {
      var i :| 0 <= i < |orders| && orders[i].exchangeId == id;
      assert (orders + [o])[i].exchangeId == id;
    }
    assert (orders + [o])[|orders|] == o;
  }

  /** An exchange no line mentions has nothing placed on it. */
  lemma {:induction false} AmountForUnmentioned(orders: seq<Order>, id: int)
    requires !Mentions(orders, id)
    ensures AmountFor(orders, id) == 0.0
  {
    if |orders| > 0 {
      AmountForUnmentioned(orders[..|orders| - 1], id);
    }
  }

  /** With positive lines, a mentioned exchange has a positive amount placed on it. */
  lemma {:induction false} AmountForMentioned(orders: seq<Order>, id: int)
    requires forall i :: 0 <= i < |orders| ==> orders[i].amount > 0.0
    requires Mentions(orders, id)
    ensures AmountFor(orders, id) > 0.0
  {
    var init := orders[..|orders| - 1];
    var last := orders[|orders| - 1];
    AmountForNonNegative(init, id);
    if last.exchangeId != id {
      var i :| 0 <= i < |orders| && orders[i].exchangeId == id;
      assert init[i].exchangeId == id;
      AmountForMentioned(init, id);
    }
  }

  lemma {:induction false} AmountForNonNegative(orders: seq<Order>, id: int)
    requires forall i :: 0 <= i < |orders| ==> orders[i].amount > 0.0
    ensures AmountFor(orders, id) >= 0.0
  {
    if |orders| > 0 {
      AmountForNonNegative(orders[..|orders| - 1], id);
    }
  }
}
