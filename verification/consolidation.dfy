/** Merge the raw fill lines into one line per exchange: group by exchange id
    in order of each exchange's first line, and sum the amounts. */
module Consolidation {
  import opened Types

  /** Position of the first line placed on exchange `id`. */
  function FirstIndex(orders: seq<Order>, id: int): (i: nat)
    requires Mentions(orders, id)
    ensures i < |orders| && orders[i].exchangeId == id
    ensures forall j :: 0 <= j < i ==> orders[j].exchangeId != id
  {
    if orders[0].exchangeId == id then 0
    else
      assert Mentions(orders[1..], id) by {
        var i :| 0 <= i < |orders| && orders[i].exchangeId == id;
        assert orders[1..][i - 1] == orders[i];
      }
      1 + FirstIndex(orders[1..], id)
  }

  /** The group keys: every exchange id of the lines, once each, in order of
      its first line. */
  function GroupKeys(orders: seq<Order>): (keys: seq<int>)
    ensures forall i, j :: 0 <= i < j < |keys| ==> keys[i] != keys[j]
    ensures forall id :: id in keys <==> Mentions(orders, id)
    ensures forall i, j :: 0 <= i < j < |keys| ==> FirstIndex(orders, keys[i]) < FirstIndex(orders, keys[j])
  {
    if |orders| == 0 then []
    else
      var init := orders[..|orders| - 1];
      var keys := GroupKeys(init);
      var id := orders[|orders| - 1].exchangeId;
      MentionsAppend(init, orders[|orders| - 1]);
      assert orders == init + [orders[|orders| - 1]];
      forall k | Mentions(init, k)
        ensures FirstIndex(orders, k) == FirstIndex(init, k)
      {
        FirstIndexAppend(init, orders[|orders| - 1], k);
      }
      if id in keys then keys
      else
        FirstIndexAppend(init, orders[|orders| - 1], id);
        keys + [id]
  }

  /** Appending a line does not move any exchange's first line; a new
      exchange's first line is the appended one. */
  lemma FirstIndexAppend(orders: seq<Order>, o: Order, id: int)
    requires Mentions(orders, id) || o.exchangeId == id
    ensures Mentions(orders + [o], id)
    ensures FirstIndex(orders + [o], id) == if Mentions(orders, id) then FirstIndex(orders, id) else |orders|
  {
    MentionsAppend(orders, o);
    var a := FirstIndex(orders + [o], id);
    if Mentions(orders, id) {
      var b := FirstIndex(orders, id);
      assert (orders + [o])[b] == orders[b];
    }
  }

  /** One line per group: the group's exchange id, the sum of its amounts,
      and the command's order type. */
  function Consolidate(fills: seq<Order>, t: OrderType): (r: seq<Order>)
    ensures forall i, j :: 0 <= i < j < |r| ==> r[i].exchangeId != r[j].exchangeId
    ensures forall id :: Mentions(r, id) <==> Mentions(fills, id)
    ensures forall i :: 0 <= i < |r| ==> r[i].amount == AmountFor(fills, r[i].exchangeId) && r[i].orderType == t
    ensures forall i :: 0 <= i < |r| ==> Mentions(fills, r[i].exchangeId)
    ensures forall i, j :: 0 <= i < j < |r| ==>
      FirstIndex(fills, r[i].exchangeId) < FirstIndex(fills, r[j].exchangeId)
  {
    var keys := GroupKeys(fills);
    var r := Lines(fills, keys, t);
    assert forall id :: Mentions(r, id) ==> id in keys by {
      forall id | Mentions(r, id) ensures id in keys {
        var i :| 0 <= i < |r| && r[i].exchangeId == id;
        assert keys[i] == id;
      }
    }
    assert forall id :: id in keys ==> Mentions(r, id) by {
      forall id | id in keys ensures Mentions(r, id) {
        var i :| 0 <= i < |keys| && keys[i] == id;
        assert r[i].exchangeId == id;
      }
    }
    r
  }

  /** The line of each key, in key order. */
  function Lines(fills: seq<Order>, keys: seq<int>, t: OrderType): (r: seq<Order>)
    ensures |r| == |keys|
    ensures forall i :: 0 <= i < |r| ==> r[i] == Order(AmountFor(fills, keys[i]), keys[i], t)
  {
    seq(|keys|, i requires 0 <= i < |keys| => Order(AmountFor(fills, keys[i]), keys[i], t))
  }

  /** Sum over `keys` of the amount placed on each. */
  function KeysTotal(fills: seq<Order>, keys: seq<int>): real
  {
    if |keys| == 0 then 0.0
    else KeysTotal(fills, keys[..|keys| - 1]) + AmountFor(fills, keys[|keys| - 1])
  }

  lemma {:induction false} LinesTotal(fills: seq<Order>, keys: seq<int>, t: OrderType)
    ensures Total(Lines(fills, keys, t)) == KeysTotal(fills, keys)
  {
    if |keys| > 0 {
      var init := keys[..|keys| - 1];
      LinesTotal(fills, init, t);
      assert Lines(fills, keys, t)[..|keys| - 1] == Lines(fills, init, t);
    }
  }

  lemma {:induction false} KeysTotalAppend(fills: seq<Order>, o: Order, keys: seq<int>)
    requires forall i, j :: 0 <= i < j < |keys| ==> keys[i] != keys[j]
    ensures KeysTotal(fills + [o], keys)
         == KeysTotal(fills, keys) + (if o.exchangeId in keys then o.amount else 0.0)
  {
    if |keys| > 0 {
      var init := keys[..|keys| - 1];
      var last := keys[|keys| - 1];
      KeysTotalAppend(fills, o, init);
      AmountForAppend(fills, o, last);
      assert keys == init + [last];
      assert last !in init;
    }
  }

  /** Grouping loses and invents nothing: the group amounts add up to the
      total of the raw lines. */
  lemma {:induction false} GroupsCoverTotal(fills: seq<Order>)
    ensures KeysTotal(fills, GroupKeys(fills)) == Total(fills)
  {
    if |fills| > 0 {
      var init := fills[..|fills| - 1];
      var o := fills[|fills| - 1];
      assert fills == init + [o];
      GroupsCoverTotal(init);
      KeysTotalAppend(init, o, GroupKeys(init));
      TotalAppend(init, o);
      var keys := GroupKeys(init);
      if o.exchangeId !in keys {
        AmountForUnmentioned(init, o.exchangeId);
        AmountForAppend(init, o, o.exchangeId);
        assert (keys + [o.exchangeId])[..|keys|] == keys;
      }
    }
  }

  /** Consolidation preserves the total amount of the plan. */
  lemma ConsolidatePreservesTotal(fills: seq<Order>, t: OrderType)
    ensures Total(Consolidate(fills, t)) == Total(fills)
  {
    LinesTotal(fills, GroupKeys(fills), t);
    GroupsCoverTotal(fills);
  }

  /** Consolidating positive fills gives positive lines. */
  lemma ConsolidatedLinesArePositive(fills: seq<Order>, t: OrderType)
    requires forall i :: 0 <= i < |fills| ==> fills[i].amount > 0.0
    ensures forall i :: 0 <= i < |Consolidate(fills, t)| ==> Consolidate(fills, t)[i].amount > 0.0
  {
    var r := Consolidate(fills, t);
    forall i | 0 <= i < |r| ensures r[i].amount > 0.0 {
      assert Mentions(r, r[i].exchangeId);
      AmountForMentioned(fills, r[i].exchangeId);
    }
  }

  /** When every line is on one exchange, everything placed is placed there. */
  lemma {:induction false} AmountForSingleExchange(fills: seq<Order>, id: int)
    requires forall i :: 0 <= i < |fills| ==> fills[i].exchangeId == id
    ensures AmountFor(fills, id) == Total(fills)
  {
    if |fills| > 0 {
      AmountForSingleExchange(fills[..|fills| - 1], id);
    }
  }

  /** Lines all on one exchange form one group. */
  lemma {:induction false} GroupKeysSingleExchange(fills: seq<Order>, id: int)
    requires |fills| > 0
    requires forall i :: 0 <= i < |fills| ==> fills[i].exchangeId == id
    ensures GroupKeys(fills) == [id]
  {
    if |fills| > 1 {
      GroupKeysSingleExchange(fills[..|fills| - 1], id);
    }
  }

  /** Fills all on one exchange consolidate into a single line carrying their
      total. */
  lemma SingleExchangeConsolidates(fills: seq<Order>, id: int, t: OrderType)
    requires |fills| > 0
    requires forall i :: 0 <= i < |fills| ==> fills[i].exchangeId == id
    ensures Consolidate(fills, t) == [Order(Total(fills), id, t)]
  {
    GroupKeysSingleExchange(fills, id);
    AmountForSingleExchange(fills, id);
    assert Lines(fills, [id], t) == [Order(Total(fills), id, t)];
  }
}
