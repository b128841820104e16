/** The best-first candidate queue, kept abstract: a sequence of entries from
    which the dequeue takes an entry that no other entry is strictly ahead of.
    No heap is modelled. */
module OrderQueue {
  import opened Types
  import opened Priorities

  /** A queued book order together with the key it was enqueued with. */
  datatype Entry = Entry(order: BookOrder, priority: Priority)

  /** What a dequeue hands back: the taken entry, its position, and the rest. */
  datatype Dequeued = Dequeued(entry: Entry, index: nat, rest: seq<Entry>)

  /** Position of the first entry that no entry of `q` is strictly ahead of. */
  function BestIndex(t: OrderType, q: seq<Entry>): (i: nat)
    requires |q| > 0
    ensures i < |q|
    ensures forall j :: 0 <= j < |q| ==> !Before(t, q[j].priority, q[i].priority)
    ensures forall j :: 0 <= j < i ==> Before(t, q[i].priority, q[j].priority)
  {
    if |q| == 1 then 0
    else
      var k := BestIndex(t, q[..|q| - 1]);
      if Before(t, q[|q| - 1].priority, q[k].priority) then |q| - 1 else k
  }

  /** Remove and return the best entry of a non-empty queue. */
  function Dequeue(t: OrderType, q: seq<Entry>): (d: Dequeued)
    requires |q| > 0
    ensures d.index < |q| && d.entry == q[d.index]
    ensures d.rest == q[..d.index] + q[d.index + 1..]
    ensures forall j :: 0 <= j < |d.rest| ==> d.rest[j] == q[if j < d.index then j else j + 1]
    ensures multiset(q) == multiset(d.rest) + multiset{d.entry}
    ensures forall e :: e in d.rest ==> !Before(t, e.priority, d.entry.priority)
    ensures forall j :: 0 <= j < d.index ==> Before(t, d.entry.priority, q[j].priority)
  {
    var i := BestIndex(t, q);
    assert q == q[..i] + [q[i]] + q[i + 1..];
    Dequeued(q[i], i, q[..i] + q[i + 1..])
  }
}
