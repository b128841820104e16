/** Per-exchange cursors over the pre-sorted order books: the cursor of an
    exchange counts how many of its book orders have been pulled so far. */
module Frontier {
  import opened Types

  type Books = map<int, seq<BookOrder>>

  /** Every book has a cursor and no cursor runs past its book. */
  predicate CursorsFit(books: Books, cursors: map<int, nat>)
  {
    && cursors.Keys == books.Keys
    && forall k :: k in cursors ==> cursors[k] <= |books[k]|
  }

  /** `keys` lists every book exactly once: the enumeration order of the books map. */
  predicate KeysEnumerate(books: Books, keys: seq<int>)
  {
    && (forall i, j :: 0 <= i < j < |keys| ==> keys[i] != keys[j])
    && (forall k :: k in books ==> k in keys)
    && (forall i :: 0 <= i < |keys| ==> keys[i] in books)
  }

  /** Every order of the book stored under `k` names exchange `k`. */
  predicate Keyed(books: Books)
  {
    forall k, i :: k in books && 0 <= i < |books[k]| ==> books[k][i].exchangeId == k
  }

  datatype Advanced = Advanced(next: Option<BookOrder>, cursors: map<int, nat>)

  /** Move exchange `k`'s cursor to its next book order, if there is one. */
  function Advance(books: Books, cursors: map<int, nat>, k: int): (a: Advanced)
    requires CursorsFit(books, cursors) && k in books
    ensures CursorsFit(books, a.cursors)
    ensures a.next.Some? <==> cursors[k] < |books[k]|
    ensures a.next.Some? ==> a.next.value == books[k][cursors[k]] && a.cursors[k] == cursors[k] + 1
    ensures a.next.None? ==> a.cursors[k] == cursors[k]
    ensures forall j :: j in cursors && j != k ==> a.cursors[j] == cursors[j]
  {
    if cursors[k] < |books[k]| then Advanced(Some(books[k][cursors[k]]), cursors[k := cursors[k] + 1])
    else Advanced(None, cursors)
  }

  /** Number of book orders of the exchanges in `keys` not yet pulled. */
  function Pending(books: Books, cursors: map<int, nat>, keys: seq<int>): nat
    requires CursorsFit(books, cursors)
    requires forall i :: 0 <= i < |keys| ==> keys[i] in books
  {
    if |keys| == 0 then 0
    else
      var k := keys[0];
      assert k in cursors;
      (|books[k]| - cursors[k]) + Pending(books, cursors, keys[1..])
  }

  /** Pulling one more order of a listed exchange lowers the pending count by
      one; leaving the cursor put keeps it. */
  lemma {:induction false} AdvanceConsumesOne(books: Books, cursors: map<int, nat>, keys: seq<int>, k: int)
    requires CursorsFit(books, cursors) && KeysEnumerate(books, keys) && k in books
    ensures var a := Advance(books, cursors, k);
      Pending(books, a.cursors, keys) == Pending(books, cursors, keys) - (if a.next.Some? then 1 else 0)
  {
    var a := Advance(books, cursors, k);
    if a.next.Some? {
      PendingAfterBump(books, cursors, a.cursors, keys, k);
    }
  }

  lemma {:induction false} PendingAfterBump(books: Books, cursors: map<int, nat>, after: map<int, nat>, keys: seq<int>, k: int)
    requires CursorsFit(books, cursors) && CursorsFit(books, after)
    requires forall i :: 0 <= i < |keys| ==> keys[i] in books
    requires forall i, j :: 0 <= i < j < |keys| ==> keys[i] != keys[j]
    requires k in books && after[k] == cursors[k] + 1
    requires forall j :: j in cursors && j != k ==> after[j] == cursors[j]
    ensures Pending(books, after, keys) == Pending(books, cursors, keys) - (if k in keys then 1 else 0)
  {
    if |keys| > 0 {
      PendingAfterBump(books, cursors, after, keys[1..], k);
      assert k in keys[1..] <==> k in keys && keys[0] != k;
    }
  }
}
