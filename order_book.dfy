/** The per-stock order-book aggregation of server.py:62-73.

    `order_book(data, book, stock)` is a Python generator: it walks the event
    stream, appends every event of `stock` to the caller's `book` dictionary
    (keyed by timestamp) and yields, per such event, the ladder stored at that
    event's timestamp with bids best (highest) first and asks best (lowest)
    first. `Snapshots` and `BookAfter` state what the whole stream produces;
    class `Feed` is the live generator object, pulled one snapshot at a time. */
module OrderBook {
  import opened Wrappers
  import opened Ladders

  /** One row of the event log: `(t, stock_name, side, order, size)`. */
  datatype Event = Event(t: int, stock: string, side: string, price: real, size: int)

  /** `book[t]`: the orders recorded at one timestamp, in arrival order. */
  datatype Entry = Entry(bids: seq<Order>, asks: seq<Order>)

  type Book = map<int, Entry>

  /** What the generator yields: `(t, sorted bids, sorted asks)`. */
  datatype Snapshot = Snapshot(t: int, bids: seq<Order>, asks: seq<Order>)

  function OrderOf(e: Event): Order
  {
    Order(e.price, e.size)
  }

  /** `book[t]`, or the empty entry the source creates for a new timestamp. */
  function Stored(book: Book, t: int): Entry
  {
    if t in book then book[t] else Entry([], [])
  }

  /** Lines 65-72: records one event in the book. */
  function Record(book: Book, e: Event): Book
  {
    var entry := Stored(book, e.t);
    if e.side == "buy" then book[e.t := entry.(bids := entry.bids + [OrderOf(e)])]
    else book[e.t := entry.(asks := entry.asks + [OrderOf(e)])]
  }

  /** A `'buy'` is appended to the bids at `e.t`, every other side to the
      asks; a missing timestamp is first created with two empty lists; the
      other list and every other timestamp are left as they were. */
  lemma RecordAppends(book: Book, e: Event)
    ensures Record(book, e).Keys == book.Keys + {e.t}
    ensures forall t :: t in book && t != e.t ==> Record(book, e)[t] == book[t]
    ensures e.side == "buy" ==>
      Record(book, e)[e.t] == Entry(Stored(book, e.t).bids + [OrderOf(e)], Stored(book, e.t).asks)
    ensures e.side != "buy" ==>
      Record(book, e)[e.t] == Entry(Stored(book, e.t).bids, Stored(book, e.t).asks + [OrderOf(e)])
  {
  }

  /** Line 73: the ladder of one entry, each side sorted best first. */
  function Ladder(entry: Entry, t: int): Snapshot
  {
    Snapshot(t, Sort(entry.bids, Descending), Sort(entry.asks, Ascending))
  }

  /** The ladder yielded at `t`. */
  function SnapshotAt(book: Book, t: int): Snapshot
    requires t in book
  {
    Ladder(book[t], t)
  }

  /** The first order of each yielded side, which the server quotes as top
      of book, is the highest bid and the lowest ask stored at `t`; a side
      is empty in the snapshot exactly when it is empty in the book. */
  lemma SnapshotTopIsBest(book: Book, t: int)
    requires t in book
    ensures var snap := SnapshotAt(book, t);
      && (snap.bids == [] <==> book[t].bids == [])
      && (snap.asks == [] <==> book[t].asks == [])
      && (snap.bids != [] ==>
            snap.bids[0] in book[t].bids && forall o :: o in book[t].bids ==> o.price <= snap.bids[0].price)
      && (snap.asks != [] ==>
            snap.asks[0] in book[t].asks && forall o :: o in book[t].asks ==> snap.asks[0].price <= o.price)
  {
    var snap := SnapshotAt(book, t);
    SortPermutes(book[t].bids, Descending);
    SortPermutes(book[t].asks, Ascending);
    if book[t].bids != [] {
      HeadIsBest(book[t].bids, Descending);
      assert snap.bids[0] in multiset(book[t].bids);
    }
    if book[t].asks != [] {
      HeadIsBest(book[t].asks, Ascending);
      assert snap.asks[0] in multiset(book[t].asks);
    }
    if snap.bids == [] { assert |multiset(book[t].bids)| == 0; }
    if snap.asks == [] { assert |multiset(book[t].asks)| == 0; }
  }

  /** The snapshots `order_book(data, book, stock)` yields, in order. */
  function Snapshots(data: seq<Event>, book: Book, stock: string): seq<Snapshot>
    decreases |data|
  {
    if data == [] then []
    else if data[0].stock != stock then Snapshots(data[1..], book, stock)
    else
      var b := Record(book, data[0]);
      [SnapshotAt(b, data[0].t)] + Snapshots(data[1..], b, stock)
  }

  /** The book `order_book(data, book, stock)` leaves once drained. */
  function BookAfter(data: seq<Event>, book: Book, stock: string): Book
    decreases |data|
  {
    if data == [] then book
    else BookAfter(data[1..], if data[0].stock == stock then Record(book, data[0]) else book, stock)
  }

  // Independent descriptions of the stream, used to state what the
  // generator does.

  /** The events of `stock`, in log order. */
  function Matching(data: seq<Event>, stock: string): seq<Event>
  {
    if data == [] then []
    else (if data[0].stock == stock then [data[0]] else []) + Matching(data[1..], stock)
  }

  /** Whether `e` adds an order to the bids (`buy`) or the asks at `t`. */
  predicate Places(e: Event, stock: string, t: int, buy: bool)
  {
    e.stock == stock && e.t == t && (e.side == "buy") == buy
  }

  /** The orders the events of `data` add to one side of `book[t]`, in order. */
  function Placed(data: seq<Event>, stock: string, t: int, buy: bool): seq<Order>
  {
    if data == [] then []
    else (if Places(data[0], stock, t, buy) then [OrderOf(data[0])] else [])
         + Placed(data[1..], stock, t, buy)
  }

  /** The timestamps at which `data` records an order of `stock`. */
  function Times(data: seq<Event>, stock: string): set<int>
  {
    set e | e in data && e.stock == stock :: e.t
  }

  lemma PlacedCons(e: Event, s: seq<Event>, stock: string, t: int, buy: bool)
    ensures Placed([e] + s, stock, t, buy) == Placed([e], stock, t, buy) + Placed(s, stock, t, buy)
  {
    assert ([e] + s)[1..] == s;
  }

  /** Recording one event of `stock` is appending its `Placed` orders. */
  lemma StoredAfterRecord(book: Book, e: Event, stock: string, t: int)
    requires e.stock == stock
    ensures Stored(Record(book, e), t).bids == Stored(book, t).bids + Placed([e], stock, t, true)
    ensures Stored(Record(book, e), t).asks == Stored(book, t).asks + Placed([e], stock, t, false)
  {
    RecordAppends(book, e);
    assert [e][1..] == [];
  }

  /** Unfolds `Matching` and `Snapshots` at the head of a non-empty stream. */
  lemma Unfold(data: seq<Event>, book: Book, stock: string)
    requires data != []
    ensures data[0].stock != stock ==>
      && Matching(data, stock) == Matching(data[1..], stock)
      && Snapshots(data, book, stock) == Snapshots(data[1..], book, stock)
    ensures data[0].stock == stock ==>
      && Matching(data, stock) == [data[0]] + Matching(data[1..], stock)
      && Snapshots(data, book, stock) ==
           [SnapshotAt(Record(book, data[0]), data[0].t)] + Snapshots(data[1..], Record(book, data[0]), stock)
  {
  }

  /** One snapshot per event of `stock`, in log order, stamped with that
      event's timestamp; the other stocks' events yield nothing. */
  lemma {:induction false} SnapshotPerEvent(data: seq<Event>, book: Book, stock: string)
    ensures |Snapshots(data, book, stock)| == |Matching(data, stock)|
    ensures forall k :: 0 <= k < |Matching(data, stock)| ==>
      Snapshots(data, book, stock)[k].t == Matching(data, stock)[k].t
  {
    if data != [] {
      Unfold(data, book, stock);
      if data[0].stock != stock {
        SnapshotPerEvent(data[1..], book, stock);
      } else {
        var b := Record(book, data[0]);
        SnapshotPerEvent(data[1..], b, stock);
        var snaps := Snapshots(data, book, stock);
        var m := Matching(data, stock);
        forall k | 0 <= k < |m| ensures snaps[k].t == m[k].t {
          if k > 0 {
            assert snaps[k] == Snapshots(data[1..], b, stock)[k - 1];
            assert m[k] == Matching(data[1..], stock)[k - 1];
          }
        }
      }
    }
  }

  /** Events of other stocks have no effect at all: neither on the snapshots
      nor on the book. */
  lemma {:induction false} OtherStocksIgnored(data: seq<Event>, book: Book, stock: string)
    ensures Snapshots(data, book, stock) == Snapshots(Matching(data, stock), book, stock)
    ensures BookAfter(data, book, stock) == BookAfter(Matching(data, stock), book, stock)
  {
    if data != [] {
      Unfold(data, book, stock);
      var m := Matching(data[1..], stock);
      if data[0].stock != stock {
        OtherStocksIgnored(data[1..], book, stock);
      } else {
        var b := Record(book, data[0]);
        OtherStocksIgnored(data[1..], b, stock);
        var d := [data[0]] + m;
        assert d[0] == data[0] && d[1..] == m;
        Unfold(d, book, stock);
      }
    }
  }

  /** The book left behind, at one timestamp: each side holds what was
      stored there before followed by the orders recorded since, in arrival
      order (the stored lists are never sorted in place). */
  lemma {:induction false} BookAfterStored(data: seq<Event>, book: Book, stock: string, t: int)
    ensures Stored(BookAfter(data, book, stock), t) ==
      Entry(Stored(book, t).bids + Placed(data, stock, t, true),
            Stored(book, t).asks + Placed(data, stock, t, false))
  {
    if data != [] {
      var e := data[0];
      var rest := data[1..];
      assert data == [e] + rest;
      PlacedCons(e, rest, stock, t, true);
      PlacedCons(e, rest, stock, t, false);
      if e.stock != stock {
        BookAfterStored(rest, book, stock, t);
        assert Placed([e], stock, t, true) == [] && Placed([e], stock, t, false) == [];
      } else {
        var b := Record(book, e);
        BookAfterStored(rest, b, stock, t);
        StoredAfterRecord(book, e, stock, t);
        var x1, x2 := Placed([e], stock, t, true), Placed(rest, stock, t, true);
        var y1, y2 := Placed([e], stock, t, false), Placed(rest, stock, t, false);
        assert Stored(b, t).bids + x2 == Stored(book, t).bids + (x1 + x2);
        assert Stored(b, t).asks + y2 == Stored(book, t).asks + (y1 + y2);
      }
    }
  }

  /** The book left behind has an entry for every timestamp it had before
      and every timestamp of an event of `stock`, and no other. */
  lemma {:induction false} BookAfterKeys(data: seq<Event>, book: Book, stock: string)
    ensures BookAfter(data, book, stock).Keys == book.Keys + Times(data, stock)
  {
    if data != [] {
      var e := data[0];
      var rest := data[1..];
      assert data == [e] + rest;
      assert Times(data, stock) == (if e.stock == stock then {e.t} else {}) + Times(rest, stock);
      if e.stock != stock {
        BookAfterKeys(rest, book, stock);
      } else {
        RecordAppends(book, e);
        BookAfterKeys(rest, Record(book, e), stock);
      }
    }
  }

  /** No orders are placed at a timestamp no event of `stock` carries. */
  lemma {:induction false} PlacedOutside(data: seq<Event>, stock: string, t: int)
    requires t !in Times(data, stock)
    ensures Placed(data, stock, t, true) == [] && Placed(data, stock, t, false) == []
  {
    if data != [] {
      assert data[0] in data;
      assert Times(data[1..], stock) <= Times(data, stock) by {
        forall e | e in data[1..] ensures e in data { }
      }
      PlacedOutside(data[1..], stock, t);
    }
  }

  /** Together: draining the generator leaves every other entry as it was. */
  lemma BookAfterKeepsOthers(data: seq<Event>, book: Book, stock: string)
    ensures BookAfter(data, book, stock).Keys == book.Keys + Times(data, stock)
    ensures forall t :: t !in Times(data, stock) && t in book ==> BookAfter(data, book, stock)[t] == book[t]
  {
    BookAfterKeys(data, book, stock);
    forall t | t !in Times(data, stock) && t in book ensures BookAfter(data, book, stock)[t] == book[t] {
      BookAfterStored(data, book, stock, t);
      PlacedOutside(data, stock, t);
    }
  }

  /** The ladder at `t` once the events `upto` have been recorded into
      `book`, each side sorted best first. */
  function LadderAt(book: Book, upto: seq<Event>, stock: string, t: int): Snapshot
  {
    Ladder(Entry(Stored(book, t).bids + Placed(upto, stock, t, true),
                 Stored(book, t).asks + Placed(upto, stock, t, false)), t)
  }

  lemma LadderAtRecord(book: Book, e: Event, upto: seq<Event>, stock: string, t: int)
    requires e.stock == stock
    ensures LadderAt(Record(book, e), upto, stock, t) == LadderAt(book, [e] + upto, stock, t)
  {
    StoredAfterRecord(book, e, stock, t);
    PlacedCons(e, upto, stock, t, true);
    PlacedCons(e, upto, stock, t, false);
    var before := Stored(book, t);
    var after := Stored(Record(book, e), t);
    var b1, b2 := Placed([e], stock, t, true), Placed(upto, stock, t, true);
    var a1, a2 := Placed([e], stock, t, false), Placed(upto, stock, t, false);
    assert after.bids + b2 == before.bids + (b1 + b2);
    assert after.asks + a2 == before.asks + (a1 + a2);
  }

  /** The k-th snapshot is NOT a cumulative ladder: it is the entry at its
      own timestamp only, holding the orders that were stored there before
      plus those the first k + 1 events of `stock` placed at that timestamp,
      each side sorted best first. */
  lemma {:induction false} SnapshotIsLadderAt(data: seq<Event>, book: Book, stock: string, k: nat)
    requires k < |Matching(data, stock)|
    ensures |Snapshots(data, book, stock)| == |Matching(data, stock)|
    ensures Snapshots(data, book, stock)[k] ==
      LadderAt(book, Matching(data, stock)[..k + 1], stock, Matching(data, stock)[k].t)
  {
    SnapshotPerEvent(data, book, stock);
    Unfold(data, book, stock);
    var e := data[0];
    var rest := data[1..];
    if e.stock != stock {
      SnapshotIsLadderAt(rest, book, stock, k);
    } else if k == 0 {
      FirstLadder(book, e, stock);
      assert Matching(data, stock)[..1] == [e];
    } else {
      var b := Record(book, e);
      SnapshotIsLadderAt(rest, b, stock, k - 1);
      assert Snapshots(data, book, stock)[k] == Snapshots(rest, b, stock)[k - 1];
      LaterLadder(book, e, Matching(rest, stock), stock, k);
    }
  }

  /** The snapshot of the first event of `stock` is its ladder after
      recording it alone. */
  lemma FirstLadder(book: Book, e: Event, stock: string)
    requires e.stock == stock
    ensures e.t in Record(book, e)
    ensures SnapshotAt(Record(book, e), e.t) == LadderAt(book, [e], stock, e.t)
  {
    StoredAfterRecord(book, e, stock, e.t);
    assert Placed([], stock, e.t, true) == [] && Placed([], stock, e.t, false) == [];
    assert Stored(Record(book, e), e.t) == Record(book, e)[e.t];
    PlacedCons(e, [], stock, e.t, true);
    PlacedCons(e, [], stock, e.t, false);
    assert [e] + [] == [e];
  }

  /** A later snapshot, seen from the book after the first event `e`, is the
      same ladder seen from the book before it with `e` prepended. */
  lemma LaterLadder(book: Book, e: Event, m: seq<Event>, stock: string, k: nat)
    requires e.stock == stock && 0 < k <= |m|
    ensures ([e] + m)[k] == m[k - 1]
    ensures LadderAt(Record(book, e), m[..k], stock, m[k - 1].t) ==
      LadderAt(book, ([e] + m)[..k + 1], stock, m[k - 1].t)
  {
    assert ([e] + m)[..k + 1] == [e] + m[..k];
    LadderAtRecord(book, e, m[..k], stock, m[k - 1].t);
  }


  /** What a client sees in every snapshot: bids best (highest) first and
      asks best (lowest) first, holding exactly the stored orders, with
      orders at one price in arrival order. */
  lemma SnapshotOrdered(data: seq<Event>, book: Book, stock: string, k: nat, p: real)
    requires k < |Matching(data, stock)|
    ensures |Snapshots(data, book, stock)| == |Matching(data, stock)|
    ensures var snap := Snapshots(data, book, stock)[k];
      var t := Matching(data, stock)[k].t;
      var upto := Matching(data, stock)[..k + 1];
      var bids := Stored(book, t).bids + Placed(upto, stock, t, true);
      var asks := Stored(book, t).asks + Placed(upto, stock, t, false);
      && SortedBy(snap.bids, Descending) && SortedBy(snap.asks, Ascending)
      && multiset(snap.bids) == multiset(bids) && multiset(snap.asks) == multiset(asks)
      && AtPrice(snap.bids, p) == AtPrice(bids, p) && AtPrice(snap.asks, p) == AtPrice(asks, p)
  {
    SnapshotIsLadderAt(data, book, stock, k);
    var t := Matching(data, stock)[k].t;
    var upto := Matching(data, stock)[..k + 1];
    var bids := Stored(book, t).bids + Placed(upto, stock, t, true);
    var asks := Stored(book, t).asks + Placed(upto, stock, t, false);
    SortIsSorted(bids, Descending);
    SortIsSorted(asks, Ascending);
    SortPermutes(bids, Descending);
    SortPermutes(asks, Ascending);
    SortIsStable(bids, Descending, p);
    SortIsStable(asks, Ascending, p);
  }

  /** The generator object `order_book(data, book, stock)`: a cursor `pos`
      into the event stream and the dictionary `book` it appends to. */
  class Feed {
    const data: seq<Event>
    const stock: string
    var pos: nat
    var book: Book

    ghost predicate Valid()
      reads this
    {
      pos <= |data|
    }

    /** The snapshots this generator has still to yield. */
    ghost function Pending(): seq<Snapshot>
      reads this
      requires Valid()
    {
      Snapshots(data[pos..], book, stock)
    }

    constructor (data: seq<Event>, book: Book, stock: string)
      ensures Valid() && this.data == data && this.stock == stock
      ensures this.book == book && pos == 0
      ensures Pending() == Snapshots(data, book, stock)
    {
      this.data := data;
      this.stock := stock;
      this.book := book;
      pos := 0;
      new;
      assert data[0..] == data;
    }

    /** `next(gen)`: skips the events of other stocks, records the next event
        of `stock` and yields its snapshot; `None` is StopIteration. */
    method Next() returns (r: Option<Snapshot>)
      requires Valid()
      modifies this
      ensures Valid()
      ensures old(Pending()) == [] ==> r == None && Pending() == []
      ensures old(Pending()) != [] ==>
        r == Some(old(Pending())[0]) && Pending() == old(Pending())[1..]
      ensures forall i :: old(pos) <= i < pos - 1 ==> data[i].stock != stock
      ensures r == None ==> pos == |data| && book == old(book)
                            && forall i :: old(pos) <= i < pos ==> data[i].stock != stock
      ensures r != None ==> old(pos) < pos && data[pos - 1].stock == stock
                            && book == Record(old(book), data[pos - 1])
                            && r.value.t == data[pos - 1].t
    {
      while pos < |data| && data[pos].stock != stock
        invariant old(pos) <= pos <= |data|
        invariant book == old(book)
        invariant Pending() == old(Pending())
        invariant forall i :: old(pos) <= i < pos ==> data[i].stock != stock
      {
        assert data[pos..][1..] == data[pos + 1..];
        pos := pos + 1;
      }
      if pos == |data| {
        return None;
      }
      var e := data[pos];
      assert data[pos..][0] == e && data[pos..][1..] == data[pos + 1..];
      book := Record(book, e);
      pos := pos + 1;
      r := Some(SnapshotAt(book, e.t));
    }
  }
}
