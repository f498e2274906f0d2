/** One side of an order book and the sort that `order_book` applies to it
    before yielding (server.py:73): Python's `sorted` with a key, which is a
    stable sort. */
module Ladders {

  /** A resting order as stored in the book: `(order, size)`. */
  datatype Order = Order(price: real, size: int)

  /** The two keys the source sorts by: `-x[0]` for bids, `x[0]` for asks. */
  datatype Direction = Descending | Ascending

  function Rank(o: Order, dir: Direction): real
  {
    if dir == Descending then -o.price else o.price
  }

  /** The ladder is ordered best first: ranks never decrease. */
  ghost predicate SortedBy(s: seq<Order>, dir: Direction)
  {
    forall i, j :: 0 <= i < j < |s| ==> Rank(s[i], dir) <= Rank(s[j], dir)
  }

  /** The orders of `s` at price `p`, in the order they appear in `s`. */
  function AtPrice(s: seq<Order>, p: real): seq<Order>
  {
    if s == [] then []
    else (if s[0].price == p then [s[0]] else []) + AtPrice(s[1..], p)
  }

  /** Puts `o` in front of the first element that does not rank strictly
      better than it. */
  function Insert(o: Order, s: seq<Order>, dir: Direction): seq<Order>
  {
    if s == [] || Rank(o, dir) <= Rank(s[0], dir) then [o] + s
    else [s[0]] + Insert(o, s[1..], dir)
  }

  /** `sorted(s, key=...)`: an insertion sort that keeps equal keys in input order. */
  function Sort(s: seq<Order>, dir: Direction): seq<Order>
  {
    if s == [] then [] else Insert(s[0], Sort(s[1..], dir), dir)
  }

  lemma {:induction false} InsertPermutes(o: Order, s: seq<Order>, dir: Direction)
    ensures multiset(Insert(o, s, dir)) == multiset([o] + s)
  {
    if s != [] && Rank(o, dir) > Rank(s[0], dir) {
      InsertPermutes(o, s[1..], dir);
      assert s == [s[0]] + s[1..];
    }
  }

  lemma {:induction false} InsertMember(o: Order, s: seq<Order>, dir: Direction, x: Order)
    requires x in Insert(o, s, dir)
    ensures x == o || x in s
  {
    if s != [] && Rank(o, dir) > Rank(s[0], dir) && x != s[0] {
      InsertMember(o, s[1..], dir, x);
    }
  }

  lemma {:induction false} InsertSorted(o: Order, s: seq<Order>, dir: Direction)
    requires SortedBy(s, dir)
    ensures SortedBy(Insert(o, s, dir), dir)
  {
    if s != [] && Rank(o, dir) > Rank(s[0], dir) {
      var rest := Insert(o, s[1..], dir);
      InsertSorted(o, s[1..], dir);
      forall j | 0 <= j < |rest| ensures Rank(s[0], dir) <= Rank(rest[j], dir) {
        InsertMember(o, s[1..], dir, rest[j]);
      }
      var r := [s[0]] + rest;
      forall i, j | 0 <= i < j < |r| ensures Rank(r[i], dir) <= Rank(r[j], dir) {
        if i > 0 {
          assert r[i] == rest[i - 1] && r[j] == rest[j - 1];
        } else {
          assert r[j] == rest[j - 1];
        }
      }
    }
  }

  function Only(o: Order, p: real): seq<Order>
  {
    if o.price == p then [o] else []
  }

  lemma AtPriceCons(o: Order, s: seq<Order>, p: real)
    ensures AtPrice([o] + s, p) == Only(o, p) + AtPrice(s, p)
  {
    assert ([o] + s)[1..] == s;
  }

  /** Inserting never moves `o` past an order of its own price. */
  lemma {:induction false} InsertAtPrice(o: Order, s: seq<Order>, dir: Direction, p: real)
    ensures AtPrice(Insert(o, s, dir), p) == AtPrice([o] + s, p)
  {
    if s != [] && Rank(o, dir) > Rank(s[0], dir) {
      var rest := s[1..];
      assert s == [s[0]] + rest;
      calc {
        AtPrice(Insert(o, s, dir), p);
        AtPrice([s[0]] + Insert(o, rest, dir), p);
        { AtPriceCons(s[0], Insert(o, rest, dir), p); }
        Only(s[0], p) + AtPrice(Insert(o, rest, dir), p);
        { InsertAtPrice(o, rest, dir, p); AtPriceCons(o, rest, p); }
        Only(s[0], p) + (Only(o, p) + AtPrice(rest, p));
        { assert s[0].price != o.price; }
        Only(o, p) + (Only(s[0], p) + AtPrice(rest, p));
        { AtPriceCons(s[0], rest, p); }
        Only(o, p) + AtPrice(s, p);
        { AtPriceCons(o, s, p); }
        AtPrice([o] + s, p);
      }
    }
  }

  /** The sorted ladder is best first. */
  lemma {:induction false} SortIsSorted(s: seq<Order>, dir: Direction)
    ensures SortedBy(Sort(s, dir), dir)
  {
    if s != [] {
      SortIsSorted(s[1..], dir);
      InsertSorted(s[0], Sort(s[1..], dir), dir);
    }
  }

  /** The sorted ladder holds exactly the stored orders. */
  lemma {:induction false} SortPermutes(s: seq<Order>, dir: Direction)
    ensures multiset(Sort(s, dir)) == multiset(s)
  {
    if s != [] {
      SortPermutes(s[1..], dir);
      InsertPermutes(s[0], Sort(s[1..], dir), dir);
      assert s == [s[0]] + s[1..];
    }
  }

  /** The sort is stable: orders at one price keep their insertion order. */
  lemma {:induction false} SortIsStable(s: seq<Order>, dir: Direction, p: real)
    ensures AtPrice(Sort(s, dir), p) == AtPrice(s, p)
  {
    if s != [] {
      SortIsStable(s[1..], dir, p);
      InsertAtPrice(s[0], Sort(s[1..], dir), dir, p);
      AtPriceCons(s[0], Sort(s[1..], dir), p);
      AtPriceCons(s[0], s[1..], p);
      assert s == [s[0]] + s[1..];
    }
  }

  /** The head of a sorted ladder is its best order: the highest bid or the
      lowest ask among the stored ones. */
  lemma HeadIsBest(s: seq<Order>, dir: Direction)
    requires s != []
    ensures Sort(s, dir) != []
    ensures forall o :: o in s ==> Rank(Sort(s, dir)[0], dir) <= Rank(o, dir)
  {
    SortPermutes(s, dir);
    SortIsSorted(s, dir);
    var r := Sort(s, dir);
    assert s[0] in multiset(r);
    forall o | o in s ensures Rank(r[0], dir) <= Rank(o, dir) {
      assert o in multiset(s);
      assert o in multiset(r);
      var j :| 0 <= j < |r| && r[j] == o;
    }
  }
}
