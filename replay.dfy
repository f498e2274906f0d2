/** The replay session `App` of server.py:127-203.

    `App` owns two `order_book` generators over the same event log, one for
    ABC (`_data_1`) and one for DEF (`_data_2`), the simulated start
    `_sim_start` and the wall-clock start `_rt_start`. The wall clock is a
    parameter `now` of each call; the CSV file is the fixed event sequence
    `events`, which every (re)initialisation replays from its start.

    The model follows the code, not the intent stated around it:
    - `_current_book_N` is a property, so every pull builds a fresh generator
      over the shared cursor; its `while` therefore DISCARDS every snapshot
      that is already due and returns the first one still in the future;
    - with pacing off, book 1 yields its next snapshot but book 2 yields
      nothing, after draining its cursor;
    - `_sim_start` is the timestamp of the FIRST ABC snapshot, taken before
      the warm-up, and the warm-up advances DEF only when ABC advanced. */
module Replay {
  import opened Wrappers
  import opened Ladders
  import opened OrderBook
  import opened Params

  /** Number of warm-up rounds in `read_10_first_lines`. */
  const WarmUpRounds := 10

  /** StopIteration, or the AttributeError of reading `_sim_start` before
      any ABC snapshot ever set it. */
  datatype PullError = Exhausted | MissingSimStart

  datatype Pull = Got(snap: Snapshot) | Failed(error: PullError)

  datatype Stream = AbcStream | DefStream

  /** The abstract state of an `App`: what each cursor has still to yield,
      `_sim_start` and `_rt_start`. */
  datatype Session = Session(pending1: seq<Snapshot>, pending2: seq<Snapshot>,
                             simStart: Option<int>, rtStart: int)

  /** `top_bid`/`top_ask`: `side and {...}` is the empty list itself when the
      side is empty, else the price and size of its first order. */
  datatype Top = EmptyList | Best(price: real, size: int)

  /** `x and x.get('id', None)`: `None` for no parameters, the (falsy) empty
      dictionary itself, or the `id` value when present. */
  datatype Id = NullId | EmptyParams | Token(token: string)

  /** One element of the JSON answer. */
  datatype Quote = Quote(id: Id, stock: string, timestamp: int, topBid: Top, topAsk: Top)

  function Min(a: int, b: int): int
  {
    if a <= b then a else b
  }

  /** All snapshots the ABC and the DEF generators yield on `events`. */
  function AbcSnapshots(events: seq<Event>): seq<Snapshot>
  {
    Snapshots(events, map[], "ABC")
  }

  function DefSnapshots(events: seq<Event>): seq<Snapshot>
  {
    Snapshots(events, map[], "DEF")
  }

  /** The state `__init__` leaves (lines 130-139): `_sim_start` from the first
      ABC snapshot (kept from `prev` if there is none, as the attribute is
      then simply not assigned), then ten warm-up rounds, each advancing DEF
      only if ABC advanced. */
  function Started(events: seq<Event>, now: int, prev: Option<int>): Session
  {
    var abc := AbcSnapshots(events);
    var def := DefSnapshots(events);
    var rest := if abc == [] then [] else abc[1..];
    var k := Min(WarmUpRounds, |rest|);
    Session(rest[k..], def[Min(k, |def|)..], if abc == [] then prev else Some(abc[0].t), now)
  }

  /** What a (re)started session holds, case by case: with more than ten ABC
      snapshots, ABC resumes after the eleventh and DEF after the tenth; with
      fewer, ABC is exhausted and DEF skipped one per ABC snapshot after the
      first; with none, `_sim_start` keeps its previous value. */
  lemma StartedState(events: seq<Event>, now: int, prev: Option<int>)
    ensures var s := Started(events, now, prev);
      var abc := AbcSnapshots(events); var def := DefSnapshots(events);
      && s.rtStart == now
      && s.simStart == (if abc == [] then prev else Some(abc[0].t))
      && (abc == [] ==> s.pending1 == [] && s.pending2 == def)
      && (|abc| > WarmUpRounds ==>
            s.pending1 == abc[WarmUpRounds + 1..] && s.pending2 == def[Min(WarmUpRounds, |def|)..])
      && (1 <= |abc| <= WarmUpRounds + 1 ==>
            s.pending1 == [] && s.pending2 == def[Min(|abc| - 1, |def|)..])
  {
  }

  /** Where the pacing loop stops on `s`: the first snapshot whose timestamp
      is beyond `limit`, or `|s|` if there is none. */
  function Pace(s: seq<Snapshot>, limit: int): (k: nat)
    ensures k <= |s|
  {
    if s == [] || s[0].t > limit then 0 else 1 + Pace(s[1..], limit)
  }

  /** Every snapshot before the stop is due; the one at the stop is not. */
  lemma {:induction false} PaceStops(s: seq<Snapshot>, limit: int)
    ensures forall i :: 0 <= i < Pace(s, limit) ==> s[i].t <= limit
    ensures Pace(s, limit) < |s| ==> s[Pace(s, limit)].t > limit
  {
    if s != [] && s[0].t <= limit {
      PaceStops(s[1..], limit);
      forall i | 0 < i < Pace(s, limit) ensures s[i].t <= limit {
        assert s[i] == s[1..][i - 1];
      }
    }
  }

  /** Conversely, the stop is the only index with those two properties. */
  lemma {:induction false} PaceUnique(s: seq<Snapshot>, limit: int, k: nat)
    requires k <= |s|
    requires forall i :: 0 <= i < k ==> s[i].t <= limit
    requires k < |s| ==> s[k].t > limit
    ensures Pace(s, limit) == k
  {
    if k > 0 {
      assert s[0].t <= limit;
      forall i | 0 <= i < k - 1 ensures s[1..][i].t <= limit {
        assert s[1..][i] == s[i + 1];
      }
      PaceUnique(s[1..], limit, k - 1);
    }
  }

  /** A paced pull (lines 144-147, 153-156 with `REALTIME`) on a cursor
      that has `pending` left: the snapshot returned and what is left. */
  function Paced(pending: seq<Snapshot>, simStart: Option<int>, elapsed: int): (Pull, seq<Snapshot>)
  {
    if pending == [] then (Failed(Exhausted), [])
    else if simStart.None? then (Failed(MissingSimStart), pending[1..])
    else
      var k := Pace(pending, simStart.value + elapsed);
      if k == |pending| then (Failed(Exhausted), [])
      else (Got(pending[k]), pending[k + 1..])
  }

  /** A paced pull consumes the snapshots already due at
      `_sim_start + elapsed` and returns the first one that is not, leaving
      the rest of the cursor; if every snapshot is due it raises
      StopIteration with the cursor drained; before `_sim_start` exists it
      fails after taking one snapshot. */
  lemma PacedSkipsDue(pending: seq<Snapshot>, simStart: Option<int>, elapsed: int)
    ensures var r := Paced(pending, simStart, elapsed);
      && |r.1| <= |pending| && r.1 == pending[|pending| - |r.1|..]
      && (r.0.Got? ==>
            && simStart.Some? && r.0.snap.t > simStart.value + elapsed
            && |r.1| < |pending| && r.0.snap == pending[|pending| - |r.1| - 1]
            && forall i :: 0 <= i < |pending| - |r.1| - 1 ==> pending[i].t <= simStart.value + elapsed)
      && (r.0 == Failed(Exhausted) ==>
            && r.1 == []
            && (pending == [] || (simStart.Some? && forall i :: 0 <= i < |pending| ==> pending[i].t <= simStart.value + elapsed)))
      && (r.0 == Failed(MissingSimStart) ==> simStart.None? && pending != [] && r.1 == pending[1..])
  {
    if simStart.Some? {
      PaceStops(pending, simStart.value + elapsed);
    }
  }

  /** `next(self._current_book_N)` on a cursor that has `pending` left. */
  function PullSpec(pending: seq<Snapshot>, simStart: Option<int>, elapsed: int,
                    realtime: bool, stream: Stream): (Pull, seq<Snapshot>)
  {
    if realtime then Paced(pending, simStart, elapsed)
    else if stream == AbcStream then
      if pending == [] then (Failed(Exhausted), []) else (Got(pending[0]), pending[1..])
    else (Failed(Exhausted), [])
  }

  /** The two pulls of one `try` block (lines 169-170 or 174-175): ABC first;
      DEF only if ABC succeeded. */
  function Attempt(s: Session, now: int, realtime: bool): (Result<(Snapshot, Snapshot), PullError>, Session)
  {
    var elapsed := now - s.rtStart;
    var p1 := PullSpec(s.pending1, s.simStart, elapsed, realtime, AbcStream);
    if p1.0.Failed? then (Failure(p1.0.error), s.(pending1 := p1.1))
    else
      var p2 := PullSpec(s.pending2, s.simStart, elapsed, realtime, DefStream);
      var after := s.(pending1 := p1.1, pending2 := p2.1);
      if p2.0.Failed? then (Failure(p2.0.error), after)
      else (Success((p1.0.snap, p2.0.snap)), after)
  }

  /** An attempt keeps the clock; without pacing it always fails (book 2
      never yields); with pacing both snapshots it returns are still in the
      future of the clock. */
  lemma AttemptFacts(s: Session, now: int, realtime: bool)
    ensures var r := Attempt(s, now, realtime);
      && r.1.simStart == s.simStart && r.1.rtStart == s.rtStart
      && (!realtime ==> r.0.Failure?)
      && (realtime && r.0.Success? ==>
            && s.simStart.Some?
            && r.0.value.0.t > s.simStart.value + (now - s.rtStart)
            && r.0.value.1.t > s.simStart.value + (now - s.rtStart))
  {
    var r := Attempt(s, now, realtime);
    if realtime && r.0.Success? {
      var elapsed := now - s.rtStart;
      PacedSkipsDue(s.pending1, s.simStart, elapsed);
      PacedSkipsDue(s.pending2, s.simStart, elapsed);
      assert r.0.value.0 == Paced(s.pending1, s.simStart, elapsed).0.snap;
      assert r.0.value.1 == Paced(s.pending2, s.simStart, elapsed).0.snap;
    }
  }

  function IdOf(x: Option<Query>): Id
  {
    match x
    case None => NullId
    case Some(m) => if m == map[] then EmptyParams else if "id" in m then Token(m["id"]) else NullId
  }

  /** The id echoed for a request path that `read_params` accepts: `None`
      without a query string, otherwise the value of the LAST `id=` item of
      the query, or `None` if no item names `id`. The empty dictionary is
      never what `read_params` returns, so `EmptyParams` never occurs. */
  lemma IdOfRequest(path: string)
    requires ReadParams(path).Success?
    ensures IdOf(ReadParams(path).value) != EmptyParams
    ensures '?' !in path ==> IdOf(ReadParams(path).value) == NullId
    ensures '?' in path ==>
      var items := Split(Split(path, '?')[1], '&');
      IdOf(ReadParams(path).value) ==
        (if LastValue(items, "id").Some? then Token(LastValue(items, "id").value) else NullId)
  {
    ReadParamsNone(path);
    if '?' in path {
      ReadParamsUnfold(path);
      ReadParamsNonEmpty(path);
      ToDictLaterWins(Split(Split(path, '?')[1], '&'), map[], "id");
    }
  }

  function TopOf(side: seq<Order>): Top
  {
    if side == [] then EmptyList else Best(side[0].price, side[0].size)
  }

  /** The answer of lines 176-203: `[ABC, DEF]`, both stamped with the later
      of the two snapshot timestamps and the same id, each with the first
      order of each sorted side, or the empty list for an empty side. */
  function Respond(x: Option<Query>, s1: Snapshot, s2: Snapshot): (r: seq<Quote>)
    ensures |r| == 2 && r[0].stock == "ABC" && r[1].stock == "DEF"
    ensures r[0].timestamp == r[1].timestamp
    ensures r[0].timestamp >= s1.t && r[0].timestamp >= s2.t
    ensures r[0].timestamp == s1.t || r[0].timestamp == s2.t
    ensures r[0].id == r[1].id == IdOf(x)
    ensures r[0].topBid == EmptyList <==> s1.bids == []
    ensures r[0].topAsk == EmptyList <==> s1.asks == []
    ensures r[1].topBid == EmptyList <==> s2.bids == []
    ensures r[1].topAsk == EmptyList <==> s2.asks == []
    ensures s1.bids != [] ==> r[0].topBid == Best(s1.bids[0].price, s1.bids[0].size)
    ensures s1.asks != [] ==> r[0].topAsk == Best(s1.asks[0].price, s1.asks[0].size)
    ensures s2.bids != [] ==> r[1].topBid == Best(s2.bids[0].price, s2.bids[0].size)
    ensures s2.asks != [] ==> r[1].topAsk == Best(s2.asks[0].price, s2.asks[0].size)
  {
    var t := if s1.t > s2.t then s1.t else s2.t;
    var id := IdOf(x);
    [Quote(id, "ABC", t, TopOf(s1.bids), TopOf(s1.asks)),
     Quote(id, "DEF", t, TopOf(s2.bids), TopOf(s2.asks))]
  }

  /** `handle_query(x)` (lines 168-203): one attempt; on any error a full
      re-initialisation and exactly one more attempt, whose error is not
      caught. */
  function Serve(s: Session, events: seq<Event>, x: Option<Query>, now: int, realtime: bool)
    : (Result<seq<Quote>, PullError>, Session)
  {
    var a := Attempt(s, now, realtime);
    if a.0.Success? then (Success(Respond(x, a.0.value.0, a.0.value.1)), a.1)
    else
      var b := Attempt(Started(events, now, s.simStart), now, realtime);
      if b.0.Success? then (Success(Respond(x, b.0.value.0, b.0.value.1)), b.1)
      else (Failure(b.0.error), b.1)
  }

  /** An answer is `[ABC, DEF]` with one timestamp and one id; with pacing on
      that timestamp is still in the future of the session's clock. */
  lemma ServeAnswer(s: Session, events: seq<Event>, x: Option<Query>, now: int, realtime: bool)
    requires Serve(s, events, x, now, realtime).0.Success?
    ensures var (r, after) := Serve(s, events, x, now, realtime);
      && |r.value| == 2 && r.value[0].stock == "ABC" && r.value[1].stock == "DEF"
      && r.value[0].timestamp == r.value[1].timestamp
      && r.value[0].id == r.value[1].id == IdOf(x)
      && (realtime ==> after.simStart.Some? && r.value[0].timestamp > after.simStart.value + (now - after.rtStart))
  {
    AttemptFacts(s, now, realtime);
    AttemptFacts(Started(events, now, s.simStart), now, realtime);
  }

  /** An error in the first attempt re-initialises the session at `now`
      (clock and cursors start over) and the answer, or the error, is that
      of the second attempt; without one, the clock is untouched. */
  lemma ServeRetriesOnce(s: Session, events: seq<Event>, x: Option<Query>, now: int, realtime: bool)
    ensures var a := Attempt(s, now, realtime);
      var b := Attempt(Started(events, now, s.simStart), now, realtime);
      var (r, after) := Serve(s, events, x, now, realtime);
      && (a.0.Success? ==> r == Success(Respond(x, a.0.value.0, a.0.value.1)) && after.rtStart == s.rtStart)
      && (a.0.Failure? ==>
            && after == b.1 && after.rtStart == now
            && (r.Failure? <==> b.0.Failure?)
            && (b.0.Failure? ==> r.error == b.0.error))
  {
    AttemptFacts(s, now, realtime);
  }

  /** Without pacing, book 2 never yields, so no query is ever answered. */
  lemma ServeNeedsRealtime(s: Session, events: seq<Event>, x: Option<Query>, now: int)
    ensures Serve(s, events, x, now, false).0.Failure?
  {
    AttemptFacts(Started(events, now, s.simStart), now, false);
  }

  /** One warm-up round on the cursors' remaining snapshots: ABC advances
      if it can, and only then DEF advances if it can. */
  function Round(p: (seq<Snapshot>, seq<Snapshot>)): (seq<Snapshot>, seq<Snapshot>)
  {
    if p.0 == [] then p
    else (p.0[1..], if p.1 == [] then [] else p.1[1..])
  }

  /** `n` warm-up rounds. */
  function WarmUp(p1: seq<Snapshot>, p2: seq<Snapshot>, n: nat): (seq<Snapshot>, seq<Snapshot>)
  {
    if n == 0 then (p1, p2) else Round(WarmUp(p1, p2, n - 1))
  }

  /** After `n` rounds ABC has advanced `min(n, |p1|)` times and DEF as many
      times as ABC did, as far as it could. */
  lemma {:induction false} WarmUpAdvances(p1: seq<Snapshot>, p2: seq<Snapshot>, n: nat)
    ensures var d := Min(n, |p1|);
      WarmUp(p1, p2, n) == (p1[d..], p2[Min(d, |p2|)..])
  {
    if n > 0 {
      WarmUpAdvances(p1, p2, n - 1);
      var d := Min(n - 1, |p1|);
      if d < |p1| {
        assert p1[d..][1..] == p1[d + 1..];
        if Min(d, |p2|) < |p2| {
          assert p2[Min(d, |p2|)..][1..] == p2[Min(d + 1, |p2|)..];
        }
      }
    }
  }


  class App {
    const events: seq<Event>
    /** `REALTIME`. */
    const realtime: bool
    /** `_data_1` (ABC) and `_data_2` (DEF), each with its own `_book_N`. */
    var feed1: Feed
    var feed2: Feed
    var simStart: Option<int>
    var rtStart: int

    ghost predicate Valid()
      reads this, feed1, feed2
    {
      feed1 != feed2 && feed1.Valid() && feed2.Valid()
      && feed1.data == events && feed1.stock == "ABC"
      && feed2.data == events && feed2.stock == "DEF"
    }

    ghost function State(): Session
      reads this, feed1, feed2
      requires Valid()
    {
      Session(feed1.Pending(), feed2.Pending(), simStart, rtStart)
    }

    /** `App()` at wall-clock time `now`. */
    constructor (events: seq<Event>, realtime: bool, now: int)
      ensures Valid() && this.events == events && this.realtime == realtime
      ensures State() == Started(events, now, None)
    {
      this.events := events;
      this.realtime := realtime;
      feed1 := new Feed(events, map[], "ABC");
      feed2 := new Feed(events, map[], "DEF");
      simStart := None;
      rtStart := now;
      new;
      Prime();
    }

    /** `self.__init__()` on a live object: fresh books and generators, a new
        wall-clock start; `_sim_start` survives only if ABC has no data. */
    method Reinit(now: int)
      modifies this
      ensures Valid() && fresh(feed1) && fresh(feed2)
      ensures State() == Started(events, now, old(simStart))
    {
      feed1 := new Feed(events, map[], "ABC");
      feed2 := new Feed(events, map[], "DEF");
      rtStart := now;
      ghost var pre := simStart;
      Prime();
      assert State() == Started(events, now, pre);
      assert Valid() && fresh(feed1) && fresh(feed2);
    }

    /** Lines 135-139: take `_sim_start` from the first ABC snapshot, then
        warm up. */
    method Prime()
      requires Valid()
      requires feed1.Pending() == AbcSnapshots(events) && feed2.Pending() == DefSnapshots(events)
      modifies this, feed1, feed2
      ensures Valid() && feed1 == old(feed1) && feed2 == old(feed2) && rtStart == old(rtStart)
      ensures State() == Started(events, rtStart, old(simStart))
    {
      var first := feed1.Next();
      if first.Some? {
        simStart := Some(first.value.t);
      }
      WarmUpAdvances(feed1.Pending(), feed2.Pending(), WarmUpRounds);
      ReadTenFirstLines();
    }

    /** One round of `read_10_first_lines` (lines 160-164): DEF is pulled
        only if pulling ABC succeeded. */
    method WarmUpRound()
      requires Valid()
      modifies feed1, feed2
      ensures Valid()
      ensures (feed1.Pending(), feed2.Pending()) == Round((old(feed1.Pending()), old(feed2.Pending())))
    {
      var a := feed1.Next();
      if a.Some? {
        ghost var left := feed1.Pending();
        var b := feed2.Next();
        assert feed1.Pending() == left;
      }
    }

    /** `read_10_first_lines` (lines 158-164): exactly ten rounds, with
        StopIteration swallowed without ending the loop. */
    method ReadTenFirstLines()
      requires Valid()
      modifies feed1, feed2
      ensures Valid()
      ensures (feed1.Pending(), feed2.Pending()) ==
        WarmUp(old(feed1.Pending()), old(feed2.Pending()), WarmUpRounds)
    {
      ghost var p1 := feed1.Pending();
      ghost var p2 := feed2.Pending();
      var i := 0;
      while i < WarmUpRounds
        invariant 0 <= i <= WarmUpRounds && Valid()
        invariant (feed1.Pending(), feed2.Pending()) == WarmUp(p1, p2, i)
      {
        WarmUpRound();
        i := i + 1;
      }
    }

    /** The `REALTIME` branch of a pull: a fresh generator over `feed`. */
    method PullPaced(feed: Feed, now: int) returns (r: Pull)
      requires Valid() && (feed == feed1 || feed == feed2)
      modifies feed
      ensures Valid()
      ensures (r, feed.Pending()) == Paced(old(feed.Pending()), simStart, now - rtStart)
    {
      ghost var start := feed.Pending();
      ghost var skipped := 0;
      while true
        invariant Valid()
        invariant skipped <= |start| && feed.Pending() == start[skipped..]
        invariant skipped > 0 ==> simStart.Some?
        invariant forall i :: 0 <= i < skipped ==> start[i].t <= simStart.value + (now - rtStart)
        decreases |feed.Pending()|
      {
        var s := feed.Next();
        if s.None? {
          if skipped > 0 {
            PaceUnique(start, simStart.value + (now - rtStart), skipped);
          }
          return Failed(Exhausted);
        }
        if simStart.None? {
          return Failed(MissingSimStart);
        }
        if s.value.t > simStart.value + (now - rtStart) {
          PaceUnique(start, simStart.value + (now - rtStart), skipped);
          return Got(s.value);
        }
        skipped := skipped + 1;
      }
    }

    /** `next(self._current_book_1)` (lines 143-149). */
    method CurrentBook1(now: int) returns (r: Pull)
      requires Valid()
      modifies feed1
      ensures Valid()
      ensures (r, feed1.Pending()) == PullSpec(old(feed1.Pending()), simStart, now - rtStart, realtime, AbcStream)
    {
      if realtime {
        r := PullPaced(feed1, now);
      } else {
        var s := feed1.Next();
        r := if s.None? then Failed(Exhausted) else Got(s.value);
      }
    }

    /** `next(self._current_book_2)` (lines 152-156); without `REALTIME` the
        loop yields nothing and drains the cursor. */
    method CurrentBook2(now: int) returns (r: Pull)
      requires Valid()
      modifies feed2
      ensures Valid()
      ensures (r, feed2.Pending()) == PullSpec(old(feed2.Pending()), simStart, now - rtStart, realtime, DefStream)
    {
      if realtime {
        r := PullPaced(feed2, now);
      } else {
        while true
          invariant Valid()
          decreases |feed2.Pending()|
        {
          var s := feed2.Next();
          if s.None? {
            return Failed(Exhausted);
          }
        }
      }
    }

    /** One `try` block of `handle_query`. */
    method TryPulls(now: int) returns (a: Result<(Snapshot, Snapshot), PullError>)
      requires Valid()
      modifies feed1, feed2
      ensures Valid()
      ensures (a, State()) == Attempt(old(State()), now, realtime)
    {
      ghost var s0 := State();
      ghost var elapsed := now - rtStart;
      var p1 := CurrentBook1(now);
      ghost var q1 := PullSpec(s0.pending1, s0.simStart, elapsed, realtime, AbcStream);
      assert p1 == q1.0 && feed1.Pending() == q1.1;
      if p1.Failed? {
        assert State() == s0.(pending1 := q1.1);
        return Failure(p1.error);
      }
      var p2 := CurrentBook2(now);
      ghost var q2 := PullSpec(s0.pending2, s0.simStart, elapsed, realtime, DefStream);
      assert p2 == q2.0 && feed2.Pending() == q2.1;
      assert State() == s0.(pending1 := q1.1, pending2 := q2.1);
      if p2.Failed? {
        return Failure(p2.error);
      }
      a := Success((p1.snap, p2.snap));
    }

    /** The `except` branch of `handle_query` (lines 171-175): a full
        re-initialisation, then the same two pulls again. */
    method Recover(now: int) returns (a: Result<(Snapshot, Snapshot), PullError>)
      modifies this
      ensures Valid() && fresh(feed1) && fresh(feed2)
      ensures (a, State()) == Attempt(Started(events, now, old(simStart)), now, realtime)
    {
      ghost var prev := simStart;
      Reinit(now);
      ghost var s := State();
      assert s == Started(events, now, prev);
      a := TryPulls(now);
    }

    /** `handle_query(x)` at wall-clock time `now`. */
    method HandleQuery(x: Option<Query>, now: int) returns (r: Result<seq<Quote>, PullError>)
      requires Valid()
      modifies this, feed1, feed2
      ensures Valid()
      ensures (r, State()) == Serve(old(State()), events, x, now, realtime)
    {
      ghost var s0 := State();
      var a := TryPulls(now);
      if a.Failure? {
        assert simStart == s0.simStart;
        a := Recover(now);
        if a.Failure? {
          return Failure(a.error);
        }
      }
      r := Success(Respond(x, a.value.0, a.value.1));
    }
  }
}
