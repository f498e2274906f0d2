# Order-book replay server and ratio client — a Dafny model

This project models the core of a small stock-market simulator. A server
replays a log of orders for two stocks, ABC and DEF, and serves the current
top of book. A client polls the server and derives prices and their ratio.
The model covers:

- **`order_book`** (`order_book.dfy`). The generator walks the event log
  and appends each order of one stock to a dictionary of timestamp →
  `{bids, asks}`. For each such order it yields that timestamp's ladder,
  with bids sorted highest first and asks lowest first. The sort is
  Python's stable `sorted`, modelled in `ladders.dfy`. `Snapshots` and
  `BookAfter` describe the whole stream. The class `Feed` is the live
  generator, pulled one snapshot at a time.
- **`read_params`** (`params.dfy`). It splits a request path on `?`, `&`
  and `=` and builds a dictionary. Python's `str.split` is modelled with its
  round trip through `join`.
- **`App`** (`replay.dfy`). This class holds two generators over the same
  log, the simulated start time and the wall-clock start time. The pure
  functions `Started`, `Paced`, `PullSpec`, `Attempt`, `Respond` and `Serve`
  describe construction and warm-up, paced pulls, and the query handler with
  its single re-initialise-and-retry. The class `App` implements them with
  methods that update its fields and its `Feed`s. Each method is proved
  equal to its function on the abstract `Session` state.
- **The client** (`client.dfy`). This covers `getDataPoint`, `getRatio` and
  one pass of the polling loop over a server answer.

The model follows the code wherever the description of the system says
otherwise:

- **Pacing.** `_current_book_N` is a property. Each pull therefore builds a
  new generator over the shared cursor. Its `while t > sim_start + elapsed:
  yield` returns the first snapshot that is still in the future and throws
  away every snapshot already due. It does not wait for the next one to
  become due.
- **Non-realtime mode.** With pacing off, `_current_book_2` has no `else`
  branch. It drains its cursor and yields nothing. As a result, no query is
  ever answered in that mode (`Replay.ServeNeedsRealtime`).
- **`_sim_start`.** It is the timestamp of the first ABC snapshot, taken
  before the warm-up.
- **Warm-up.** The warm-up always runs ten rounds. A round advances DEF only
  if ABC advanced, and a StopIteration does not end the loop. If the log has
  no ABC order, `_sim_start` is not assigned, and a re-initialisation keeps
  the previous value.
- **Snapshots.** Each snapshot holds the orders stored at its own timestamp
  only. It is not a cumulative book.

Representation choices:

- Prices are `real`.
- Timestamps and sizes are `int`.
- The wall clock is a parameter `now` of each operation.
- `REALTIME` is a constructor parameter, so both modes are modelled.
- Exceptions are `Failure` values:
  - StopIteration is `Exhausted`;
  - reading `_sim_start` before it was ever set is `MissingSimStart`;
  - a query item that `dict` rejects is `BadItem`;
  - a client quote with an empty side is `EmptySide`.

## Model

| member | source | states |
|---|---|---|
| Ladders.InsertPermutes | server.py:73 | inserting one order into a ladder gives a permutation of the order plus the ladder |
| Ladders.InsertMember | server.py:73 | every element after an insertion is either the inserted order or was already in the ladder |
| Ladders.InsertSorted | server.py:73 | inserting into a ladder that is sorted by the key keeps it sorted |
| Ladders.AtPriceCons | server.py:73 | the orders at one price in a ladder with a new head are that head (if it has that price) followed by those of the tail |
| Ladders.InsertAtPrice | server.py:73 | after an insertion, the orders at any one price are those of the new order followed by the ladder, in that order |
| Ladders.SortIsSorted | server.py:73 | `sorted(..., key=-price)` orders bids highest first; `key=price` orders asks lowest first |
| Ladders.SortPermutes | server.py:73 | the sorted side holds exactly the stored orders (same multiset) |
| Ladders.SortIsStable | server.py:73 | the sort is stable: orders at one price stay in arrival order |
| Ladders.HeadIsBest | server.py:73 | a non-empty side sorts to a non-empty ladder whose head ranks at least as well as every stored order |
| OrderBook.RecordAppends | server.py:65-72 | a buy is appended to the bids at its timestamp and anything else to the asks; a new timestamp gets two empty lists first; all other entries are unchanged |
| OrderBook.SnapshotTopIsBest | server.py:73 | a yielded side is empty exactly when the stored side is; otherwise its first order is a stored order with the highest bid price or the lowest ask price |
| OrderBook.PlacedCons | server.py:63-72 | the orders a log places at a timestamp split over a concatenation of logs |
| OrderBook.StoredAfterRecord | server.py:64-72 | recording one event of the stock appends exactly its placed orders to the entry at each timestamp |
| OrderBook.Unfold | server.py:63-73 | an event of another stock yields nothing; an event of the stock yields the ladder at its timestamp after recording it |
| OrderBook.SnapshotPerEvent | server.py:63-73 | the generator yields one snapshot per event of the stock, in log order, each stamped with that event's timestamp |
| OrderBook.OtherStocksIgnored | server.py:63-64 | events of other stocks change neither the snapshots nor the final book |
| OrderBook.BookAfterStored | server.py:62-72 | after the stream, each side of every entry is what the caller's book held followed by the orders placed at that timestamp, in arrival order |
| OrderBook.BookAfterKeys | server.py:66-71 | the final book has the caller's timestamps plus every timestamp of an event of the stock, and no other |
| OrderBook.PlacedOutside | server.py:63-72 | no order is placed at a timestamp that no event of the stock carries |
| OrderBook.BookAfterKeepsOthers | server.py:62-72 | entries at timestamps the stock's events do not carry are left as they were |
| OrderBook.LadderAtRecord | server.py:64-73 | the ladder after recording one event equals the ladder of the book before, with that event put in front of the later ones |
| OrderBook.SnapshotIsLadderAt | server.py:62-73 | the k-th snapshot is the entry at its own timestamp after the first k+1 events of the stock, each side sorted |
| OrderBook.FirstLadder | server.py:64-73 | the snapshot of the first event of the stock is the ladder of the caller's entry at its timestamp with that one event added |
| OrderBook.LaterLadder | server.py:64-73 | a later ladder seen from the book after the first event equals the ladder seen from the book before it with that event prepended |
| OrderBook.SnapshotOrdered | server.py:62-73 | every snapshot has bids highest first and asks lowest first, holds exactly the stored orders, and keeps orders at one price in arrival order |
| OrderBook.Feed.constructor | server.py:62 | a new generator has the whole log still to yield over the caller's book |
| OrderBook.Feed.Next | server.py:63-73 | `next()` yields the first pending snapshot and removes it, or raises StopIteration when none is left; it skips only other stocks' events and records exactly the event it yields |
| Params.Split | server.py:89 | `str.split` gives at least one part, no part contains the separator, joining the parts gives the input, and there is more than one part exactly when the separator occurs |
| Params.SplitNoSeparator | server.py:89 | a string without the separator splits into itself |
| Params.SplitFirst | server.py:89-91 | splitting at the first separator peels off the text before it |
| Params.SplitJoin | server.py:89-92 | split inverts join when no part contains the separator |
| Params.ToDictFails | server.py:92 | `dict` of the split items fails exactly when some item does not have exactly one `=`, and it reports the first such item |
| Params.ToDictLaterWins | server.py:92 | a successful `dict` has every key some item names, plus the starting keys, and no other; each named key takes the value of its last item |
| Params.ReadParamsNone | server.py:88-90 | `read_params` returns `None` exactly when the path has no `?` |
| Params.ReadParamsUnfold | server.py:89-92 | with a `?`, the result is the dictionary, or the error, built from the items of the text after the first `?` |
| Params.ReadParamsFails | server.py:90-92 | with a `?`, `read_params` fails exactly when some query item is not a `key=value` pair |
| Params.ReadParamsNonEmpty | server.py:90-92 | a dictionary returned by `read_params` is never empty |
| Params.QuerySegment | server.py:89-91 | text after a second `?` is ignored |
| Replay.StartedState | server.py:130-139 | after (re)initialisation: the clock is `now`; the sim start comes from the first ABC snapshot, or stays as before when ABC has none; ABC has moved on by the first snapshot plus up to ten more; DEF has moved on once per ABC snapshot after the first, up to ten |
| Replay.PaceStops | server.py:146 | the pacing loop stops at the first snapshot whose timestamp is past the limit: every snapshot before the stop is at or before the limit, and the one at the stop is past it |
| Replay.PaceUnique | server.py:146 | conversely, any index with those two properties is where the pacing loop stops |
| Replay.PacedSkipsDue | server.py:144-147 | a paced pull returns the first pending snapshot that is later than sim start + elapsed and drops the due ones before it; when all are due it raises StopIteration with the cursor drained; before the sim start is set it fails after taking one snapshot |
| Replay.AttemptFacts | server.py:169-170 | the two pulls keep both start times; without pacing they always fail; with pacing both returned snapshots are later than sim start + elapsed |
| Replay.IdOfRequest | server.py:179 | for a path that `read_params` (lines 88-92) accepts, the echoed id is `None` without a query string, otherwise the value of the last `id=` item of the query, or `None` when no item names `id`; the empty-dictionary id never occurs |
| Replay.Respond | server.py:176-203 | the answer is ABC then DEF, both stamped with the later of the two snapshot timestamps and the same id; each top of book is the first order of its sorted side, or the empty list when that side is empty |
| Replay.ServeAnswer | server.py:168-203 | a successful query answers ABC then DEF with one timestamp and one id; with pacing that timestamp is later than the session's sim start + elapsed |
| Replay.ServeRetriesOnce | server.py:168-175 | when the first pair of pulls succeeds the answer is built from it and the clock is kept; when it fails the app is re-initialised at `now` and the outcome, answer or error, is that of exactly one more attempt |
| Replay.ServeNeedsRealtime | server.py:151-156 | with pacing off, every query ends in an error, because book 2 never yields |
| Replay.App.constructor | server.py:128-140 | a new app is in the state `Started` describes, with no earlier sim start |
| Replay.App.Reinit | server.py:173 | calling `__init__` again gives new generators over new books, restarts the clock and keeps the sim start only when ABC has no data |
| Replay.App.Prime | server.py:134-139 | the sim start is taken from the first ABC snapshot, then the warm-up runs |
| Replay.App.WarmUpRound | server.py:160-164 | one warm-up round leaves the cursors as `Round` does: ABC advances by one snapshot when it has one, and only then DEF advances by one if it has one left; with ABC exhausted nothing moves |
| Replay.App.ReadTenFirstLines | server.py:158-164 | exactly ten rounds, StopIteration never ending the loop: the cursors end as `WarmUp` gives after ten rounds |
| Replay.WarmUpAdvances | server.py:158-164 | after n rounds ABC has advanced min(n, left) times, and DEF once for each of those rounds, as far as it could |
| Replay.App.PullPaced | server.py:144-147 | the pacing loop leaves its result and cursor exactly as `Paced` describes |
| Replay.App.CurrentBook1 | server.py:143-149 | `next(_current_book_1)` returns what `PullSpec` describes: paced, or the next ABC snapshot |
| Replay.App.CurrentBook2 | server.py:152-156 | `next(_current_book_2)` returns what `PullSpec` describes: paced, or, with pacing off, StopIteration after draining the cursor |
| Replay.App.TryPulls | server.py:169-170 | the `try` block's two pulls leave result and state exactly as `Attempt` describes |
| Replay.App.Recover | server.py:171-175 | the `except` branch re-initialises and then behaves as `Attempt` on the restarted session |
| Replay.App.HandleQuery | server.py:167-203 | `handle_query` leaves answer and state exactly as `Serve` describes |
| Client.GetDataPoint | client.py:11-17 | the data point carries the quote's stock and its top bid and ask; its price is their midpoint, which lies between them; a quote with an empty side fails |
| Client.GetRatio | client.py:19-23 | returns `None` exactly when `price_b` is zero; otherwise returns the ratio, which times `price_b` gives `price_a` |
| Client.LastQuoteIsLast | client.py:34-36 | the quote whose midpoint a stock keeps is a quote for that stock with no later quote for it; there is none exactly when no quote names the stock |
| Client.OnResponse | client.py:34-42 | one answer fails at its first quote with an empty side; otherwise each quoted stock's price is the midpoint of its last quote, other prices are unchanged, and the ratio is computed exactly when both ABC and DEF have a price |

## Left out

- `bwalk`, `market` and `orders` (server.py:24-41) generate random order
  logs. The model takes the event log as an arbitrary sequence instead.
- `generate_csv` and `read_csv` (server.py:43-60) do file I/O and date
  parsing. Each (re)initialisation replays the same fixed event sequence.
- The HTTP server, `route`, `get` and `run` (server.py:75-125) are not
  modelled. JSON encoding and `str(t)` formatting of the timestamp are not
  modelled either. `read_params` and `handle_query` are modelled directly.
- Threads and concurrent requests are not modelled. Each query runs alone.
- The wall clock `datetime.now()` is a parameter, read once per operation.
  The source reads it again on every iteration of the pacing loop, so the
  model assumes the clock does not move during one query.
- Prices are exact reals. Floating-point rounding of the midpoint and the
  ratio is not modelled.
- Timestamps are integers. The source's `datetime` and `timedelta`
  arithmetic is taken as integer addition.
- The client's `urlopen`, `random` query id, `json.loads`, `print` and its
  500-iteration outer loop (client.py:30-32) are not modelled. One answer
  is one call of `OnResponse`.
- Quote fields other than the top prices are not checked by the client
  model: `float()` of a price is the identity on reals.
- The server's `print` logging (server.py:129, 138, 140, 164, 172, 177) is
  not modelled. It does not affect any state or answer.
- Other exception types raised inside a pull are not modelled. Only
  StopIteration and the missing `_sim_start` can occur in the model.
