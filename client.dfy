/** The polling client (client.py:11-42) without its HTTP fetch: it turns
    each quote of an answer into a data point, keeps the latest midpoint per
    stock in a dictionary `prices`, and once both ABC and DEF are known
    computes their ratio. */
module Client {
  import opened Wrappers
  import opened Replay

  /** `(stock, bid_price, ask_price, price)`. */
  datatype DataPoint = DataPoint(stock: string, bid: real, ask: real, price: real)

  /** `quote['top_bid']['price']` on the empty list `[]` that the server
      sends for an empty side raises TypeError. */
  datatype ClientError = EmptySide(stock: string)

  /** The ratio step after one answer: not computed until both stocks have a
      price, else `getRatio`'s result. */
  datatype RatioStep = NotComputed | Computed(ratio: Option<real>)

  predicate HasBothSides(q: Quote)
  {
    q.topBid.Best? && q.topAsk.Best?
  }

  /** `getDataPoint(quote)` (lines 11-17): the quote's stock, its top bid and
      ask prices, and their midpoint, which lies between them. */
  function GetDataPoint(q: Quote): (r: Result<DataPoint, ClientError>)
    ensures r.Failure? <==> !HasBothSides(q)
    ensures r.Success? ==>
      && r.value.stock == q.stock
      && r.value.bid == q.topBid.price && r.value.ask == q.topAsk.price
      && r.value.price - r.value.bid == r.value.ask - r.value.price
      && (r.value.bid <= r.value.price <= r.value.ask || r.value.ask <= r.value.price <= r.value.bid)
  {
    if q.topBid.EmptyList? || q.topAsk.EmptyList? then Failure(EmptySide(q.stock))
    else
      var bid := q.topBid.price;
      var ask := q.topAsk.price;
      Success(DataPoint(q.stock, bid, ask, (bid + ask) / 2.0))
  }

  /** `getRatio(price_a, price_b)` (lines 19-23): `None` exactly when
      `price_b` is zero, otherwise the number that times `price_b` gives
      `price_a`. */
  function GetRatio(a: real, b: real): (r: Option<real>)
    ensures r.None? <==> b == 0.0
    ensures r.Some? ==> r.value * b == a
  {
    if b == 0.0 then None else Some(a / b)
  }

  /** The last quote for `stock` in `quotes`, if any. */
  function LastQuote(quotes: seq<Quote>, stock: string): Option<Quote>
  {
    if quotes == [] then None
    else if quotes[|quotes| - 1].stock == stock then Some(quotes[|quotes| - 1])
    else LastQuote(quotes[..|quotes| - 1], stock)
  }

  /** `LastQuote` finds the quote for `stock` that no later quote for
      `stock` follows, and finds none exactly when no quote names `stock`. */
  lemma {:induction false} LastQuoteIsLast(quotes: seq<Quote>, stock: string)
    ensures LastQuote(quotes, stock).None? <==> forall i :: 0 <= i < |quotes| ==> quotes[i].stock != stock
    ensures LastQuote(quotes, stock).Some? ==>
      exists i :: 0 <= i < |quotes| && quotes[i] == LastQuote(quotes, stock).value
        && quotes[i].stock == stock
        && forall j :: i < j < |quotes| ==> quotes[j].stock != stock
  {
    if quotes != [] {
      var n := |quotes| - 1;
      var init := quotes[..n];
      if quotes[n].stock != stock {
        LastQuoteIsLast(init, stock);
        assert forall i :: 0 <= i < n ==> quotes[i] == init[i];
        if LastQuote(quotes, stock).Some? {
          var i :| 0 <= i < n && init[i] == LastQuote(init, stock).value
                   && init[i].stock == stock
                   && forall j :: i < j < n ==> init[j].stock != stock;
          assert quotes[i] == init[i];
        }
      } else {
        assert quotes[n] == LastQuote(quotes, stock).value;
      }
    }
  }

  /** One pass of the main loop (lines 34-41): each quote overwrites
      `prices[stock]` with its midpoint, so a stock ends with the midpoint of
      its LAST quote and stocks without a quote keep their price; then the
      ratio is computed only if both ABC and DEF have a price. A quote with
      an empty side stops the client at the first such quote. */
  method OnResponse(prices: map<string, real>, quotes: seq<Quote>)
    returns (r: Result<(map<string, real>, RatioStep), ClientError>)
    ensures r.Failure? <==> exists i :: 0 <= i < |quotes| && !HasBothSides(quotes[i])
    ensures r.Failure? ==>
      exists i :: 0 <= i < |quotes| && !HasBothSides(quotes[i])
        && (forall j :: 0 <= j < i ==> HasBothSides(quotes[j]))
        && r.error == EmptySide(quotes[i].stock)
    ensures r.Success? ==>
      forall k :: k in r.value.0 <==> k in prices || LastQuote(quotes, k).Some?
    ensures r.Success? ==>
      forall k :: k in r.value.0 ==>
        match LastQuote(quotes, k)
        case Some(q) => GetDataPoint(q).Success? && r.value.0[k] == GetDataPoint(q).value.price
        case None => r.value.0[k] == prices[k]
    ensures r.Success? ==>
      r.value.1 == if "ABC" in r.value.0 && "DEF" in r.value.0
                   then Computed(GetRatio(r.value.0["ABC"], r.value.0["DEF"]))
                   else NotComputed
  {
    var m := prices;
    var i := 0;
    while i < |quotes|
      invariant 0 <= i <= |quotes|
      invariant forall j :: 0 <= j < i ==> HasBothSides(quotes[j])
      invariant forall k :: k in m <==> k in prices || LastQuote(quotes[..i], k).Some?
      invariant forall k :: k in m ==>
        match LastQuote(quotes[..i], k)
        case Some(q) => GetDataPoint(q).Success? && m[k] == GetDataPoint(q).value.price
        case None => m[k] == prices[k]
    {
      var point := GetDataPoint(quotes[i]);
      if point.Failure? {
        return Failure(point.error);
      }
      m := m[point.value.stock := point.value.price];
      assert quotes[..i + 1][..i] == quotes[..i];
      i := i + 1;
    }
    assert quotes[..i] == quotes;
    var ratio := if "ABC" in m && "DEF" in m then Computed(GetRatio(m["ABC"], m["DEF"])) else NotComputed;
    r := Success((m, ratio));
  }
}
