/** Order chunking of paper_liquidate_positions.py. Tickers are already padded. */
module SellPlan {
  import opened Common

  type Ticker = string

  /** Quantity and price fields in the order they are tried; unreadable ones count as zero. */
  datatype Position = Position(ticker: Ticker, quantities: seq<int>, prices: seq<real>)

  datatype Order = Order(ticker: Ticker, unit: nat, qty: int, price: real)

  predicate ValidTicker(t: Ticker) {
    |t| == 6 && forall i :: 0 <= i < 6 ==> '0' <= t[i] <= '9'
  }

  /** The first positive quantity, or zero. */
  function PositionQty(quantities: seq<int>): (q: nat)
    ensures q == 0 ==> forall i :: 0 <= i < |quantities| ==> quantities[i] <= 0
    ensures q > 0 ==>
      exists i :: 0 <= i < |quantities| && quantities[i] == q && forall k :: 0 <= k < i ==> quantities[k] <= 0
  {
    if |quantities| == 0 then 0
    else if quantities[0] > 0 then quantities[0]
    else
      var rest := quantities[1..];
      assert forall i :: 0 < i < |quantities| ==> quantities[i] == rest[i - 1];
      var q := PositionQty(rest);
      assert q > 0 ==>
        var i :| 0 <= i < |rest| && rest[i] == q && forall k :: 0 <= k < i ==> rest[k] <= 0;
        quantities[i + 1] == q && forall k :: 0 <= k < i + 1 ==> quantities[k] <= 0;
      q
  }

  function PositionPrice(prices: seq<real>): (p: real)
    ensures p == 0.0 ==> forall i :: 0 <= i < |prices| ==> prices[i] <= 0.0
    ensures p >= 0.0
    ensures p > 0.0 ==> exists i :: 0 <= i < |prices| && prices[i] == p && forall k :: 0 <= k < i ==> prices[k] <= 0.0
  {
    if |prices| == 0 then 0.0
    else if prices[0] > 0.0 then prices[0]
    else
      var rest := prices[1..];
      assert forall i :: 0 < i < |prices| ==> prices[i] == rest[i - 1];
      var p := PositionPrice(rest);
      assert p > 0.0 ==>
        var i :| 0 <= i < |rest| && rest[i] == p && forall k :: 0 <= k < i ==> rest[k] <= 0.0;
        prices[i + 1] == p && forall k :: 0 <= k < i + 1 ==> prices[k] <= 0.0;
      p
  }

  predicate Sellable(p: Position) {
    ValidTicker(p.ticker) && p.ticker != NO_TICKER && PositionQty(p.quantities) > 0 && PositionPrice(p.prices) > 0.0
  }

  /** Sold are positions with six ticker digits, not all zero, and some positive quantity and price. */
  lemma SellableIff(p: Position)
    ensures Sellable(p) <==>
      && |p.ticker| == 6 && (forall c :: c in p.ticker ==> c in "0123456789") && p.ticker != "000000"
      && (exists i :: 0 <= i < |p.quantities| && p.quantities[i] > 0)
      && (exists i :: 0 <= i < |p.prices| && p.prices[i] > 0.0)
  {
    assert forall c: char :: c in "0123456789" <==> '0' <= c <= '9';
    if ValidTicker(p.ticker) {
      forall c | c in p.ticker ensures '0' <= c <= '9' {
        var i :| 0 <= i < |p.ticker| && p.ticker[i] == c;
      }
    } else if |p.ticker| == 6 {
      var i :| 0 <= i < 6 && !('0' <= p.ticker[i] <= '9');
      assert p.ticker[i] in p.ticker;
    }
  }

  function QtySum(orders: seq<Order>): int {
    if |orders| == 0 then 0 else QtySum(orders[..|orders| - 1]) + orders[|orders| - 1].qty
  }

  predicate OrderOf(o: Order, unit: nat, p: Position, chunk: nat) {
    o.ticker == p.ticker && o.unit == unit && o.price == PositionPrice(p.prices) && 1 <= o.qty <= chunk
  }

  /** The orders of one position sell it exactly, in numbered chunks, all full but the last. */
  ghost predicate Chunks(orders: seq<Order>, p: Position, chunk: nat) {
    && QtySum(orders) == PositionQty(p.quantities)
    && (forall i :: 0 <= i < |orders| ==> OrderOf(orders[i], i + 1, p, chunk))
    && (forall i :: 0 <= i < |orders| - 1 ==> orders[i].qty == chunk)
  }

  /** The orders placed so far, with some quantity still to sell. */
  ghost predicate Sold(orders: seq<Order>, p: Position, chunk: nat, remaining: int) {
    && QtySum(orders) + remaining == PositionQty(p.quantities)
    && (forall i :: 0 <= i < |orders| ==> OrderOf(orders[i], i + 1, p, chunk))
    && (forall i :: 0 <= i < |orders| - (if remaining > 0 then 0 else 1) ==> orders[i].qty == chunk)
  }

  lemma QtySumAppend(orders: seq<Order>, o: Order)
    ensures QtySum(orders + [o]) == QtySum(orders) + o.qty
  {
    assert (orders + [o])[..|orders|] == orders;
  }

  lemma SoldStep(orders: seq<Order>, p: Position, chunk: nat, remaining: int)
    requires chunk >= 1 && remaining > 0 && Sold(orders, p, chunk, remaining)
    ensures var qty := Min(chunk, remaining);
      Sold(orders + [Order(p.ticker, |orders| + 1, qty, PositionPrice(p.prices))], p, chunk, remaining - qty)
  {
    hide PositionPrice, PositionQty;
    var order := Order(p.ticker, |orders| + 1, Min(chunk, remaining), PositionPrice(p.prices));
    assert OrderOf(order, |orders| + 1, p, chunk);
    QtySumAppend(orders, order);
    hide OrderOf, QtySum;
  }

  method SellPosition(p: Position, chunk: nat) returns (orders: seq<Order>)
    requires chunk >= 1
    ensures if Sellable(p) then Chunks(orders, p, chunk) else orders == []
  {
    orders := [];
    var qty, price := PositionQty(p.quantities), PositionPrice(p.prices);
    if !ValidTicker(p.ticker) || p.ticker == NO_TICKER || qty <= 0 || price <= 0.0 { return; }
    var remaining, unit := qty, 1;
    while remaining > 0
      invariant remaining >= 0 && unit == |orders| + 1
      invariant Sold(orders, p, chunk, remaining)
      decreases remaining
    {
      var orderQty := Min(chunk, remaining);
      SoldStep(orders, p, chunk, remaining);
      hide Sold, PositionPrice, PositionQty;
      orders := orders + [Order(p.ticker, unit, orderQty, price)];
      remaining, unit := remaining - orderQty, unit + 1;
    }
  }

  /** Orders of each position in turn; a chunk size below one is one. */
  method Plan(positions: seq<Position>, chunkQty: int) returns (perPosition: seq<seq<Order>>, plan: seq<Order>)
    ensures |perPosition| == |positions| && plan == Flatten(perPosition)
    ensures forall i :: 0 <= i < |positions| ==>
      if Sellable(positions[i]) then Chunks(perPosition[i], positions[i], Max(1, chunkQty)) else perPosition[i] == []
  {
    var chunk := Max(1, chunkQty);
    perPosition, plan := [], [];
    for i := 0 to |positions|
      invariant |perPosition| == i && plan == Flatten(perPosition)
      invariant forall k :: 0 <= k < i ==>
        if Sellable(positions[k]) then Chunks(perPosition[k], positions[k], chunk) else perPosition[k] == []
    {
      hide Flatten, Chunks, Sellable;
      var orders := SellPosition(positions[i], chunk);
      FlattenAppend(perPosition, orders);
      perPosition, plan := perPosition + [orders], plan + orders;
    }
  }

  /** Exact selling fixes how many orders there are: the quantity over the chunk, rounded up. */
  lemma {:induction false} ChunkCount(orders: seq<Order>, p: Position, chunk: nat)
    requires chunk >= 1 && Chunks(orders, p, chunk) && |orders| > 0
    ensures (|orders| - 1) * chunk < PositionQty(p.quantities) <= |orders| * chunk
  {
    FullChunks(orders, chunk, |orders| - 1);
    assert orders[..|orders|] == orders;
    assert |orders| * chunk == (|orders| - 1) * chunk + chunk;
  }

  lemma {:induction false} FullChunks(orders: seq<Order>, chunk: nat, n: nat)
    requires n <= |orders| && forall i :: 0 <= i < n ==> orders[i].qty == chunk
    ensures QtySum(orders[..n]) == n * chunk
  {
    if n > 0 {
      FullChunks(orders, chunk, n - 1);
      assert orders[..n][..n - 1] == orders[..n - 1];
      assert n * chunk == (n - 1) * chunk + chunk;
    }
  }

  /** Nothing is sold twice or left over: planned quantities add up to the sellable holdings. */
  lemma {:induction false} PlanConservesQuantity(positions: seq<Position>, perPosition: seq<seq<Order>>, chunk: nat)
    requires |perPosition| == |positions|
    requires forall i :: 0 <= i < |positions| ==>
      if Sellable(positions[i]) then Chunks(perPosition[i], positions[i], chunk) else perPosition[i] == []
    ensures QtySum(Flatten(perPosition)) == SellableTotal(positions)
  {
    if |positions| > 0 {
      var n := |positions| - 1;
      PlanConservesQuantity(positions[..n], perPosition[..n], chunk);
      QtySumConcat(Flatten(perPosition[..n]), perPosition[n]);
    }
  }

  function SellableTotal(positions: seq<Position>): int {
    if |positions| == 0 then 0
    else
      var last := positions[|positions| - 1];
      SellableTotal(positions[..|positions| - 1]) + (if Sellable(last) then PositionQty(last.quantities) else 0)
  }

  /** Quantities simply add up. */
  lemma {:induction false} QtySumConcat(a: seq<Order>, b: seq<Order>)
    ensures QtySum([]) == 0 && forall o :: QtySum([o]) == o.qty
    ensures QtySum(a + b) == QtySum(a) + QtySum(b)
    decreases |b|
  {
    forall o: Order ensures QtySum([o]) == o.qty { assert [o][..0] == []; }
    if |b| == 0 {
      assert a + b == a;
    } else {
      QtySumConcat(a, b[..|b| - 1]);
      assert (a + b)[..|a + b| - 1] == a + b[..|b| - 1];
    }
  }
}
