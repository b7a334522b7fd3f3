/**
 * The multi-level order book (data/order_book.py): building it from raw depth rows, the
 * greedy fill, and what the fill price means.
 */
module OrderBooks {
  import opened Common
  import opened Sorting

  /** The side of our own order: a buy consumes the asks, a sell consumes the bids. */
  datatype Side = Buy | Sell

  datatype BookLevel = BookLevel(price: real, quantity: int, orders: int) {
    predicate IsReal() { price > 0.0 && quantity > 0 }
  }

  /** One raw depth row; a cell that is not a number is None. */
  datatype DepthLevel = DepthLevel(
    bidPrice: Option<real>, bidQuantity: Option<real>, bidOrders: Option<real>,
    askPrice: Option<real>, askQuantity: Option<real>, askOrders: Option<real>)

  datatype OrderBook = OrderBook(symbol: string, bids: seq<BookLevel>, asks: seq<BookLevel>) {
    function Levels(side: Side): seq<BookLevel> { if side.Buy? then asks else bids }

    function BestBid(): Option<real> { if bids == [] then None else Some(bids[0].price) }

    function BestAsk(): Option<real> { if asks == [] then None else Some(asks[0].price) }

    /** What every book built from depth rows satisfies: real levels only, best price first. */
    ghost predicate WellFormed() { Ordered(Buy, asks) && Ordered(Sell, bids) }
  }

  /** How much an amount hurts on this side: money paid, or money not received. */
  function Toll(side: Side, amount: real): real { if side.Buy? then amount else -amount }

  ghost predicate Ordered(side: Side, levels: seq<BookLevel>) {
    && (forall i :: 0 <= i < |levels| ==> levels[i].IsReal())
    && (forall i, j :: 0 <= i < j < |levels| ==> Toll(side, levels[i].price) <= Toll(side, levels[j].price))
  }

  // ---- Construction -------------------------------------------------------------------

  function Number(cell: Option<real>): real { if cell.Some? then cell.value else 0.0 }

  /** Python's `int` on a number: truncation toward zero. */
  function Trunc(x: real): int { if x >= 0.0 then x.Floor else -((-x).Floor) }

  function BidOf(row: DepthLevel): BookLevel {
    BookLevel(Number(row.bidPrice), Trunc(Number(row.bidQuantity)), Trunc(Number(row.bidOrders)))
  }

  function AskOf(row: DepthLevel): BookLevel {
    BookLevel(Number(row.askPrice), Trunc(Number(row.askQuantity)), Trunc(Number(row.askOrders)))
  }

  function AskKey(level: BookLevel): real { level.price }

  function BidKey(level: BookLevel): real { -level.price }

  function RealBids(rows: seq<DepthLevel>): (r: seq<BookLevel>)
    ensures forall l :: l in r ==> l.IsReal()
  {
    if rows == [] then []
    else
      var bid := BidOf(rows[|rows| - 1]);
      RealBids(rows[..|rows| - 1]) + if bid.IsReal() then [bid] else []
  }

  function RealAsks(rows: seq<DepthLevel>): (r: seq<BookLevel>)
    ensures forall l :: l in r ==> l.IsReal()
  {
    if rows == [] then []
    else
      var ask := AskOf(rows[|rows| - 1]);
      RealAsks(rows[..|rows| - 1]) + if ask.IsReal() then [ask] else []
  }

  lemma SortedLevelsAreOrdered(side: Side, levels: seq<BookLevel>, key: BookLevel -> real)
    requires forall l :: l in levels ==> l.IsReal()
    requires forall l :: key(l) == Toll(side, l.price)
    ensures Ordered(side, SortBy(levels, key))
  {
    var sorted := SortBy(levels, key);
    SameMembers(sorted, levels);
    forall i | 0 <= i < |sorted| ensures sorted[i].IsReal() {
      assert sorted[i] in sorted;
    }
  }

  /** Collects the real levels of both sides and sorts each best price first. */
  method FromDepth(symbol: string, rows: seq<DepthLevel>) returns (book: OrderBook)
    ensures book.symbol == symbol && book.WellFormed()
    ensures multiset(book.bids) == multiset(RealBids(rows))
    ensures multiset(book.asks) == multiset(RealAsks(rows))
    ensures HoldsRows(book, rows)
  {
    var bids: seq<BookLevel>, asks: seq<BookLevel> := [], [];
    for i := 0 to |rows|
      invariant bids == RealBids(rows[..i]) && asks == RealAsks(rows[..i])
    {
      var bid, ask := BidOf(rows[i]), AskOf(rows[i]);
      assert rows[..i + 1][..i] == rows[..i];
      if bid.IsReal() { bids := bids + [bid]; }
      if ask.IsReal() { asks := asks + [ask]; }
    }
    assert rows[..|rows|] == rows;
    SortedLevelsAreOrdered(Sell, bids, BidKey);
    SortedLevelsAreOrdered(Buy, asks, AskKey);
    book := OrderBook(symbol, SortBy(bids, BidKey), SortBy(asks, AskKey));
    BookHoldsRows(book, rows);
  }

  /** `n` is `x` without its fraction, toward zero. */
  predicate WholePart(x: real, n: int) {
    if x >= 0.0 then n as real <= x < n as real + 1.0 else n as real - 1.0 < x <= n as real
  }

  lemma TruncIsWholePart(x: real, n: int)
    ensures WholePart(x, n) <==> n == Trunc(x)
  {
    if x >= 0.0 {
      assert n as real <= x < n as real + 1.0 <==> n == x.Floor;
    } else {
      assert n as real - 1.0 < x <= n as real <==> -n == (-x).Floor;
    }
  }

  /** A level as these three cells give it: a positive price, at least one whole contract, and the orders if any. */
  predicate FromCells(price: Option<real>, quantity: Option<real>, orders: Option<real>, level: BookLevel) {
    && price.Some? && price.value == level.price > 0.0
    && quantity.Some? && quantity.value >= 1.0 && WholePart(quantity.value, level.quantity)
    && WholePart(if orders.Some? then orders.value else 0.0, level.orders)
  }

  predicate FromBid(row: DepthLevel, level: BookLevel) {
    FromCells(row.bidPrice, row.bidQuantity, row.bidOrders, level)
  }

  predicate FromAsk(row: DepthLevel, level: BookLevel) {
    FromCells(row.askPrice, row.askQuantity, row.askOrders, level)
  }

  lemma RowGives(row: DepthLevel, level: BookLevel)
    ensures FromBid(row, level) <==> BidOf(row) == level && level.IsReal()
    ensures FromAsk(row, level) <==> AskOf(row) == level && level.IsReal()
  {
    TruncIsWholePart(Number(row.bidQuantity), level.quantity);
    TruncIsWholePart(Number(row.bidOrders), level.orders);
    TruncIsWholePart(Number(row.askQuantity), level.quantity);
    TruncIsWholePart(Number(row.askOrders), level.orders);
  }

  /** The rows that give a bid, and the rows that give an ask. */
  function RowsOf(rows: seq<DepthLevel>, level: BookLevel, bids: bool): nat {
    if rows == [] then 0
    else
      var last := rows[|rows| - 1];
      RowsOf(rows[..|rows| - 1], level, bids)
      + if (if bids then FromBid(last, level) else FromAsk(last, level)) then 1 else 0
  }

  lemma {:induction false} LevelsAreRows(rows: seq<DepthLevel>, level: BookLevel)
    ensures multiset(RealBids(rows))[level] == RowsOf(rows, level, true)
    ensures multiset(RealAsks(rows))[level] == RowsOf(rows, level, false)
  {
    if rows != [] {
      LevelsAreRows(rows[..|rows| - 1], level);
      RowGives(rows[|rows| - 1], level);
    }
  }

  /** Each level is in the book as often as the rows give it, bids from bid columns and asks from ask columns. */
  ghost predicate HoldsRows(book: OrderBook, rows: seq<DepthLevel>) {
    forall level ::
      && multiset(book.bids)[level] == RowsOf(rows, level, true)
      && multiset(book.asks)[level] == RowsOf(rows, level, false)
  }

  lemma BookHoldsRows(book: OrderBook, rows: seq<DepthLevel>)
    requires multiset(book.bids) == multiset(RealBids(rows)) && multiset(book.asks) == multiset(RealAsks(rows))
    ensures HoldsRows(book, rows)
  {
    forall level
      ensures multiset(book.bids)[level] == RowsOf(rows, level, true)
      ensures multiset(book.asks)[level] == RowsOf(rows, level, false)
    {
      LevelsAreRows(rows, level);
    }
  }

  // ---- Depth and fill -----------------------------------------------------------------

  function RealDepth(levels: seq<BookLevel>): nat {
    if levels == [] then 0
    else (if levels[0].IsReal() then levels[0].quantity else 0) + RealDepth(levels[1..])
  }

  lemma {:induction false} WorthGrows(side: Side, n: int, p1: real, p2: real)
    requires n >= 0 && Toll(side, p1) <= Toll(side, p2)
    ensures Toll(side, Worth(n, p1)) <= Toll(side, Worth(n, p2))
  {
    if n > 0 {
      WorthGrows(side, n - 1, p1, p2);
    }
  }

  /** Money that changes hands when `quantity` contracts eat the levels front to back. */
  function Cost(levels: seq<BookLevel>, quantity: int): real {
    if levels == [] || quantity <= 0 then 0.0
    else if !levels[0].IsReal() then Cost(levels[1..], quantity)
    else
      var take := MinInt(quantity, levels[0].quantity);
      Worth(take, levels[0].price) + Cost(levels[1..], quantity - take)
  }

  function Filled(levels: seq<BookLevel>, quantity: int): int {
    MinInt(MaxInt(quantity, 0), RealDepth(levels))
  }

  /** The pair `fill_price` returns: weighted average (None if nothing fills) and filled size. */
  function Quote(levels: seq<BookLevel>, quantity: int): (Option<real>, int) {
    var filled := Filled(levels, quantity);
    (if filled == 0 then None else Some(Cost(levels, quantity) / filled as real), filled)
  }

  lemma CostOfFirst(levels: seq<BookLevel>, remaining: int, take: int, amount: real)
    requires levels != [] && levels[0].IsReal() && remaining > 0 && take == MinInt(remaining, levels[0].quantity)
    requires amount == take as real * levels[0].price
    ensures Cost(levels, remaining) == amount + Cost(levels[1..], remaining - take)
  {
    WorthIsProduct(take, levels[0].price);
  }

  method FillPrice(book: OrderBook, side: Side, quantity: int) returns (average: Option<real>, filled: int)
    ensures (average, filled) == Quote(book.Levels(side), quantity)
    ensures var levels := if side.Buy? then book.asks else book.bids;
            && filled == MinInt(MaxInt(quantity, 0), RealDepth(levels)) && (average.Some? <==> filled >= 1)
            && (average.Some? ==> Worth(filled, average.value) == Cost(levels, quantity))
  {
    if quantity <= 0 {
      return None, 0;
    }
    var levels := book.Levels(side);
    var remaining, cost := quantity, 0.0;
    for i := 0 to |levels|
      invariant 0 <= remaining <= quantity
      invariant cost + Cost(levels[i..], remaining) == Cost(levels, quantity)
      invariant quantity - remaining + Filled(levels[i..], remaining) == Filled(levels, quantity)
    {
      assert levels[i..][1..] == levels[i + 1..];
      if !levels[i].IsReal() || remaining <= 0 {
        continue;
      }
      var take := MinInt(remaining, levels[i].quantity);
      var amount := take as real * levels[i].price;
      CostOfFirst(levels[i..], remaining, take, amount);
      cost, remaining := cost + amount, remaining - take;
    }
    filled := quantity - remaining;
    average := if filled != 0 then Some(cost / filled as real) else None;
    if average.Some? {
      WorthOfAverage(cost, filled, average.value);
    }
  }

  predicate CanFill(levels: seq<BookLevel>, quantity: int) { Quote(levels, quantity).1 >= quantity }

  function BestReal(levels: seq<BookLevel>): Option<real> {
    if levels == [] then None
    else if levels[0].IsReal() then Some(levels[0].price) else BestReal(levels[1..])
  }

  function BandDepth(levels: seq<BookLevel>, best: real, limit: real): nat
    requires best > 0.0
  {
    if levels == [] then 0
    else
      (if levels[0].IsReal() && Abs(levels[0].price - best) / best <= limit then levels[0].quantity else 0)
      + BandDepth(levels[1..], best, limit)
  }

  /** Depth no farther than `maxSlippagePct` percent from the best real price. */
  function DepthWithin(levels: seq<BookLevel>, maxSlippagePct: real): Option<int> {
    var best := BestReal(levels);
    if best.None? || best.value <= 0.0 then None
    else Some(BandDepth(levels, best.value, maxSlippagePct / 100.0))
  }

  /** The real levels no farther than `pct` percent of `best` from it. */
  function Band(levels: seq<BookLevel>, best: real, pct: real): seq<BookLevel> {
    if levels == [] then []
    else
      (if levels[0].IsReal() && 100.0 * Abs(levels[0].price - best) <= pct * best then [levels[0]] else [])
      + Band(levels[1..], best, pct)
  }

  lemma DistanceInPercent(distance: real, best: real, pct: real)
    requires best > 0.0
    ensures distance / best <= pct / 100.0 <==> 100.0 * distance <= pct * best
  {
    DivideBound(distance, best, pct / 100.0);
    assert pct / 100.0 * best * 100.0 == pct * best;
  }

  lemma {:induction false} BandIsAllOfIt(levels: seq<BookLevel>, best: real, pct: real)
    requires best > 0.0
    ensures BandDepth(levels, best, pct / 100.0) == RealDepth(Band(levels, best, pct))
  {
    if levels != [] {
      BandIsAllOfIt(levels[1..], best, pct);
      DistanceInPercent(Abs(levels[0].price - best), best, pct);
      var head := if levels[0].IsReal() && 100.0 * Abs(levels[0].price - best) <= pct * best then [levels[0]] else [];
      assert (head + Band(levels[1..], best, pct))[|head|..] == Band(levels[1..], best, pct);
    }
  }

  /** On an ordered side the depth within the band is all that the levels of the band hold. */
  lemma DepthWithinIsBand(side: Side, levels: seq<BookLevel>, pct: real)
    requires Ordered(side, levels)
    ensures DepthWithin(levels, pct)
         == if levels == [] then None else Some(RealDepth(Band(levels, levels[0].price, pct)))
  {
    if levels != [] {
      BandIsAllOfIt(levels, levels[0].price, pct);
    }
  }

  function Slippage(levels: seq<BookLevel>, quantity: int): Option<real> {
    var (average, filled) := Quote(levels, quantity);
    var best := BestReal(levels);
    if average.None? || filled < quantity || !Truthy(best) then None
    else Some(Abs(average.value - best.value) / best.value)
  }

  // ---- The greedy fill is optimal -------------------------------------------------------

  lemma {:induction false} WorthCancels(side: Side, n: int, p1: real, p2: real)
    requires n >= 1 && Toll(side, Worth(n, p1)) <= Toll(side, Worth(n, p2))
    ensures Toll(side, p1) <= Toll(side, p2)
  {
    if Toll(side, p1) > Toll(side, p2) {
      WorthGrows(side, n - 1, p2, p1);
    }
  }

  /** `n` contracts at the average price are worth what was paid for them. */
  lemma WorthOfAverage(paid: real, n: int, average: real)
    requires n >= 1 && average == paid / n as real
    ensures Worth(n, average) == paid
  {
    WorthIsProduct(n, average);
    MultiplyBack(paid, n as real);
  }

  /** A way to spread an order over the levels. */
  ghost predicate Feasible(levels: seq<BookLevel>, allocation: seq<int>) {
    && |allocation| == |levels|
    && forall i :: 0 <= i < |levels| ==> 0 <= allocation[i] <= if levels[i].IsReal() then levels[i].quantity else 0
  }

  function Total(allocation: seq<int>): int {
    if allocation == [] then 0 else allocation[0] + Total(allocation[1..])
  }

  function Outlay(levels: seq<BookLevel>, allocation: seq<int>): real
    requires |allocation| == |levels|
  {
    if levels == [] then 0.0
    else Worth(allocation[0], levels[0].price) + Outlay(levels[1..], allocation[1..])
  }

  lemma OrderedTail(side: Side, levels: seq<BookLevel>)
    requires Ordered(side, levels) && levels != []
    ensures Ordered(side, levels[1..]) && levels[0].IsReal()
    ensures forall i :: 0 <= i < |levels| ==> Toll(side, levels[0].price) <= Toll(side, levels[i].price)
  {}

  /** Going from q1 to q2 contracts costs at least the cheapest price per extra contract. */
  lemma {:induction false} IncrementAtLeast(side: Side, levels: seq<BookLevel>, q1: int, q2: int, price: real)
    requires 0 <= q1 <= q2 <= RealDepth(levels)
    requires forall i :: 0 <= i < |levels| && levels[i].IsReal() ==> Toll(side, price) <= Toll(side, levels[i].price)
    ensures Toll(side, Cost(levels, q2) - Cost(levels, q1)) >= Toll(side, Worth(q2 - q1, price))
  {
    if levels != [] {
      var head, tail := levels[0], levels[1..];
      if !head.IsReal() {
        IncrementAtLeast(side, tail, q1, q2, price);
      } else {
        var t1, t2 := MinInt(q1, head.quantity), MinInt(q2, head.quantity);
        IncrementAtLeast(side, tail, q1 - t1, q2 - t2, price);
        CostStep(levels, q1);
        CostStep(levels, q2);
        WorthAdds(t1, t2 - t1, head.price);
        WorthAdds(t2 - t1, (q2 - t2) - (q1 - t1), price);
        WorthGrows(side, t2 - t1, price, head.price);
      }
    }
  }

  /** The definition of `Cost` at a real head, also when nothing is taken. */
  lemma CostStep(levels: seq<BookLevel>, q: int)
    requires levels != [] && levels[0].IsReal() && q >= 0
    ensures var t := MinInt(q, levels[0].quantity);
            Cost(levels, q) == Worth(t, levels[0].price) + Cost(levels[1..], q - t)
  {}

  /** No feasible allocation of the same total is cheaper (buy) or raises more (sell). */
  lemma {:induction false} GreedyIsOptimal(side: Side, levels: seq<BookLevel>, allocation: seq<int>)
    requires Ordered(side, levels) && Feasible(levels, allocation)
    ensures 0 <= Total(allocation) <= RealDepth(levels)
    ensures Toll(side, Outlay(levels, allocation)) >= Toll(side, Cost(levels, Total(allocation)))
  {
    if levels != [] {
      var head, tail, mine, rest := levels[0], levels[1..], allocation[0], allocation[1..];
      OrderedTail(side, levels);
      GreedyIsOptimal(side, tail, rest);
      var total := Total(allocation);
      var take := MinInt(total, head.quantity);
      IncrementAtLeast(side, tail, total - take, total - mine, head.price);
      CostStep(levels, total);
      WorthAdds(mine, take - mine, head.price);
    }
  }

  /** The allocation the fill loop itself chooses. */
  function Greedy(levels: seq<BookLevel>, quantity: int): (allocation: seq<int>)
    ensures |allocation| == |levels|
  {
    if levels == [] then []
    else
      var take := if levels[0].IsReal() then MinInt(MaxInt(quantity, 0), levels[0].quantity) else 0;
      [take] + Greedy(levels[1..], quantity - take)
  }

  lemma {:induction false} GreedyIsFeasible(levels: seq<BookLevel>, quantity: int)
    ensures Feasible(levels, Greedy(levels, quantity))
    ensures Total(Greedy(levels, quantity)) == Filled(levels, quantity)
    ensures Outlay(levels, Greedy(levels, quantity)) == Cost(levels, quantity)
  {
    if levels != [] {
      var g := Greedy(levels, quantity);
      GreedyIsFeasible(levels[1..], quantity - g[0]);
      assert g[1..] == Greedy(levels[1..], quantity - g[0]);
      FeasibleFromTail(levels, g);
    }
  }

  lemma FeasibleFromTail(levels: seq<BookLevel>, g: seq<int>)
    requires levels != [] && |g| == |levels| && Feasible(levels[1..], g[1..])
    requires 0 <= g[0] <= if levels[0].IsReal() then levels[0].quantity else 0
    ensures Feasible(levels, g)
  {
    forall i | 0 < i < |levels| ensures 0 <= g[i] <= if levels[i].IsReal() then levels[i].quantity else 0 {
      assert g[i] == g[1..][i - 1] && levels[i] == levels[1..][i - 1];
    }
  }

  /** `amount` is the least money paid (or the most received) for `filled` contracts. */
  ghost predicate BestMoney(side: Side, levels: seq<BookLevel>, filled: int, amount: real) {
    && (forall a :: Feasible(levels, a) && Total(a) == filled ==> Toll(side, amount) <= Toll(side, Outlay(levels, a)))
    && (exists a :: Feasible(levels, a) && Total(a) == filled && Outlay(levels, a) == amount)
  }

  lemma CostIsBestMoney(side: Side, levels: seq<BookLevel>, quantity: int)
    requires Ordered(side, levels)
    ensures BestMoney(side, levels, Filled(levels, quantity), Cost(levels, quantity))
  {
    Saturates(levels, quantity);
    GreedyIsFeasible(levels, quantity);
    forall a | Feasible(levels, a) && Total(a) == Filled(levels, quantity)
      ensures Toll(side, Cost(levels, quantity)) <= Toll(side, Outlay(levels, a))
    {
      GreedyIsOptimal(side, levels, a);
    }
  }

  /** `fill_price` fills min(quantity, depth) at the best money over every allocation. */
  lemma FillIsBest(side: Side, levels: seq<BookLevel>, quantity: int)
    requires Ordered(side, levels) && quantity > 0
    ensures Quote(levels, quantity).1 == MinInt(quantity, RealDepth(levels))
    ensures Quote(levels, quantity).0.None? <==> RealDepth(levels) == 0
    ensures BestMoney(side, levels, Quote(levels, quantity).1, Cost(levels, quantity))
  {
    CostIsBestMoney(side, levels, quantity);
  }

  /** Asking for more than the depth costs what the depth costs. */
  lemma {:induction false} Saturates(levels: seq<BookLevel>, quantity: int)
    ensures Cost(levels, quantity) == Cost(levels, Filled(levels, quantity))
  {
    if levels != [] && quantity > 0 {
      if levels[0].IsReal() {
        Saturates(levels[1..], quantity - MinInt(quantity, levels[0].quantity));
        if quantity <= levels[0].quantity {
          assert Filled(levels, quantity) == quantity;
        }
      } else {
        Saturates(levels[1..], quantity);
      }
    }
  }

  // ---- The average never improves with size ----------------------------------------------

  /** `price` is no better than anything paid for the first q contracts, no worse than the rest. */
  ghost predicate Separates(side: Side, levels: seq<BookLevel>, q: int, price: real) {
    && Toll(side, Cost(levels, q)) <= Toll(side, Worth(q, price))
    && forall q2 :: q <= q2 <= RealDepth(levels) ==> DearerAfter(side, levels, q, q2, price)
  }

  ghost predicate DearerAfter(side: Side, levels: seq<BookLevel>, q1: int, q2: int, price: real) {
    Toll(side, Cost(levels, q2) - Cost(levels, q1)) >= Toll(side, Worth(q2 - q1, price))
  }

  lemma SeparatesBehind(side: Side, levels: seq<BookLevel>, q: int, price: real)
    requires levels != [] && levels[0].IsReal() && Toll(side, levels[0].price) <= Toll(side, price)
    requires levels[0].quantity < q && Separates(side, levels[1..], q - levels[0].quantity, price)
    ensures Separates(side, levels, q, price)
  {
    var tail, h := levels[1..], levels[0].quantity;
    CostStep(levels, q);
    WorthGrows(side, h, levels[0].price, price);
    WorthAdds(h, q - h, price);
    forall q2 | q <= q2 <= RealDepth(levels) ensures DearerAfter(side, levels, q, q2, price) {
      CostStep(levels, q2);
      assert DearerAfter(side, tail, q - h, q2 - h, price);
    }
  }

  lemma {:induction false} Watershed(side: Side, levels: seq<BookLevel>, q: int) returns (price: real)
    requires Ordered(side, levels) && 1 <= q <= RealDepth(levels)
    ensures exists i :: 0 <= i < |levels| && levels[i].price == price
    ensures Separates(side, levels, q, price)
  {
    OrderedTail(side, levels);
    if q <= levels[0].quantity {
      price := levels[0].price;
      CostStep(levels, q);
      forall q2 | q <= q2 <= RealDepth(levels) ensures DearerAfter(side, levels, q, q2, price) {
        IncrementAtLeast(side, levels, q, q2, price);
      }
    } else {
      price := Watershed(side, levels[1..], q - levels[0].quantity);
      var i :| 0 <= i < |levels| - 1 && levels[1..][i].price == price;
      assert levels[i + 1].price == price;
      SeparatesBehind(side, levels, q, price);
    }
  }

  /** A bigger order never gets a better average: higher when buying, lower when selling. */
  lemma AverageNeverImproves(side: Side, levels: seq<BookLevel>, q1: int, q2: int)
    requires Ordered(side, levels) && 1 <= q1 <= q2 && levels != []
    ensures Quote(levels, q1).0.Some? && Quote(levels, q2).0.Some?
    ensures Toll(side, Quote(levels, q1).0.value) <= Toll(side, Quote(levels, q2).0.value)
  {
    assert RealDepth(levels) >= levels[0].quantity >= 1;
    Saturates(levels, q1);
    Saturates(levels, q2);
    var f1, f2 := Filled(levels, q1), Filled(levels, q2);
    var price := Watershed(side, levels, f1);
    var a1, a2 := Quote(levels, q1).0.value, Quote(levels, q2).0.value;
    WorthOfAverage(Cost(levels, f1), f1, a1);
    WorthOfAverage(Cost(levels, f2), f2, a2);
    assert DearerAfter(side, levels, f1, f2, price);
    AverageGrows(side, f1, f2 - f1, a1, a2, price);
  }

  lemma AverageGrows(side: Side, f: int, g: int, a1: real, a2: real, price: real)
    requires f >= 1 && g >= 0
    requires Toll(side, Worth(f, a1)) <= Toll(side, Worth(f, price))
    requires Toll(side, Worth(f + g, a2) - Worth(f, a1)) >= Toll(side, Worth(g, price))
    ensures Toll(side, a1) <= Toll(side, a2)
  {
    WorthCancels(side, f, a1, price);
    WorthGrows(side, g, a1, price);
    WorthAdds(f, g, a1);
    WorthCancels(side, f + g, a1, a2);
  }

  // ---- Slippage inside the band ------------------------------------------------------------

  lemma {:induction false} OutsideBandStaysOutside(side: Side, levels: seq<BookLevel>, best: real, limit: real)
    requires Ordered(side, levels) && best > 0.0
    requires forall i :: 0 <= i < |levels| ==> Toll(side, levels[i].price - best) > limit * best
    ensures BandDepth(levels, best, limit) == 0
  {
    if levels != [] {
      DivideBound(Abs(levels[0].price - best), best, limit);
      OutsideBandStaysOutside(side, levels[1..], best, limit);
    }
  }

  /** With `cap` = limit × best: every contract inside the band costs at most `cap` extra. */
  lemma {:induction false} BandIsCheap(side: Side, levels: seq<BookLevel>, best: real, limit: real, cap: real, q: int)
    requires Ordered(side, levels) && best > 0.0 && cap == limit * best
    requires forall i :: 0 <= i < |levels| ==> Toll(side, best) <= Toll(side, levels[i].price)
    requires 0 <= q <= BandDepth(levels, best, limit)
    ensures q <= RealDepth(levels)
    ensures Toll(side, Cost(levels, q) - Worth(q, best)) <= Worth(q, cap)
  {
    if levels != [] && q > 0 {
      var head, tail := levels[0], levels[1..];
      OrderedTail(side, levels);
      var excess := Toll(side, head.price - best);
      DivideBound(excess, best, limit);
      if excess <= cap {
        var take := MinInt(q, head.quantity);
        BandIsCheap(side, tail, best, limit, cap, q - take);
        CostStep(levels, q);
        ExcessAddsUp(side, head.price, best, cap, take);
        WorthAdds(take, q - take, best);
        WorthAdds(take, q - take, cap);
      } else {
        OutsideBandStaysOutside(side, levels, best, limit);
      }
    }
  }

  lemma {:induction false} ExcessAddsUp(side: Side, price: real, best: real, cap: real, n: int)
    requires n >= 0 && Toll(side, price - best) <= cap
    ensures Toll(side, Worth(n, price) - Worth(n, best)) <= Worth(n, cap)
  {
    if n > 0 {
      ExcessAddsUp(side, price, best, cap, n - 1);
    }
  }

  /** Any order no larger than the band depth fills completely, within the band's slippage. */
  lemma SlippageWithinBand(side: Side, levels: seq<BookLevel>, pct: real, q: int)
    requires Ordered(side, levels)
    requires DepthWithin(levels, pct).Some? && 0 < q <= DepthWithin(levels, pct).value
    ensures CanFill(levels, q)
    ensures Slippage(levels, q).Some? && 0.0 <= Slippage(levels, q).value <= pct / 100.0
  {
    var best, limit := levels[0].price, pct / 100.0;
    var cap := limit * best;
    BandIsCheap(side, levels, best, limit, cap, q);
    IncrementAtLeast(side, levels, 0, q, best);
    var average := Quote(levels, q).0.value;
    WorthOfAverage(Cost(levels, q), q, average);
    WorthCancels(side, q, best, average);
    ExcessCancels(side, average, best, cap, q);
    DivideBound(Abs(average - best), best, limit);
    DivLe(0.0, Abs(average - best), best);
  }

  lemma {:induction false} ExcessCancels(side: Side, average: real, best: real, cap: real, n: int)
    requires n >= 1 && Toll(side, Worth(n, average) - Worth(n, best)) <= Worth(n, cap)
    ensures Toll(side, average - best) <= cap
  {
    if n > 1 && Toll(side, average - best) > cap {
      ExcessCancels(side, average, best, cap, n - 1);
    }
  }
}
