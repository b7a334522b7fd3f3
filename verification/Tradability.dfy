/** The tradability gate (market/tradability.py): eight measured checks and one verdict. */
module Tradability {
  import opened Common
  import OB = OrderBooks

  datatype Verdict = Tradable | NeedsReview | Rejected

  /** `passed` is None when the measured value is not known: neither good nor bad. */
  datatype Check = Check(value: Option<real>, passed: Option<bool>)

  datatype Thresholds = Thresholds(
    minOpenInterest: int, minTradesToday: int, maxRelativeSpreadPct: real, minExitDepthRatio: real,
    minSessionsWithTradesPct: real, minHistorySessions: int, minDaysToExpiry: int,
    maxExitSlippagePct: real, maxQuoteAgeSeconds: real)

  datatype Observation = Observation(
    side: OB.Side, quantity: int, bid: Option<real>, ask: Option<real>, exitDepth: Option<int>,
    exitFillPrice: Option<real>, bestExitPrice: Option<real>, openInterest: Option<int>,
    tradesToday: Option<int>, daysToExpiry: Option<int>, quoteAgeSeconds: Option<real>)
  {
    function RelativeSpreadPct(): Option<real> {
      if !Truthy(bid) || !Truthy(ask) then None
      else
        var mid := (bid.value + ask.value) / 2.0;
        if mid <= 0.0 then None else Some((ask.value - bid.value) / mid * 100.0)
    }

    function ExitDepthRatio(): Option<real> {
      if exitDepth.None? || quantity <= 0 then None else Some(exitDepth.value as real / quantity as real)
    }

    /** A long position leaves on the bids, so worse is lower; a short one buys back higher. */
    function ExitSlippagePct(): Option<real> {
      if !Truthy(exitFillPrice) || !Truthy(bestExitPrice) || bestExitPrice.value <= 0.0 then None
      else
        var drop :=
          if side.Buy? then bestExitPrice.value - exitFillPrice.value else exitFillPrice.value - bestExitPrice.value;
        Some(MaxReal(drop / bestExitPrice.value * 100.0, 0.0))
    }
  }

  datatype History = History(sessions: int, sessionsWithTrades: int, known: bool, verified: bool) {
    function SessionsWithTradesPct(): Option<real> {
      if !known || sessions <= 0 then None
      else Some(sessionsWithTrades as real / sessions as real * 100.0)
    }
  }

  function AtLeast(value: Option<real>, threshold: real): Check {
    Check(value, if value.None? then None else Some(value.value >= threshold))
  }

  function AtMost(value: Option<real>, threshold: real): Check {
    Check(value, if value.None? then None else Some(value.value <= threshold))
  }

  function Real(n: Option<int>): Option<real> { if n.None? then None else Some(n.value as real) }

  function Continuity(h: History, th: Thresholds): Check {
    if !h.known || !h.verified || h.sessions < th.minHistorySessions then Check(None, None)
    else AtLeast(h.SessionsWithTradesPct(), th.minSessionsWithTradesPct)
  }

  function Checks(o: Observation, h: History, th: Thresholds): seq<Check> {
    [ AtLeast(Real(o.daysToExpiry), th.minDaysToExpiry as real),
      AtLeast(Real(o.openInterest), th.minOpenInterest as real),
      AtLeast(Real(o.tradesToday), th.minTradesToday as real),
      AtMost(o.RelativeSpreadPct(), th.maxRelativeSpreadPct),
      AtLeast(o.ExitDepthRatio(), th.minExitDepthRatio),
      AtMost(o.ExitSlippagePct(), th.maxExitSlippagePct),
      AtMost(o.quoteAgeSeconds, th.maxQuoteAgeSeconds),
      Continuity(h, th) ]
  }

  /** A known failure rejects whatever else is unknown; only all known and all passed is tradable. */
  function Evaluate(o: Observation, h: History, th: Thresholds): Verdict {
    var checks := Checks(o, h, th);
    if exists c :: c in checks && c.passed == Some(false) then Rejected
    else if exists c :: c in checks && c.passed.None? then NeedsReview
    else Tradable
  }

  ghost predicate EveryCheckPasses(o: Observation, h: History, th: Thresholds) {
    forall c :: c in Checks(o, h, th) ==> c.passed == Some(true)
  }

  lemma VerdictMeaning(o: Observation, h: History, th: Thresholds)
    ensures Evaluate(o, h, th).Tradable? <==> EveryCheckPasses(o, h, th)
    ensures Evaluate(o, h, th).NeedsReview? ==> forall c :: c in Checks(o, h, th) ==> c.passed != Some(false)
  {
    if !EveryCheckPasses(o, h, th) {
      var c :| c in Checks(o, h, th) && c.passed != Some(true);
      assert c.passed == Some(false) || c.passed.None?;
    }
  }

  /** Verdicts of observations that differ only in what the order size touches. */
  lemma VerdictFollowsSizeChecks(o: Observation, o': Observation, h: History, th: Thresholds)
    requires Evaluate(o, h, th).Tradable?
    requires o' == o.(quantity := o'.quantity, exitFillPrice := o'.exitFillPrice)
    requires AtLeast(o'.ExitDepthRatio(), th.minExitDepthRatio).passed == Some(true)
    requires AtMost(o'.ExitSlippagePct(), th.maxExitSlippagePct).passed == Some(true)
    ensures Evaluate(o', h, th).Tradable?
  {
    VerdictMeaning(o, h, th);
    VerdictMeaning(o', h, th);
    var before, after := Checks(o, h, th), Checks(o', h, th);
    forall c | c in after ensures c.passed == Some(true) {
      var i :| 0 <= i < 8 && after[i] == c;
      assert before[i] in before;
    }
  }

  lemma TradablePasses(o: Observation, h: History, th: Thresholds)
    requires Evaluate(o, h, th).Tradable?
    ensures AtLeast(o.ExitDepthRatio(), th.minExitDepthRatio).passed == Some(true)
    ensures AtMost(o.ExitSlippagePct(), th.maxExitSlippagePct).passed == Some(true)
    ensures AtMost(o.quoteAgeSeconds, th.maxQuoteAgeSeconds).passed == Some(true)
  {
    VerdictMeaning(o, h, th);
    var checks := Checks(o, h, th);
    assert checks[4] in checks && checks[5] in checks && checks[6] in checks;
  }
}

/**
 * How the order size reaches the gate (market/tradability_screener.py), and why a smaller order
 * is never screened worse.
 */
module TradabilityScreening {
  import opened Common
  import opened Tradability
  import OB = OrderBooks

  datatype Quote = Quote(
    bid: Option<real>, ask: Option<real>, bidQuantity: Option<int>, askQuantity: Option<int>,
    openInterest: Option<int>, tradesToday: Option<int>, daysToExpiry: Option<int>)

  /** What is read while screening one symbol: the contract, the multi-level book if any, its cache age. */
  datatype View = View(contract: Option<Quote>, book: Option<OB.OrderBook>, bookAge: Option<real>, history: History)

  function ExitSide(position: OB.Side): OB.Side { if position.Buy? then OB.Sell else OB.Buy }

  function BookBest(book: OB.OrderBook, exit: OB.Side): Option<real> {
    if exit.Sell? then book.BestBid() else book.BestAsk()
  }

  function Or(first: Option<real>, second: Option<real>): Option<real> { if first.Some? then first else second }

  /** A fill price counts only when the whole order fills. */
  function FullFill(levels: seq<OB.BookLevel>, needed: int): Option<real> {
    var (price, filled) := OB.Quote(levels, needed);
    if filled >= needed then price else None
  }

  function Observe(position: OB.Side, quantity: int, v: View): Observation {
    if v.contract.None? then
      Observation(position, quantity, None, None, None, None, None, None, None, None, None)
    else
      var c, exit, needed := v.contract.value, ExitSide(position), MaxInt(quantity, 1);
      if v.book.Some? then
        var book := v.book.value;
        Observation(
          position, quantity, Or(book.BestBid(), c.bid), Or(book.BestAsk(), c.ask),
          Some(OB.RealDepth(book.Levels(exit))), FullFill(book.Levels(exit), needed), BookBest(book, exit),
          c.openInterest, c.tradesToday, c.daysToExpiry, v.bookAge)
      else
        var levelOne := if exit.Sell? then c.bidQuantity else c.askQuantity;
        var best := if exit.Sell? then c.bid else c.ask;
        Observation(
          position, quantity, c.bid, c.ask, levelOne, if levelOne.Some? && levelOne.value >= needed then best else None,
          best, c.openInterest, c.tradesToday, c.daysToExpiry, None)
  }

  function Screen(position: OB.Side, quantity: int, v: View, th: Thresholds): Verdict {
    Evaluate(Observe(position, quantity, v), v.history, th)
  }

  /** `evaluate_signal`: a missing or non-positive size is screened as one contract. */
  function ScreenSignal(position: OB.Side, suggested: int, v: View, th: Thresholds): Verdict {
    Screen(position, MaxInt(suggested, 1), v, th)
  }

  // ---- What a tradable verdict means --------------------------------------------------------

  /** The chain alone announces no age for its quotes, so it never leads to a tradable verdict. */
  lemma NoBookNeverTradable(position: OB.Side, quantity: int, v: View, th: Thresholds)
    requires Screen(position, quantity, v, th).Tradable?
    ensures v.contract.Some? && v.book.Some? && v.bookAge.Some? && quantity >= 1
  {
    TradablePasses(Observe(position, quantity, v), v.history, th);
  }

  /** A tradable order can leave in full on the exit side of the book. */
  lemma TradableExitFillsInFull(position: OB.Side, quantity: int, v: View, th: Thresholds)
    requires Screen(position, quantity, v, th).Tradable?
    ensures v.book.Some? && OB.CanFill(v.book.value.Levels(ExitSide(position)), quantity)
    ensures Observe(position, quantity, v).exitFillPrice
         == OB.Quote(v.book.value.Levels(ExitSide(position)), quantity).0
  {
    NoBookNeverTradable(position, quantity, v, th);
    TradablePasses(Observe(position, quantity, v), v.history, th);
  }

  // ---- Smaller orders -----------------------------------------------------------------------

  lemma {:induction false} CostIsPositive(side: OB.Side, levels: seq<OB.BookLevel>, q: int)
    requires OB.Ordered(side, levels) && levels != [] && q >= 1
    ensures OB.Cost(levels, q) > 0.0
  {
    var take := MinInt(q, levels[0].quantity);
    WorthIsPositive(take, levels[0].price);
    if q > take && levels[1..] != [] {
      CostIsPositive(side, levels[1..], q - take);
    }
  }

  lemma PositiveQuotient(a: real, b: real)
    requires a > 0.0 && b > 0.0
    ensures a / b > 0.0
  {
    MultiplyBack(a, b);
    if a / b <= 0.0 {
      MulLe(a / b, 0.0, b);
    }
  }

  lemma AverageIsPositive(side: OB.Side, levels: seq<OB.BookLevel>, q: int)
    requires OB.Ordered(side, levels) && levels != [] && q >= 1
    ensures OB.Quote(levels, q).0.Some? && OB.Quote(levels, q).0.value > 0.0
  {
    CostIsPositive(side, levels, q);
    assert OB.RealDepth(levels) >= levels[0].quantity;
    PositiveQuotient(OB.Cost(levels, q), OB.Filled(levels, q) as real);
  }

  lemma QuotientFalls(depth: real, q: real, q': real)
    requires depth >= 0.0 && 0.0 < q' <= q
    ensures depth / q' >= depth / q
  {
    MultiplyBack(depth, q);
    DivideBound(depth, q, depth / q');
    MultiplyBack(depth, q');
    DivLe(0.0, depth, q');
    MulLe(q', q, depth / q');
  }

  lemma SlippageFalls(best: real, drop: real, drop': real, limit: real)
    requires best > 0.0 && drop' <= drop && MaxReal(drop / best * 100.0, 0.0) <= limit
    ensures MaxReal(drop' / best * 100.0, 0.0) <= limit
  {
    DivLe(drop', drop, best);
  }

  lemma SmallerExitFills(exit: OB.Side, levels: seq<OB.BookLevel>, q: int, q': int)
    requires OB.Ordered(exit, levels) && 1 <= q' <= q && FullFill(levels, q).Some?
    ensures FullFill(levels, q').Some? && FullFill(levels, q').value > 0.0
    ensures OB.Toll(exit, FullFill(levels, q').value) <= OB.Toll(exit, FullFill(levels, q).value)
  {
    OB.AverageNeverImproves(exit, levels, q', q);
    AverageIsPositive(exit, levels, q');
  }

  lemma SmallerOrderPasses(o: Observation, o': Observation, h: History, th: Thresholds)
    requires Evaluate(o, h, th).Tradable? && 1 <= o'.quantity <= o.quantity
    requires o' == o.(quantity := o'.quantity, exitFillPrice := o'.exitFillPrice)
    requires o.exitDepth.Some? && o.exitDepth.value >= 0
    requires o.exitFillPrice.Some? && o'.exitFillPrice.Some? && o'.exitFillPrice.value > 0.0
    requires OB.Toll(ExitSide(o.side), o'.exitFillPrice.value) <= OB.Toll(ExitSide(o.side), o.exitFillPrice.value)
    ensures Evaluate(o', h, th).Tradable?
  {
    TradablePasses(o, h, th);
    QuotientFalls(o.exitDepth.value as real, o.quantity as real, o'.quantity as real);
    var best := o.bestExitPrice.value;
    var drop := if o.side.Buy? then best - o.exitFillPrice.value else o.exitFillPrice.value - best;
    var drop' := if o.side.Buy? then best - o'.exitFillPrice.value else o'.exitFillPrice.value - best;
    SlippageFalls(best, drop, drop', th.maxExitSlippagePct);
    VerdictFollowsSizeChecks(o, o', h, th);
  }

  /**
   * The gate is downward closed in the order size: what is tradable at q is tradable, on the same
   * reading of the market, at every smaller size.
   */
  lemma TradableIsDownwardClosed(position: OB.Side, q: int, q': int, v: View, th: Thresholds)
    requires v.book.Some? ==> v.book.value.WellFormed()
    requires Screen(position, q, v, th).Tradable? && 1 <= q' <= q
    ensures Screen(position, q', v, th).Tradable?
  {
    NoBookNeverTradable(position, q, v, th);
    TradableExitFillsInFull(position, q, v, th);
    var o := Observe(position, q, v);
    TradablePasses(o, v.history, th);
    SmallerExitFills(ExitSide(position), v.book.value.Levels(ExitSide(position)), q, q');
    SmallerOrderPasses(o, Observe(position, q', v), v.history, th);
  }

  /** The largest size up to `n` that `ok` accepts, or 0. */
  function Largest(ok: int -> bool, n: nat): nat {
    if n == 0 || ok(n) then n else Largest(ok, n - 1)
  }

  lemma {:induction false} LargestBounds(ok: int -> bool, n: nat)
    ensures forall q :: 1 <= q <= n && ok(q) ==> q <= Largest(ok, n)
    ensures Largest(ok, n) > 0 ==> ok(Largest(ok, n))
  {
    if n > 0 && !ok(n) {
      LargestBounds(ok, n - 1);
    }
  }

  /** So one number, no larger than the exit depth, says which sizes are tradable. */
  lemma TradableSizesEndAt(position: OB.Side, v: View, th: Thresholds, depth: nat, q: int)
    requires v.book.Some? ==>
      v.book.value.WellFormed() && depth == OB.RealDepth(v.book.value.Levels(ExitSide(position)))
    ensures Screen(position, q, v, th).Tradable?
            <==> 1 <= q <= Largest(n => Screen(position, n, v, th).Tradable?, depth)
  {
    var ok := (n: int) => Screen(position, n, v, th).Tradable?;
    var limit := Largest(ok, depth);
    LargestBounds(ok, depth);
    if ok(q) {
      NoBookNeverTradable(position, q, v, th);
      TradableExitFillsInFull(position, q, v, th);
    } else if 1 <= q <= limit {
      assert ok(limit);
      TradableIsDownwardClosed(position, limit, q, v, th);
    }
  }
}

/** When an order is tradable or rejected, said of quotes, book and history, without the list of checks. */
module TradabilityConditions {
  import opened Common
  import opened Tradability
  import opened TradabilityScreening
  import OB = OrderBooks

  // ---- The figures --------------------------------------------------------------------------------

  function FirstPrice(levels: seq<OB.BookLevel>): Option<real> { if levels == [] then None else Some(levels[0].price) }

  /** The book speaks before the chain. */
  function BidShown(v: View, c: Quote): Option<real> {
    if v.book.Some? && v.book.value.bids != [] then FirstPrice(v.book.value.bids) else c.bid
  }

  function AskShown(v: View, c: Quote): Option<real> {
    if v.book.Some? && v.book.value.asks != [] then FirstPrice(v.book.value.asks) else c.ask
  }

  /** A long position leaves into the bids, a short one into the asks. */
  function Exits(book: OB.OrderBook, position: OB.Side): seq<OB.BookLevel> {
    if position.Buy? then book.bids else book.asks
  }

  function DepthShown(position: OB.Side, v: View, c: Quote): Option<int> {
    if v.book.Some? then Some(OB.RealDepth(Exits(v.book.value, position)))
    else if position.Buy? then c.bidQuantity else c.askQuantity
  }

  function BestShown(position: OB.Side, v: View, c: Quote): Option<real> {
    if v.book.Some? then FirstPrice(Exits(v.book.value, position)) else if position.Buy? then c.bid else c.ask
  }

  /** What leaving with all `needed` contracts pays on average; without a book only the first level is known. */
  function FillShown(position: OB.Side, needed: int, v: View, c: Quote): Option<real>
    requires needed >= 1
  {
    if DepthShown(position, v, c).None? || DepthShown(position, v, c).value < needed then None
    else if v.book.Some? then Some(OB.Cost(Exits(v.book.value, position), needed) / needed as real)
    else BestShown(position, v, c)
  }

  // ---- Each threshold, met or missed ----------------------------------------------------------------

  predicate TwoSided(bid: Option<real>, ask: Option<real>) {
    Truthy(bid) && Truthy(ask) && bid.value + ask.value > 0.0
  }

  predicate SpreadMeets(bid: Option<real>, ask: Option<real>, max: real) {
    TwoSided(bid, ask) && 200.0 * (ask.value - bid.value) <= max * (bid.value + ask.value)
  }

  predicate SpreadMisses(bid: Option<real>, ask: Option<real>, max: real) {
    TwoSided(bid, ask) && 200.0 * (ask.value - bid.value) > max * (bid.value + ask.value)
  }

  /** What leaving costs against the best price, never less than nothing. */
  function Loss(position: OB.Side, best: real, fill: real): real {
    MaxReal(if position.Buy? then best - fill else fill - best, 0.0)
  }

  predicate Leaves(best: Option<real>, fill: Option<real>) { Truthy(fill) && best.Some? && best.value > 0.0 }

  predicate SlippageMeets(position: OB.Side, best: Option<real>, fill: Option<real>, max: real) {
    Leaves(best, fill) && 100.0 * Loss(position, best.value, fill.value) <= max * best.value
  }

  predicate SlippageMisses(position: OB.Side, best: Option<real>, fill: Option<real>, max: real) {
    Leaves(best, fill) && 100.0 * Loss(position, best.value, fill.value) > max * best.value
  }

  predicate DepthMeets(depth: Option<int>, quantity: int, min: real) {
    quantity >= 1 && depth.Some? && depth.value as real >= min * quantity as real
  }

  predicate DepthMisses(depth: Option<int>, quantity: int, min: real) {
    quantity >= 1 && depth.Some? && (depth.value as real) < min * quantity as real
  }

  predicate Telling(h: History, th: Thresholds) {
    h.known && h.verified && h.sessions >= th.minHistorySessions && h.sessions > 0
  }

  predicate HistoryMeets(h: History, th: Thresholds) {
    Telling(h, th)
    && 100.0 * h.sessionsWithTrades as real >= th.minSessionsWithTradesPct * h.sessions as real
  }

  predicate HistoryMisses(h: History, th: Thresholds) {
    Telling(h, th)
    && 100.0 * h.sessionsWithTrades as real < th.minSessionsWithTradesPct * h.sessions as real
  }

  /** Everything a tradable order needs. */
  predicate MayTrade(position: OB.Side, quantity: int, v: View, th: Thresholds) {
    && v.contract.Some? && quantity >= 1
    && var c := v.contract.value;
       && c.daysToExpiry.Some? && c.daysToExpiry.value >= th.minDaysToExpiry
       && c.openInterest.Some? && c.openInterest.value >= th.minOpenInterest
       && c.tradesToday.Some? && c.tradesToday.value >= th.minTradesToday
       && SpreadMeets(BidShown(v, c), AskShown(v, c), th.maxRelativeSpreadPct)
       && DepthMeets(DepthShown(position, v, c), quantity, th.minExitDepthRatio)
       && SlippageMeets(
         position, BestShown(position, v, c), FillShown(position, quantity, v, c), th.maxExitSlippagePct)
       && v.book.Some? && v.bookAge.Some? && v.bookAge.value <= th.maxQuoteAgeSeconds
       && HistoryMeets(v.history, th)
  }

  /** Some figure that is known misses its own threshold. */
  predicate MustReject(position: OB.Side, quantity: int, v: View, th: Thresholds) {
    || HistoryMisses(v.history, th)
    || (v.contract.Some?
        && var c := v.contract.value;
           || (c.daysToExpiry.Some? && c.daysToExpiry.value < th.minDaysToExpiry)
           || (c.openInterest.Some? && c.openInterest.value < th.minOpenInterest)
           || (c.tradesToday.Some? && c.tradesToday.value < th.minTradesToday)
           || SpreadMisses(BidShown(v, c), AskShown(v, c), th.maxRelativeSpreadPct)
           || DepthMisses(DepthShown(position, v, c), quantity, th.minExitDepthRatio)
           || SlippageMisses(
             position, BestShown(position, v, c), FillShown(position, MaxInt(quantity, 1), v, c),
             th.maxExitSlippagePct)
           || (v.book.Some? && v.bookAge.Some? && v.bookAge.value > th.maxQuoteAgeSeconds))
  }

  // ---- From the checks to the conditions -------------------------------------------------------------

  /** The verdict, check by check. */
  lemma VerdictByCheck(o: Observation, h: History, th: Thresholds, cs: seq<Check>)
    requires cs == Checks(o, h, th)
    ensures Evaluate(o, h, th).Tradable? <==> forall i :: 0 <= i < 8 ==> cs[i].passed == Some(true)
    ensures Evaluate(o, h, th).Rejected? <==> exists i :: 0 <= i < 8 && cs[i].passed == Some(false)
  {
    VerdictMeaning(o, h, th);
    if Evaluate(o, h, th).Tradable? {
      forall i | 0 <= i < 8 ensures cs[i].passed == Some(true) { assert cs[i] in cs; }
    }
    if i :| 0 <= i < 8 && cs[i].passed == Some(false) {
      assert cs[i] in cs;
    }
  }

  lemma PercentBound(a: real, b: real, limit: real)
    requires b > 0.0
    ensures a / b * 100.0 <= limit <==> 100.0 * a <= limit * b
    ensures a / b * 100.0 >= limit <==> 100.0 * a >= limit * b
  {
    var x := a / b;
    MultiplyBack(a, b);
    BoundAfterScaling(x * 100.0, limit, b);
    BoundAfterScaling(limit, x * 100.0, b);
    Reorder(x, 100.0, b);
  }

  lemma SpreadCheck(o: Observation, max: real)
    ensures AtMost(o.RelativeSpreadPct(), max).passed == Some(true) <==> SpreadMeets(o.bid, o.ask, max)
    ensures AtMost(o.RelativeSpreadPct(), max).passed == Some(false) <==> SpreadMisses(o.bid, o.ask, max)
  {
    if TwoSided(o.bid, o.ask) {
      PercentBound(o.ask.value - o.bid.value, (o.bid.value + o.ask.value) / 2.0, max);
      HalfSum(o.ask.value - o.bid.value, o.bid.value + o.ask.value, max);
    }
  }

  lemma HalfSum(x: real, sum: real, max: real)
    ensures 100.0 * x <= max * (sum / 2.0) <==> 200.0 * x <= max * sum
  {
    assert max * (sum / 2.0) * 2.0 == max * sum;
  }

  lemma SlippageCheck(o: Observation, max: real)
    ensures AtMost(o.ExitSlippagePct(), max).passed == Some(true)
            <==> SlippageMeets(o.side, o.bestExitPrice, o.exitFillPrice, max)
    ensures AtMost(o.ExitSlippagePct(), max).passed == Some(false)
            <==> SlippageMisses(o.side, o.bestExitPrice, o.exitFillPrice, max)
  {
    if Leaves(o.bestExitPrice, o.exitFillPrice) {
      var best, fill := o.bestExitPrice.value, o.exitFillPrice.value;
      ClampedPercent(if o.side.Buy? then best - fill else fill - best, best, max);
    }
  }

  lemma ClampedPercent(drop: real, best: real, max: real)
    requires best > 0.0
    ensures MaxReal(drop / best * 100.0, 0.0) <= max <==> 100.0 * MaxReal(drop, 0.0) <= max * best
  {
    PercentBound(drop, best, max);
    PercentBound(0.0, best, max);
    DivLe(MinReal(drop, 0.0), MaxReal(drop, 0.0), best);
  }

  lemma DepthCheck(o: Observation, min: real)
    ensures AtLeast(o.ExitDepthRatio(), min).passed == Some(true)
            <==> DepthMeets(o.exitDepth, o.quantity, min)
    ensures AtLeast(o.ExitDepthRatio(), min).passed == Some(false)
            <==> DepthMisses(o.exitDepth, o.quantity, min)
  {
    if o.quantity >= 1 && o.exitDepth.Some? {
      MultiplyBack(o.exitDepth.value as real, o.quantity as real);
      BoundAfterScaling(min, o.exitDepth.value as real / o.quantity as real, o.quantity as real);
    }
  }

  lemma HistoryCheck(h: History, th: Thresholds)
    ensures Continuity(h, th).passed == Some(true) <==> HistoryMeets(h, th)
    ensures Continuity(h, th).passed == Some(false) <==> HistoryMisses(h, th)
  {
    if Telling(h, th) {
      PercentBound(h.sessionsWithTrades as real, h.sessions as real, th.minSessionsWithTradesPct);
    }
  }

  /** What the screener reads from a contract, figure by figure. */
  lemma ReadingIsShown(position: OB.Side, quantity: int, v: View, c: Quote, o: Observation)
    requires v.contract == Some(c) && o == Observe(position, quantity, v)
    ensures o.side == position && o.quantity == quantity && o.bid == BidShown(v, c) && o.ask == AskShown(v, c)
    ensures o.exitDepth == DepthShown(position, v, c) && o.bestExitPrice == BestShown(position, v, c)
    ensures o.exitFillPrice == FillShown(position, MaxInt(quantity, 1), v, c)
    ensures o.openInterest == c.openInterest && o.tradesToday == c.tradesToday && o.daysToExpiry == c.daysToExpiry
    ensures o.quoteAgeSeconds == if v.book.Some? then v.bookAge else None
  {}

  predicate MeetsAll(o: Observation, h: History, th: Thresholds) {
    && o.daysToExpiry.Some? && o.daysToExpiry.value >= th.minDaysToExpiry
    && o.openInterest.Some? && o.openInterest.value >= th.minOpenInterest
    && o.tradesToday.Some? && o.tradesToday.value >= th.minTradesToday
    && SpreadMeets(o.bid, o.ask, th.maxRelativeSpreadPct)
    && DepthMeets(o.exitDepth, o.quantity, th.minExitDepthRatio)
    && SlippageMeets(o.side, o.bestExitPrice, o.exitFillPrice, th.maxExitSlippagePct)
    && o.quoteAgeSeconds.Some? && o.quoteAgeSeconds.value <= th.maxQuoteAgeSeconds
    && HistoryMeets(h, th)
  }

  predicate MissesSome(o: Observation, h: History, th: Thresholds) {
    || (o.daysToExpiry.Some? && o.daysToExpiry.value < th.minDaysToExpiry)
    || (o.openInterest.Some? && o.openInterest.value < th.minOpenInterest)
    || (o.tradesToday.Some? && o.tradesToday.value < th.minTradesToday)
    || SpreadMisses(o.bid, o.ask, th.maxRelativeSpreadPct)
    || DepthMisses(o.exitDepth, o.quantity, th.minExitDepthRatio)
    || SlippageMisses(o.side, o.bestExitPrice, o.exitFillPrice, th.maxExitSlippagePct)
    || (o.quoteAgeSeconds.Some? && o.quoteAgeSeconds.value > th.maxQuoteAgeSeconds)
    || HistoryMisses(h, th)
  }

  lemma ObservationByCheck(o: Observation, h: History, th: Thresholds)
    ensures Evaluate(o, h, th).Tradable? <==> MeetsAll(o, h, th)
    ensures Evaluate(o, h, th).Rejected? <==> MissesSome(o, h, th)
  {
    VerdictByCheck(o, h, th, Checks(o, h, th));
    SpreadCheck(o, th.maxRelativeSpreadPct);
    SlippageCheck(o, th.maxExitSlippagePct);
    DepthCheck(o, th.minExitDepthRatio);
    HistoryCheck(h, th);
  }

  lemma ScreenByCheck(position: OB.Side, quantity: int, v: View, th: Thresholds, c: Quote)
    requires v.contract == Some(c)
    ensures Screen(position, quantity, v, th).Tradable? <==> MayTrade(position, quantity, v, th)
    ensures Screen(position, quantity, v, th).Rejected? <==> MustReject(position, quantity, v, th)
  {
    var o := Observe(position, quantity, v);
    ReadingIsShown(position, quantity, v, c, o);
    ObservationByCheck(o, v.history, th);
  }

  lemma UnknownByCheck(position: OB.Side, quantity: int, v: View, th: Thresholds)
    requires v.contract.None?
    ensures !Screen(position, quantity, v, th).Tradable?
    ensures Screen(position, quantity, v, th).Rejected? <==> HistoryMisses(v.history, th)
  {
    var o := Observe(position, quantity, v);
    var cs := Checks(o, v.history, th);
    VerdictByCheck(o, v.history, th, cs);
    HistoryCheck(v.history, th);
    assert cs[0].passed.None?;
  }

  /** Tradable exactly when every figure is known and meets its own threshold. */
  lemma TradableIff(position: OB.Side, quantity: int, v: View, th: Thresholds)
    ensures Screen(position, quantity, v, th).Tradable? <==> MayTrade(position, quantity, v, th)
  {
    if v.contract.Some? {
      ScreenByCheck(position, quantity, v, th, v.contract.value);
    } else {
      UnknownByCheck(position, quantity, v, th);
    }
  }

  /** Rejected exactly when some known figure misses its own threshold; all else needs a review. */
  lemma RejectedIff(position: OB.Side, quantity: int, v: View, th: Thresholds)
    ensures Screen(position, quantity, v, th).Rejected? <==> MustReject(position, quantity, v, th)
  {
    if v.contract.Some? {
      ScreenByCheck(position, quantity, v, th, v.contract.value);
    } else {
      UnknownByCheck(position, quantity, v, th);
    }
  }

  /** The gate of the signals: a size that is missing or below one is screened as one. */
  lemma SignalGateIff(position: OB.Side, suggested: int, v: View, th: Thresholds)
    ensures ScreenSignal(position, suggested, v, th).Tradable?
            <==> MayTrade(position, if suggested < 1 then 1 else suggested, v, th)
  {
    TradableIff(position, MaxInt(suggested, 1), v, th);
  }
}
