/** What the scanner's structures cost and bring, said of the quotes of their contracts. */
module ScannerQuotes {
  import opened Common
  import opened Sorting
  import opened Payoffs
  import opened PayoffShapes
  import opened Scanner
  import opened ScannerGuarantees

  // ---- Prices ---------------------------------------------------------------------------------------

  function LastOf(c: Contract): real { if Truthy(c.lastPrice) then c.lastPrice.value else 0.0 }

  /** A buyer pays the ask; the last price only stands in for a missing one. */
  function Paid(c: Contract): real { if Truthy(c.ask) then c.ask.value else LastOf(c) }

  /** A seller gets the bid, with the same stand-in. */
  function Got(c: Contract): real { if Truthy(c.bid) then c.bid.value else LastOf(c) }

  lemma LegTakesQuote(c: Contract, long: bool)
    ensures LegFrom(c, long).entryPrice == if long then Paid(c) else Got(c)
  {}

  /** Both quotes are there and positive. */
  predicate Quoted(c: Contract) { c.bid.Some? && c.ask.Some? && c.bid.value > 0.0 && c.ask.value > 0.0 }

  lemma QuotedPrices(c: Contract)
    requires Quoted(c)
    ensures Paid(c) == c.ask.value > 0.0 && Got(c) == c.bid.value > 0.0
  {}

  // ---- What the filters accept --------------------------------------------------------------------------

  lemma HalfBound(x: real, sum: real, limit: real)
    requires sum > 0.0
    ensures x / (sum / 2.0) <= limit <==> 2.0 * x <= limit * sum
  {
    DivideBound(x, sum / 2.0, limit);
    assert limit * (sum / 2.0) * 2.0 == limit * sum;
  }

  /** A usable contract: alive in the window of days, liquid, and soundly quoted or at least priced. */
  lemma AcceptedIff(f: ScanFilters, c: Contract, today: int)
    ensures f.Accepts(c, today)
            <==> && today + f.minDays <= c.expiry <= today + f.maxDays
                 && c.openInterest >= f.minOpenInterest && c.volume >= f.minVolume && c.strike > 0.0
                 && (f.requireBothQuotes ==>
                       && c.bid.Some? && c.ask.Some? && 0.0 < c.bid.value <= c.ask.value
                       && 2.0 * (c.ask.value - c.bid.value) <= f.maxRelativeSpread * (c.bid.value + c.ask.value))
                 && (!f.requireBothQuotes ==> Paid(c) != 0.0 || Got(c) != 0.0)
  {
    if c.bid.Some? && c.ask.Some? && c.bid.value > 0.0 && c.ask.value >= c.bid.value {
      HalfBound(c.ask.value - c.bid.value, c.bid.value + c.ask.value, f.maxRelativeSpread);
    }
  }

  // ---- Premium and turnover of legs of one size ---------------------------------------------------------

  ghost predicate OptionOfSize(c: Contract, size: int) { !c.kind.Underlying? && c.contractSize == size }

  lemma LegCost(c: Contract, long: bool, size: int)
    requires OptionOfSize(c, size)
    ensures LegFrom(c, long).EntryCost() == Worth(size, if long then Paid(c) else -Got(c))
  {
    WorthIsProduct(size, if long then Paid(c) else -Got(c));
  }

  lemma LegTurnover(c: Contract, long: bool, size: int)
    requires OptionOfSize(c, size) && Quoted(c) && size > 0
    ensures Abs(LegFrom(c, long).entryPrice * LegFrom(c, long).Units() as real)
         == Worth(size, if long then Paid(c) else Got(c))
  {
    WorthIsProduct(size, LegFrom(c, long).entryPrice);
    MulPositive(LegFrom(c, long).entryPrice, size as real);
  }

  lemma PremiumOfTwo(a: Leg, b: Leg)
    requires !a.instrument.Underlying? && !b.instrument.Underlying?
    ensures PremiumOf([a, b]) == a.EntryCost() + b.EntryCost()
  {
    assert [a, b][..1] == [a] && [a][..0] == [];
    assert PremiumOf([a]) == PremiumOf([]) + a.EntryCost();
  }

  lemma TurnoverOfTwo(a: Leg, b: Leg)
    ensures Turnover([a, b]) == Abs(a.entryPrice * a.Units() as real) + Abs(b.entryPrice * b.Units() as real)
  {
    assert [a, b][..1] == [a] && [a][..0] == [];
    assert Turnover([a]) == Turnover([]) + Abs(a.entryPrice * a.Units() as real);
  }

  lemma PremiumOfFour(a: Leg, b: Leg, c: Leg, d: Leg)
    requires !a.instrument.Underlying? && !b.instrument.Underlying?
    requires !c.instrument.Underlying? && !d.instrument.Underlying?
    ensures PremiumOf([a, b, c, d]) == a.EntryCost() + b.EntryCost() + c.EntryCost() + d.EntryCost()
  {
    assert [a, b, c, d][..3] == [a, b, c] && [a, b, c][..2] == [a, b];
    PremiumOfTwo(a, b);
    assert PremiumOf([a, b, c]) == PremiumOf([a, b]) + c.EntryCost();
  }

  lemma TurnoverOfFour(a: Leg, b: Leg, c: Leg, d: Leg)
    ensures Turnover([a, b, c, d])
         == Turnover([a, b]) + Abs(c.entryPrice * c.Units() as real) + Abs(d.entryPrice * d.Units() as real)
  {
    assert [a, b, c, d][..3] == [a, b, c] && [a, b, c][..2] == [a, b];
    assert Turnover([a, b, c]) == Turnover([a, b]) + Abs(c.entryPrice * c.Units() as real);
  }

  lemma WorthOfFour(size: int, a: real, b: real, c: real, d: real)
    ensures Worth(size, a) + Worth(size, b) + Worth(size, c) + Worth(size, d) == Worth(size, a + b + c + d)
  {
    WorthOfSum(size, a, b);
    WorthOfSum(size, a + b, c);
    WorthOfSum(size, a + b + c, d);
  }

  lemma WorthSign(size: int, x: real)
    requires size > 0
    ensures Worth(size, x) > 0.0 <==> x > 0.0
  {
    WorthIsProduct(size, x);
    BoundAfterScaling(x, 0.0, size as real);
  }

  /** The commission on what the quotes say is traded. */
  function Fee(rate: real, traded: real): real { if rate <= 0.0 then 0.0 else traded * rate }

  // ---- Iron condors -----------------------------------------------------------------------------------------

  /** Credit per share: the short contracts bring their bids, the long ones cost their asks. */
  function CreditOf(lp: Contract, sp: Contract, sc: Contract, lc: Contract): real {
    Got(sp) + Got(sc) - Paid(lp) - Paid(lc)
  }

  ghost predicate CondorKinds(lp: Contract, sp: Contract, sc: Contract, lc: Contract, size: int) {
    && lp.kind.Put? && sp.kind.Put? && sc.kind.Call? && lc.kind.Call?
    && lp.contractSize == sp.contractSize == sc.contractSize == lc.contractSize == size
  }

  lemma CondorPremium(
    f: ScanFilters, spot: real, lp: Contract, sp: Contract, sc: Contract, lc: Contract, size: int, s: Structure)
    requires CondorKinds(lp, sp, sc, lc, size) && s == CondorOf(f, spot, (lp, sp), (sc, lc)).structure
    ensures s.NetPremium() == -Worth(size, CreditOf(lp, sp, sc, lc))
  {
    PremiumOfFour(LegFrom(lp, true), LegFrom(sp, false), LegFrom(sc, false), LegFrom(lc, true));
    LegCost(lp, true, size);
    LegCost(sp, false, size);
    LegCost(sc, false, size);
    LegCost(lc, true, size);
    WorthOfFour(size, Paid(lp), -Got(sp), -Got(sc), Paid(lc));
    WorthOfOpposite(size, CreditOf(lp, sp, sc, lc));
    assert Paid(lp) + -Got(sp) + -Got(sc) + Paid(lc) == -CreditOf(lp, sp, sc, lc);
  }

  /** Four contracts of one size are a condor of the scanner exactly when the quotes leave a credit. */
  lemma CondorIffCredit(
    f: ScanFilters, chain: Chain, today: int, lp: Contract, sp: Contract, sc: Contract, lc: Contract, c: Candidate,
    size: int)
    requires size > 0 && CondorKinds(lp, sp, sc, lc, size) && c == CondorOf(f, chain.spot, (lp, sp), (sc, lc))
    requires FromOneExpiry(f, chain, today, [lp, sp, sc, lc])
    requires lp.strike < sp.strike < chain.spot < sc.strike < lc.strike
    ensures IsCondor(f, chain, today, lp, sp, sc, lc, c) <==> CreditOf(lp, sp, sc, lc) > 0.0
    ensures CreditOf(lp, sp, sc, lc) > 0.0 ==>
              c.structure.NetCredit() == Some(Worth(size, CreditOf(lp, sp, sc, lc)))
  {
    CondorPremium(f, chain.spot, lp, sp, sc, lc, size, c.structure);
    WorthSign(size, CreditOf(lp, sp, sc, lc));
  }

  lemma CondorCommission(
    f: ScanFilters, spot: real, lp: Contract, sp: Contract, sc: Contract, lc: Contract, size: int, s: Structure)
    requires CondorKinds(lp, sp, sc, lc, size) && s == CondorOf(f, spot, (lp, sp), (sc, lc)).structure && size > 0
    requires Quoted(lp) && Quoted(sp) && Quoted(sc) && Quoted(lc)
    ensures s.Commission() == Fee(f.commissionRate, Worth(size, Paid(lp) + Got(sp) + Got(sc) + Paid(lc)))
  {
    TurnoverOfTwo(LegFrom(lp, true), LegFrom(sp, false));
    TurnoverOfFour(LegFrom(lp, true), LegFrom(sp, false), LegFrom(sc, false), LegFrom(lc, true));
    LegTurnover(lp, true, size);
    LegTurnover(sp, false, size);
    LegTurnover(sc, false, size);
    LegTurnover(lc, true, size);
    WorthOfFour(size, Paid(lp), Got(sp), Got(sc), Paid(lc));
  }

  lemma SizeOfAll(lp: Contract, sp: Contract, sc: Contract, lc: Contract, size: int)
    requires SameSize([lp, sp, sc, lc], size)
    ensures lp.contractSize == sp.contractSize == sc.contractSize == lc.contractSize == size
  {
    assert lp in [lp, sp, sc, lc] && sp in [lp, sp, sc, lc] && sc in [lp, sp, sc, lc] && lc in [lp, sp, sc, lc];
  }

  /**
   * Credit, best and worst case of a condor of one size, in the quotes of its contracts: bids of
   * the short ones less asks of the long ones, the commission on all four, and the wider wing.
   */
  lemma CondorInQuotes(
    f: ScanFilters, chain: Chain, today: int, lp: Contract, sp: Contract, sc: Contract, lc: Contract, c: Candidate,
    size: int, wing: real, credit: real, fee: real, best: real, worst: real)
    requires IsCondor(f, chain, today, lp, sp, sc, lc, c) && size > 0 && SameSize([lp, sp, sc, lc], size)
    requires Quoted(lp) && Quoted(sp) && Quoted(sc) && Quoted(lc)
    requires wing == MaxReal(sp.strike - lp.strike, lc.strike - sc.strike)
    requires credit == sp.bid.value + sc.bid.value - lp.ask.value - lc.ask.value
    requires fee == Fee(f.commissionRate, Worth(size, lp.ask.value + sp.bid.value + sc.bid.value + lc.ask.value))
    requires best == Worth(size, credit) - fee && worst == Worth(size, credit - wing) - fee
    ensures credit > 0.0 && c.structure.NetCredit() == Some(Worth(size, credit))
    ensures c.structure.MaxProfit() == Some(best) && c.structure.MaxLoss() == Some(worst)
  {
    CondorMoney(f, chain, today, lp, sp, sc, lc, c, size, credit, fee);
    WorthOfDifference(size, credit, wing);
    CondorExtremes(f, chain, today, lp, sp, sc, lc, c, size, wing, best, worst);
  }

  lemma CondorMoney(
    f: ScanFilters, chain: Chain, today: int, lp: Contract, sp: Contract, sc: Contract, lc: Contract, c: Candidate,
    size: int, credit: real, fee: real)
    requires IsCondor(f, chain, today, lp, sp, sc, lc, c) && size > 0 && SameSize([lp, sp, sc, lc], size)
    requires Quoted(lp) && Quoted(sp) && Quoted(sc) && Quoted(lc)
    requires credit == sp.bid.value + sc.bid.value - lp.ask.value - lc.ask.value
    requires fee == Fee(f.commissionRate, Worth(size, lp.ask.value + sp.bid.value + sc.bid.value + lc.ask.value))
    ensures credit > 0.0 && c.structure.NetCredit() == Some(Worth(size, credit)) && c.structure.Commission() == fee
  {
    SizeOfAll(lp, sp, sc, lc, size);
    CondorIffCredit(f, chain, today, lp, sp, sc, lc, c, size);
    CondorCommission(f, chain.spot, lp, sp, sc, lc, size, c.structure);
  }

  lemma WorthOfDifference(size: int, x: real, y: real)
    ensures Worth(size, x - y) == Worth(size, x) - Worth(size, y)
  {
    WorthOfSum(size, x, y);
  }

  // ---- Vertical spreads --------------------------------------------------------------------------------------

  function LongOf(v: Variant, lower: Contract, upper: Contract): Contract { if v.longIsLower then lower else upper }

  function ShortOf(v: Variant, lower: Contract, upper: Contract): Contract { if v.longIsLower then upper else lower }

  lemma SpreadPremium(
    f: ScanFilters, spot: real, v: Variant, lower: Contract, upper: Contract, size: int, long: Contract,
    short: Contract, s: Structure)
    requires OptionOfSize(lower, size) && OptionOfSize(upper, size)
    requires s == SpreadOf(f, spot, v, lower, upper).structure
    requires long == LongOf(v, lower, upper) && short == ShortOf(v, lower, upper)
    ensures s.NetPremium() == Worth(size, Paid(long) - Got(short))
  {
    PremiumOfTwo(LegFrom(long, true), LegFrom(short, false));
    LegCost(long, true, size);
    LegCost(short, false, size);
    WorthOfSum(size, Paid(long), -Got(short));
    assert Paid(long) + -Got(short) == Paid(long) - Got(short);
  }

  lemma SpreadCommission(
    f: ScanFilters, spot: real, v: Variant, lower: Contract, upper: Contract, size: int, long: Contract,
    short: Contract, traded: real, s: Structure)
    requires OptionOfSize(lower, size) && OptionOfSize(upper, size) && Quoted(lower) && Quoted(upper) && size > 0
    requires s == SpreadOf(f, spot, v, lower, upper).structure
    requires long == LongOf(v, lower, upper) && short == ShortOf(v, lower, upper)
    requires traded == Worth(size, Paid(long) + Got(short))
    ensures s.Commission() == Fee(f.commissionRate, traded)
  {
    TurnoverOfTwo(LegFrom(long, true), LegFrom(short, false));
    LegTurnover(long, true, size);
    LegTurnover(short, false, size);
    WorthOfSum(size, Paid(long), Got(short));
  }

  /** A spread has its width to win when it is bought for a rise of its kind, and to lose when it is sold. */
  function Upper(v: Variant, width: real): real { if v.kind.Call? == v.longIsLower then width else 0.0 }

  lemma SpreadStructureIsPlain(
    f: ScanFilters, spot: real, v: Variant, lower: Contract, upper: Contract, size: int, s: Structure)
    requires OptionOfSize(lower, size) && OptionOfSize(upper, size) && 0.0 < lower.strike < upper.strike
    requires s == SpreadOf(f, spot, v, lower, upper).structure
    ensures s.Priced() && s.singleExpiry && OptionsOfSize(s.legs, size)
  {
    StrikesAreTheLegs(s.legs, lower.strike);
    assert s.legs[if v.longIsLower then 0 else 1].strike == Some(lower.strike);
  }

  /** Best and worst case of two contracts of one kind and size, whether the scanner takes them or not. */
  lemma SpreadBestAndWorst(
    f: ScanFilters, spot: real, v: Variant, lower: Contract, upper: Contract, size: int, width: real, high: real,
    s: Structure, best: real, worst: real)
    requires OptionOfSize(lower, size) && OptionOfSize(upper, size) && 0.0 < lower.strike < upper.strike && size > 0
    requires lower.kind == upper.kind == v.kind && width == upper.strike - lower.strike && high == Upper(v, width)
    requires s == SpreadOf(f, spot, v, lower, upper).structure
    requires best == Kept(s) + Worth(size, high) && worst == Kept(s) + Worth(size, high - width)
    ensures s.MaxProfit() == Some(best) && s.MaxLoss() == Some(worst)
  {
    SpreadStructureIsPlain(f, spot, v, lower, upper, size, s);
    PlainSpreadExtremes(
      v, lower, upper, size, width, high - width, s, best, worst, if v.longIsLower then lower.strike else upper.strike,
      if v.longIsLower then upper.strike else lower.strike);
  }

  lemma PlainSpreadExtremes(
    v: Variant, lower: Contract, upper: Contract, size: int, width: real, low: real, s: Structure, best: real,
    worst: real, lowAt: real, highAt: real)
    requires s.Priced() && s.singleExpiry && OptionsOfSize(s.legs, size) && size > 0
    requires !v.kind.Underlying? && lower.kind == upper.kind == v.kind && 0.0 < lower.strike < upper.strike
    requires s.legs == if v.longIsLower then [LegFrom(lower, true), LegFrom(upper, false)]
                       else [LegFrom(upper, true), LegFrom(lower, false)]
    requires width == upper.strike - lower.strike && low == SpreadLow(v, width)
    requires lowAt == (if v.longIsLower then lower.strike else upper.strike)
             && highAt == if v.longIsLower then upper.strike else lower.strike
    requires best == Kept(s) + Worth(size, low + width) && worst == Kept(s) + Worth(size, low)
    ensures s.MaxProfit() == Some(best) && s.MaxLoss() == Some(worst)
  {
    SpreadShapes(v, lower, upper, s.legs, width, low);
    BoundedShape(s, size, low, low + width, lowAt, highAt, worst, best);
  }

  lemma BothBounds(x: real, width: real, n: real, scaled: real, ceiling: real)
    requires n > 0.0 && scaled == x * n && ceiling == width * n
    ensures scaled <= ceiling <==> x <= width
    ensures -scaled <= ceiling <==> -x <= width
  {
    BoundAfterScaling(x, width, n);
    BoundAfterScaling(-x, width, n);
    assert (-x) * n == -scaled;
  }

  lemma CeilingInShares(size: int, width: real, paid: real, money: real, ceiling: real)
    requires size > 0 && money == Worth(size, paid) && ceiling == width * size as real
    ensures Abs(money) <= ceiling <==> -width <= paid <= width
  {
    WorthIsProduct(size, paid);
    BothBounds(paid, width, size as real, money, ceiling);
  }

  lemma SpreadMoney(
    f: ScanFilters, spot: real, v: Variant, lower: Contract, upper: Contract, size: int, long: Contract,
    short: Contract, paid: real, traded: real, s: Structure)
    requires OptionOfSize(lower, size) && OptionOfSize(upper, size) && Quoted(lower) && Quoted(upper) && size > 0
    requires s == SpreadOf(f, spot, v, lower, upper).structure
    requires long == LongOf(v, lower, upper) && short == ShortOf(v, lower, upper)
    requires paid == long.ask.value - short.bid.value && traded == Worth(size, long.ask.value + short.bid.value)
    ensures s.NetPremium() == Worth(size, paid) && s.Commission() == Fee(f.commissionRate, traded)
  {
    QuotedPrices(long);
    QuotedPrices(short);
    SpreadPremium(f, spot, v, lower, upper, size, long, short, s);
    SpreadCommission(f, spot, v, lower, upper, size, long, short, traded, s);
  }

  /**
   * Premium, best and worst case of two contracts of one kind and size, in their quotes: the ask
   * of the long one less the bid of the short one, the width, and the commission on both.
   */
  lemma SpreadInQuotes(
    f: ScanFilters, spot: real, v: Variant, lower: Contract, upper: Contract, size: int, width: real, paid: real,
    traded: real, fee: real, s: Structure, best: real, worst: real)
    requires OptionOfSize(lower, size) && OptionOfSize(upper, size) && 0.0 < lower.strike < upper.strike && size > 0
    requires lower.kind == upper.kind == v.kind && Quoted(lower) && Quoted(upper)
    requires width == upper.strike - lower.strike && s == SpreadOf(f, spot, v, lower, upper).structure
    requires paid == LongOf(v, lower, upper).ask.value - ShortOf(v, lower, upper).bid.value
    requires traded == Worth(size, LongOf(v, lower, upper).ask.value + ShortOf(v, lower, upper).bid.value)
             && fee == Fee(f.commissionRate, traded)
    requires best == Worth(size, Upper(v, width) - paid) - fee
             && worst == Worth(size, Upper(v, width) - width - paid) - fee
    ensures s.NetPremium() == Worth(size, paid)
    ensures s.MaxProfit() == Some(best) && s.MaxLoss() == Some(worst)
  {
    SpreadMoney(
      f, spot, v, lower, upper, size, LongOf(v, lower, upper), ShortOf(v, lower, upper), paid, traded, s);
    KeptAndWon(s, size, Upper(v, width), width, paid, fee, best, worst);
    SpreadBestAndWorst(f, spot, v, lower, upper, size, width, Upper(v, width), s, best, worst);
  }

  lemma KeptAndWon(
    s: Structure, size: int, high: real, width: real, paid: real, fee: real, best: real, worst: real)
    requires s.NetPremium() == Worth(size, paid) && s.Commission() == fee
    requires best == Worth(size, high - paid) - fee && worst == Worth(size, high - width - paid) - fee
    ensures best == Kept(s) + Worth(size, high) && worst == Kept(s) + Worth(size, high - width)
  {
    WorthOfDifference(size, high, paid);
    WorthOfDifference(size, high - width, paid);
  }

  predicate WidthFits(f: ScanFilters, spot: real, width: real) { spot > 0.0 ==> width <= f.maxSpreadWidthPct * spot }

  /** Not too wide for the spot, no dearer and no cheaper than its width, and with something to win. */
  predicate Worthwhile(f: ScanFilters, spot: real, width: real, paid: real, best: real) {
    WidthFits(f, spot, width) && -width <= paid <= width && best > 0.0
  }

  lemma WidthBySpots(f: ScanFilters, lower: Contract, upper: Contract, spot: real, width: real)
    requires width == SpreadWidth(lower, upper)
    ensures (spot > 0.0 ==> SpreadWidth(lower, upper) / spot <= f.maxSpreadWidthPct) <==> WidthFits(f, spot, width)
  {
    if spot > 0.0 {
      DivideBound(width, spot, f.maxSpreadWidthPct);
    }
  }

  lemma CeilingByShares(lower: Contract, upper: Contract, s: Structure, size: int, width: real, paid: real)
    requires width == SpreadWidth(lower, upper) && lower.contractSize == upper.contractSize == size > 0
    requires s.NetPremium() == Worth(size, paid)
    ensures Abs(s.NetPremium()) <= Ceiling(lower, upper) <==> -width <= paid <= width
  {
    CeilingInShares(size, width, paid, s.NetPremium(), Ceiling(lower, upper));
  }

  /** The checks on two contracts, given what their structure costs and can win. */
  lemma PassesByFigures(
    f: ScanFilters, spot: real, lower: Contract, upper: Contract, s: Structure, size: int, width: real, paid: real,
    best: real)
    requires lower.strike < upper.strike && width == upper.strike - lower.strike && size > 0
    requires lower.contractSize == upper.contractSize == size
    requires s.NetPremium() == Worth(size, paid) && s.MaxProfit() == Some(best)
    ensures SpreadPasses(f, spot, lower, upper, s)
            <==> Worthwhile(f, spot, width, paid, best)
  {
    CeilingByShares(lower, upper, s, size, width, paid);
    WidthBySpots(f, lower, upper, spot, width);
  }

  /**
   * Two contracts of one kind and size are a spread of the scanner exactly when, in their quotes,
   * the spread is not too wide for the spot, no dearer and no cheaper than its width, and can win
   * more than its commission.
   */
  lemma SpreadIffQuotes(
    f: ScanFilters, chain: Chain, v: Variant, today: int, lower: Contract, upper: Contract, c: Candidate, size: int,
    width: real, paid: real, traded: real, fee: real, best: real, worst: real)
    requires OptionOfSize(lower, size) && OptionOfSize(upper, size) && 0.0 < lower.strike < upper.strike && size > 0
    requires lower.kind == upper.kind == v.kind && Quoted(lower) && Quoted(upper)
    requires FromOneExpiry(f, chain, today, [lower, upper]) && c == SpreadOf(f, chain.spot, v, lower, upper)
    requires width == upper.strike - lower.strike
    requires paid == LongOf(v, lower, upper).ask.value - ShortOf(v, lower, upper).bid.value
    requires traded == Worth(size, LongOf(v, lower, upper).ask.value + ShortOf(v, lower, upper).bid.value)
             && fee == Fee(f.commissionRate, traded)
    requires best == Worth(size, Upper(v, width) - paid) - fee
             && worst == Worth(size, Upper(v, width) - width - paid) - fee
    ensures IsSpread(f, chain, v, today, lower, upper, c)
            <==> Worthwhile(f, chain.spot, width, paid, best)
  {
    SpreadInQuotes(f, chain.spot, v, lower, upper, size, width, paid, traded, fee, c.structure, best, worst);
    PassesByFigures(f, chain.spot, lower, upper, c.structure, size, width, paid, best);
  }

  // ---- Return and order ---------------------------------------------------------------------------------------

  lemma {:induction false} OptionsCostTheirPremium(legs: seq<Leg>, size: int)
    requires OptionsOfSize(legs, size)
    ensures EntryCosts(legs) == PremiumOf(legs)
  {
    if legs != [] {
      OptionsCostTheirPremium(legs[..|legs| - 1], size);
    }
  }

  /**
   * The return of a structure of options without a known margin: the best case over what it
   * costs, or over what it can lose when it costs nothing.
   */
  lemma ReturnOnRisk(s: Structure, size: int, cost: real, profit: real, loss: real)
    requires OptionsOfSize(s.legs, size) && s.requiredMargin.None? && cost == s.NetPremium() + s.Commission()
    requires s.MaxProfit() == Some(profit) && s.MaxLoss() == Some(loss)
    ensures cost > 0.0 ==> s.Roi() == Some(profit / cost)
    ensures cost <= 0.0 && loss < 0.0 ==> s.Roi() == Some(profit / -loss)
    ensures cost <= 0.0 && loss >= 0.0 ==> s.Roi().None?
  {
    OptionsCostTheirPremium(s.legs, size);
  }

  /** What the lists are ordered by; an unknown return counts as none. */
  function Return(c: Candidate): real { if c.structure.Roi().Some? then c.structure.Roi().value else 0.0 }

  lemma LeftOutIsBehind(sorted: seq<Candidate>, emitted: seq<Candidate>, c: Candidate) returns (j: nat)
    requires emitted <= sorted && c in sorted && c !in emitted
    ensures |emitted| <= j < |sorted| && sorted[j] == c
  {
    var rest := sorted[|emitted|..];
    assert sorted == emitted + rest;
    var k :| 0 <= k < |rest| && rest[k] == c;
    j := |emitted| + k;
  }

  /** The list holds candidates only, and as many as the limit allows. */
  lemma EmittedCount(all: seq<Candidate>, limit: int, emitted: seq<Candidate>)
    requires emitted == Take(SortBy(all, RoiKey), limit)
    ensures limit >= 0 ==> |emitted| == MinInt(limit, |all|)
    ensures forall c :: c in emitted ==> c in all
  {
    SameMembers(SortBy(all, RoiKey), all);
  }

  /** It is ordered by return, best first, and what it leaves out returns no more than what it holds. */
  lemma EmittedBestFirst(all: seq<Candidate>, limit: int, emitted: seq<Candidate>, i: int)
    requires emitted == Take(SortBy(all, RoiKey), limit) && 0 <= i < |emitted|
    ensures forall j :: i < j < |emitted| ==> Return(emitted[i]) >= Return(emitted[j])
    ensures forall c :: c in all && c !in emitted ==> Return(emitted[i]) >= Return(c)
  {
    var sorted := SortBy(all, RoiKey);
    forall j | i < j < |emitted| ensures Return(emitted[i]) >= Return(emitted[j]) {
      assert RoiKey(sorted[i]) <= RoiKey(sorted[j]);
    }
    forall c | c in all && c !in emitted ensures Return(emitted[i]) >= Return(c) {
      SameMembers(sorted, all);
      var j := LeftOutIsBehind(sorted, emitted, c);
      assert RoiKey(sorted[i]) <= RoiKey(sorted[j]);
    }
  }
}
