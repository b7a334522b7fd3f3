/** Structures of option legs only: what the probe engine reports when the payoff shape is bounded. */
module PayoffShapes {
  import opened Common
  import opened Payoffs

  function SignedIntrinsic(leg: Leg, price: real): real {
    if leg.long then leg.IntrinsicAt(price) else -leg.IntrinsicAt(price)
  }

  /** The expiry value of one unit of every leg: the payoff without size, premium and commission. */
  function Shape(legs: seq<Leg>, price: real): real {
    if legs == [] then 0.0
    else Shape(legs[..|legs| - 1], price) + SignedIntrinsic(legs[|legs| - 1], price)
  }

  /** Option legs only, each with one contract of `size`. */
  ghost predicate OptionsOfSize(legs: seq<Leg>, size: int) {
    forall i :: 0 <= i < |legs| ==>
      !legs[i].instrument.Underlying? && legs[i].strike.Some? && legs[i].quantity == 1 && legs[i].contractSize == size
  }

  lemma LegIsShape(leg: Leg, price: real)
    ensures leg.PayoffAt(price) == Worth(leg.Units(), SignedIntrinsic(leg, price)) - leg.EntryCost()
  {
    WorthIsProduct(leg.Units(), SignedIntrinsic(leg, price));
    Distribute(leg.Units() as real, leg.IntrinsicAt(price), leg.entryPrice);
  }

  lemma LegSumLast(legs: seq<Leg>, price: real)
    requires legs != []
    ensures LegSum(legs, price) == LegSum(legs[..|legs| - 1], price) + legs[|legs| - 1].PayoffAt(price)
  {
    assert LegValues(legs, price)[..|legs| - 1] == LegValues(legs[..|legs| - 1], price);
  }

  lemma {:induction false} LegSumIsShape(legs: seq<Leg>, price: real, size: int)
    requires OptionsOfSize(legs, size)
    ensures LegSum(legs, price) == Worth(size, Shape(legs, price)) - PremiumOf(legs)
  {
    if legs == [] {
      WorthIsProduct(size, 0.0);
    } else {
      var front, last := legs[..|legs| - 1], legs[|legs| - 1];
      LegSumIsShape(front, price, size);
      LegSumLast(legs, price);
      LegIsShape(last, price);
      WorthOfSum(size, Shape(front, price), SignedIntrinsic(last, price));
      assert PremiumOf(legs) == PremiumOf(front) + last.EntryCost();
    }
  }

  ghost predicate ShapeBetween(legs: seq<Leg>, low: real, high: real) {
    forall price :: price >= 0.0 ==> low <= Shape(legs, price) <= high
  }

  /** The premium received less the commission paid. */
  function Kept(s: Structure): real { -s.NetPremium() - s.Commission() }

  lemma PayoffIsShape(s: Structure, size: int, price: real)
    requires OptionsOfSize(s.legs, size)
    ensures s.Payoff(price) == Kept(s) + Worth(size, Shape(s.legs, price))
  {
    LegSumIsShape(s.legs, price, size);
  }

  lemma BoundsAreReported(s: Structure, size: int, low: real, high: real)
    requires s.Priced() && s.singleExpiry && size > 0 && OptionsOfSize(s.legs, size)
    requires s.AtMost(high) && s.AtLeast(low)
    ensures s.MaxProfit().Some? && s.MaxLoss().Some?
  {
    UniformStructures(s, size);
  }

  lemma PayoffBetween(s: Structure, size: int, low: real, high: real, price: real)
    requires OptionsOfSize(s.legs, size) && size > 0 && price >= 0.0 && ShapeBetween(s.legs, low, high)
    ensures Kept(s) + Worth(size, low) <= s.Payoff(price) <= Kept(s) + Worth(size, high)
  {
    PayoffIsShape(s, size, price);
    WorthIsMonotone(size, low, Shape(s.legs, price));
    WorthIsMonotone(size, Shape(s.legs, price), high);
  }

  lemma PayoffBounds(s: Structure, size: int, low: real, high: real, bottom: real, top: real)
    requires OptionsOfSize(s.legs, size) && size > 0 && ShapeBetween(s.legs, low, high)
    requires bottom == Kept(s) + Worth(size, low) && top == Kept(s) + Worth(size, high)
    ensures s.AtLeast(bottom) && s.AtMost(top)
  {
    forall price | price >= 0.0 ensures bottom <= s.Payoff(price) <= top {
      PayoffBetween(s, size, low, high, price);
    }
  }

  lemma ShapeIsAttained(s: Structure, size: int, shape: real, at: real, value: real)
    requires OptionsOfSize(s.legs, size) && at >= 0.0 && Shape(s.legs, at) == shape
             && value == Kept(s) + Worth(size, shape)
    ensures s.Attains(value)
  {
    PayoffIsShape(s, size, at);
  }

  /** Attained bounds of the shape give the reported maximum profit and loss. */
  lemma BoundedShape(s: Structure, size: int, low: real, high: real, lowAt: real, highAt: real, bottom: real, top: real)
    requires s.Priced() && s.singleExpiry && size > 0 && OptionsOfSize(s.legs, size) && ShapeBetween(s.legs, low, high)
    requires lowAt >= 0.0 && highAt >= 0.0 && Shape(s.legs, lowAt) == low && Shape(s.legs, highAt) == high
    requires bottom == Kept(s) + Worth(size, low) && top == Kept(s) + Worth(size, high)
    ensures s.MaxProfit() == Some(top) && s.MaxLoss() == Some(bottom)
  {
    PayoffBounds(s, size, low, high, bottom, top);
    ShapeIsAttained(s, size, low, lowAt, bottom);
    ShapeIsAttained(s, size, high, highAt, top);
    BoundsAreReported(s, size, bottom, top);
    TrueMaximumIsReported(s, top);
    TrueMinimumIsReported(s, bottom);
  }

  lemma ShapeOfTwo(a: Leg, b: Leg, price: real)
    ensures Shape([a, b], price) == SignedIntrinsic(a, price) + SignedIntrinsic(b, price)
  {
    assert [a, b][..1] == [a] && [a][..0] == [];
    assert Shape([a], price) == Shape([], price) + SignedIntrinsic(a, price);
  }

  lemma ShapeOfFour(a: Leg, b: Leg, c: Leg, d: Leg, price: real)
    ensures Shape([a, b, c, d], price)
         == SignedIntrinsic(a, price) + SignedIntrinsic(b, price)
            + SignedIntrinsic(c, price) + SignedIntrinsic(d, price)
  {
    assert [a, b, c, d][..3] == [a, b, c] && [a, b, c][..2] == [a, b];
    ShapeOfTwo(a, b, price);
    assert Shape([a, b, c], price) == Shape([a, b], price) + SignedIntrinsic(c, price);
  }
}

/** Iron condors and vertical spreads in a real option chain (strategies/scanner.py). */
module Scanner {
  import opened Common
  import opened Sorting
  import opened Payoffs
  import opened PayoffShapes

  datatype Contract = Contract(
    symbol: string, kind: Instrument, strike: real, expiry: int, bid: Option<real>, ask: Option<real>,
    lastPrice: Option<real>, openInterest: int, volume: int, contractSize: int)
  {
    function MidPrice(): Option<real> {
      if Truthy(bid) && Truthy(ask) then Some((bid.value + ask.value) / 2.0) else lastPrice
    }
  }

  datatype Chain = Chain(contracts: seq<Contract>, spot: real)

  datatype ScanFilters = ScanFilters(
    minDays: int, maxDays: int, minOpenInterest: int, maxRelativeSpread: real, requireBothQuotes: bool,
    minVolume: int, commissionRate: real, maxSpreadWidthPct: real)
  {
    predicate Accepts(c: Contract, today: int) {
      && minDays <= c.expiry - today <= maxDays
      && c.openInterest >= minOpenInterest && c.volume >= minVolume && c.strike > 0.0
      && if requireBothQuotes then QuotesSound(c) else Truthy(c.bid) || Truthy(c.ask) || Truthy(c.lastPrice)
    }

    predicate QuotesSound(c: Contract) {
      && c.bid.Some? && c.ask.Some? && c.bid.value > 0.0 && c.ask.value >= c.bid.value
      && (c.ask.value - c.bid.value) / ((c.bid.value + c.ask.value) / 2.0) <= maxRelativeSpread
    }
  }

  function FirstTruthy(a: Option<real>, b: Option<real>, c: Option<real>): real {
    if Truthy(a) then a.value else if Truthy(b) then b.value else if Truthy(c) then c.value else 0.0
  }

  /** A buyer pays the ask and a seller gets the bid; the mid and last price only stand in. */
  function LegFrom(c: Contract, long: bool): Leg {
    Leg(long, 1, FirstTruthy(if long then c.ask else c.bid, c.MidPrice(), c.lastPrice), c.contractSize, c.kind,
      Some(c.strike))
  }

  datatype Candidate = Candidate(contracts: seq<Contract>, structure: Structure)

  function Build(f: ScanFilters, spot: real, contracts: seq<Contract>, legs: seq<Leg>): Candidate {
    Candidate(contracts, Structure(legs, f.commissionRate, Some(spot), None, true))
  }

  // ---- Lists -----------------------------------------------------------------------------------

  /** All results of `f`, element by element in order. */
  function Collect<A(!new), B>(xs: seq<A>, f: A -> seq<B>): seq<B> {
    if xs == [] then [] else Collect(xs[..|xs| - 1], f) + f(xs[|xs| - 1])
  }

  lemma CollectStep<A(!new), B>(xs: seq<A>, f: A -> seq<B>, i: nat)
    requires i < |xs|
    ensures Collect(xs[..i + 1], f) == Collect(xs[..i], f) + f(xs[i])
  {
    assert xs[..i + 1][..i] == xs[..i];
  }

  lemma {:induction false} InCollect<A(!new), B>(xs: seq<A>, f: A -> seq<B>, y: B)
    ensures y in Collect(xs, f) <==> exists x :: x in xs && y in f(x)
  {
    if xs != [] {
      var front, last := xs[..|xs| - 1], xs[|xs| - 1];
      InCollect(front, f, y);
      assert xs == front + [last];
    }
  }

  function Filter<A(!new)>(xs: seq<A>, p: A -> bool): (r: seq<A>)
    ensures forall x :: x in r <==> x in xs && p(x)
  {
    if xs == [] then []
    else
      assert xs == xs[..|xs| - 1] + [xs[|xs| - 1]];
      Filter(xs[..|xs| - 1], p) + if p(xs[|xs| - 1]) then [xs[|xs| - 1]] else []
  }

  /** `combinations(xs, 2)`: every pair once, the earlier element first. */
  function Pairs<A(!new)>(xs: seq<A>): seq<(A, A)> {
    if xs == [] then [] else seq(|xs| - 1, i requires 0 <= i < |xs| - 1 => (xs[0], xs[i + 1])) + Pairs(xs[1..])
  }

  lemma {:induction false} InPairs<A(!new)>(xs: seq<A>, a: A, b: A)
    ensures (a, b) in Pairs(xs) <==> exists i, j :: 0 <= i < j < |xs| && xs[i] == a && xs[j] == b
  {
    if xs != [] {
      var tail, head := xs[1..], seq(|xs| - 1, i requires 0 <= i < |xs| - 1 => (xs[0], xs[i + 1]));
      InPairs(tail, a, b);
      if i, j :| 0 <= i < j < |xs| && xs[i] == a && xs[j] == b {
        if i == 0 {
          assert head[j - 1] == (a, b);
        } else {
          assert tail[i - 1] == a && tail[j - 1] == b;
        }
      }
      if (a, b) in head {
        var k :| 0 <= k < |head| && head[k] == (a, b);
        assert xs[0] == a && xs[k + 1] == b;
      }
      if i, j :| 0 <= i < j < |tail| && tail[i] == a && tail[j] == b {
        assert xs[i + 1] == a && xs[j + 1] == b;
      }
    }
  }

  /** Python's `xs[:limit]`, negative limits included. */
  function Take<A>(xs: seq<A>, limit: int): (r: seq<A>)
    ensures r <= xs && (limit >= 0 ==> |r| == MinInt(limit, |xs|))
  {
    if limit >= 0 then xs[..MinInt(limit, |xs|)] else xs[..MaxInt(|xs| + limit, 0)]
  }

  function LastFive<A>(xs: seq<A>): seq<A> { xs[MaxInt(|xs| - 5, 0)..] }

  /** The distinct expiries in order of first appearance. */
  function Expiries(cs: seq<Contract>): seq<int> {
    if cs == [] then []
    else
      var before, e := Expiries(cs[..|cs| - 1]), cs[|cs| - 1].expiry;
      if e in before then before else before + [e]
  }

  function OfExpiry(cs: seq<Contract>, e: int): (r: seq<Contract>)
    ensures forall c :: c in r <==> c in cs && c.expiry == e
  {
    if cs == [] then []
    else
      assert cs == cs[..|cs| - 1] + [cs[|cs| - 1]];
      OfExpiry(cs[..|cs| - 1], e) + if cs[|cs| - 1].expiry == e then [cs[|cs| - 1]] else []
  }

  lemma {:induction false} ExpiriesAreInUse(cs: seq<Contract>, e: int)
    ensures e in Expiries(cs) <==> OfExpiry(cs, e) != []
  {
    if cs != [] {
      var front, last := cs[..|cs| - 1], cs[|cs| - 1];
      ExpiriesAreInUse(front, e);
      if last.expiry == e {
        assert OfExpiry(cs, e)[|OfExpiry(front, e)|] == last;
        if e !in Expiries(front) { assert Expiries(cs)[|Expiries(front)|] == e; }
      } else {
        assert OfExpiry(cs, e) == OfExpiry(front, e);
      }
    }
  }

  method ByExpiry(cs: seq<Contract>) returns (order: seq<int>, groups: map<int, seq<Contract>>)
    ensures order == Expiries(cs) && forall e :: e in order ==> e in groups && groups[e] == OfExpiry(cs, e)
  {
    order, groups := [], map[];
    for i := 0 to |cs|
      invariant order == Expiries(cs[..i])
      invariant forall e :: e in groups <==> e in order
      invariant forall e :: e in groups ==> groups[e] == OfExpiry(cs[..i], e)
    {
      assert cs[..i + 1][..i] == cs[..i];
      var e := cs[i].expiry;
      ExpiriesAreInUse(cs[..i], e);
      if e !in groups {
        order, groups := order + [e], groups[e := []];
      }
      groups := groups[e := groups[e] + [cs[i]]];
    }
    assert cs[..|cs|] == cs;
  }

  /** Best return first; an unknown return counts as zero. */
  function RoiKey(c: Candidate): real {
    var roi := c.structure.Roi();
    if roi.Some? then -roi.value else 0.0
  }

  // ---- Iron condors -------------------------------------------------------------------------------

  function StrikeKey(c: Contract): real { c.strike }

  function Puts(cs: seq<Contract>, spot: real): (r: seq<Contract>)
    ensures forall c :: c in r <==> c in cs && c.kind.Put? && c.strike < spot
  {
    Filter(cs, (c: Contract) => c.kind.Put? && c.strike < spot)
  }

  function Calls(cs: seq<Contract>, spot: real): (r: seq<Contract>)
    ensures forall c :: c in r <==> c in cs && c.kind.Call? && c.strike > spot
  {
    Filter(cs, (c: Contract) => c.kind.Call? && c.strike > spot)
  }

  function PutsBelow(cs: seq<Contract>, spot: real): seq<Contract> { SortBy(Puts(cs, spot), StrikeKey) }

  function CallsAbove(cs: seq<Contract>, spot: real): seq<Contract> { SortBy(Calls(cs, spot), StrikeKey) }

  function CondorOf(f: ScanFilters, spot: real, puts: (Contract, Contract), calls: (Contract, Contract)): Candidate {
    Build(f, spot, [puts.0, puts.1, calls.0, calls.1],
          [LegFrom(puts.0, true), LegFrom(puts.1, false), LegFrom(calls.0, false), LegFrom(calls.1, true)])
  }

  /** The candidate of two puts and two calls, if its strikes ascend and it brings a credit. */
  function Condor(f: ScanFilters, spot: real, puts: (Contract, Contract), calls: (Contract, Contract)): seq<Candidate> {
    var c := CondorOf(f, spot, puts, calls);
    if puts.0.strike < puts.1.strike < calls.0.strike < calls.1.strike && c.structure.NetCredit().Some? then [c] else []
  }

  function CondorsOf(f: ScanFilters, spot: real, cs: seq<Contract>): seq<Candidate> {
    var puts, calls := PutsBelow(cs, spot), CallsAbove(cs, spot);
    if |puts| < 2 || |calls| < 2 then []
    else
      Collect(Pairs(LastFive(puts)), (pp: (Contract, Contract)) =>
        Collect(Pairs(Take(calls, 5)), (cp: (Contract, Contract)) => Condor(f, spot, pp, cp)))
  }

  function Usable(f: ScanFilters, chain: Chain, today: int): seq<Contract> {
    Filter(chain.contracts, (c: Contract) => f.Accepts(c, today))
  }

  function AllCondors(f: ScanFilters, chain: Chain, today: int): seq<Candidate> {
    var usable := Usable(f, chain, today);
    Collect(Expiries(usable), (e: int) => CondorsOf(f, chain.spot, OfExpiry(usable, e)))
  }

  /** The body of the innermost loop: strikes that do not ascend are passed over before anything is built. */
  method TryCondor(
    f: ScanFilters, spot: real, pp: (Contract, Contract), cp: (Contract, Contract)) returns (found: seq<Candidate>)
    ensures found == Condor(f, spot, pp, cp)
  {
    if pp.0.strike >= pp.1.strike || cp.0.strike >= cp.1.strike || pp.1.strike >= cp.0.strike {
      return [];
    }
    var c := CondorOf(f, spot, pp, cp);
    return if c.structure.NetCredit().None? then [] else [c];
  }

  method CondorsOfExpiry(f: ScanFilters, spot: real, cs: seq<Contract>) returns (results: seq<Candidate>)
    ensures results == CondorsOf(f, spot, cs)
  {
    var puts, calls := PutsBelow(cs, spot), CallsAbove(cs, spot);
    if |puts| < 2 || |calls| < 2 {
      return [];
    }
    results := [];
    var putPairs, callPairs := Pairs(LastFive(puts)), Pairs(Take(calls, 5));
    ghost var perPut := (pp: (Contract, Contract)) => Collect(callPairs,
      (cp: (Contract, Contract)) => Condor(f, spot, pp, cp));
    for i := 0 to |putPairs|
      invariant results == Collect(putPairs[..i], perPut)
    {
      CollectStep(putPairs, perPut, i);
      var found := CondorsOfPuts(f, spot, putPairs[i], callPairs);
      results := results + found;
    }
    assert putPairs[..|putPairs|] == putPairs;
  }

  method CondorsOfPuts(f: ScanFilters, spot: real, pp: (Contract, Contract), callPairs: seq<(Contract, Contract)>)
    returns (results: seq<Candidate>)
    ensures results == Collect(callPairs, (cp: (Contract, Contract)) => Condor(f, spot, pp, cp))
  {
    results := [];
    ghost var perCall := (cp: (Contract, Contract)) => Condor(f, spot, pp, cp);
    for j := 0 to |callPairs|
      invariant results == Collect(callPairs[..j], perCall)
    {
      CollectStep(callPairs, perCall, j);
      var found := TryCondor(f, spot, pp, callPairs[j]);
      results := results + found;
    }
    assert callPairs[..|callPairs|] == callPairs;
  }

  method CondorsByExpiry(f: ScanFilters, spot: real, usable: seq<Contract>) returns (results: seq<Candidate>)
    ensures results == Collect(Expiries(usable), (e: int) => CondorsOf(f, spot, OfExpiry(usable, e)))
  {
    var order, groups := ByExpiry(usable);
    ghost var perExpiry := (e: int) => CondorsOf(f, spot, OfExpiry(usable, e));
    results := [];
    for i := 0 to |order|
      invariant results == Collect(order[..i], perExpiry)
    {
      var e := order[i];
      CollectStep(order, perExpiry, i);
      assert e in groups;
      var found := CondorsOfExpiry(f, spot, groups[e]);
      results := results + found;
    }
    assert order[..|order|] == order;
  }

  method ScanIronCondor(f: ScanFilters, chain: Chain, today: int, limit: int) returns (results: seq<Candidate>)
    ensures results == Take(SortBy(AllCondors(f, chain, today), RoiKey), limit)
  {
    results := CondorsByExpiry(f, chain.spot, Usable(f, chain, today));
    results := Take(SortBy(results, RoiKey), limit);
  }

  // ---- Vertical spreads -----------------------------------------------------------------------------

  /** Which of the four vertical spreads: the option kind, and whether the lower strike is bought. */
  datatype Variant = Variant(kind: Instrument, longIsLower: bool)

  function SpreadOf(f: ScanFilters, spot: real, v: Variant, lower: Contract, upper: Contract): Candidate {
    var long, short := if v.longIsLower then lower else upper, if v.longIsLower then upper else lower;
    Build(f, spot, [lower, upper], [LegFrom(long, true), LegFrom(short, false)])
  }

  function SpreadWidth(lower: Contract, upper: Contract): real { upper.strike - lower.strike }

  function Ceiling(lower: Contract, upper: Contract): real {
    SpreadWidth(lower, upper) * MaxInt(lower.contractSize, upper.contractSize) as real
  }

  /** Wide, inconsistent or profitless spreads are passed over. */
  predicate SpreadPasses(f: ScanFilters, spot: real, lower: Contract, upper: Contract, s: Structure) {
    && lower.strike < upper.strike
    && (spot > 0.0 ==> SpreadWidth(lower, upper) / spot <= f.maxSpreadWidthPct)
    && Abs(s.NetPremium()) <= Ceiling(lower, upper)
    && (s.MaxProfit().Some? ==> s.MaxProfit().value > 0.0)
  }

  function Spread(f: ScanFilters, spot: real, v: Variant, pair: (Contract, Contract)): seq<Candidate> {
    var c := SpreadOf(f, spot, v, pair.0, pair.1);
    if SpreadPasses(f, spot, pair.0, pair.1, c.structure) then [c] else []
  }

  function OfKind(cs: seq<Contract>, kind: Instrument): (r: seq<Contract>)
    ensures forall c :: c in r <==> c in cs && c.kind == kind
  {
    Filter(cs, (c: Contract) => c.kind == kind)
  }

  function SortedOfKind(cs: seq<Contract>, kind: Instrument): seq<Contract> { SortBy(OfKind(cs, kind), StrikeKey) }

  function SpreadsOf(f: ScanFilters, spot: real, v: Variant, cs: seq<Contract>): seq<Candidate> {
    Collect(Pairs(SortedOfKind(cs, v.kind)), (pair: (Contract, Contract)) => Spread(f, spot, v, pair))
  }

  function AllSpreads(f: ScanFilters, chain: Chain, v: Variant, today: int): seq<Candidate> {
    var usable := Usable(f, chain, today);
    Collect(Expiries(usable), (e: int) => SpreadsOf(f, chain.spot, v, OfExpiry(usable, e)))
  }

  method TrySpread(
    f: ScanFilters, spot: real, v: Variant, lower: Contract, upper: Contract) returns (found: seq<Candidate>)
    ensures found == Spread(f, spot, v, (lower, upper))
  {
    if lower.strike >= upper.strike {
      return [];
    }
    var width := upper.strike - lower.strike;
    if spot > 0.0 && width / spot > f.maxSpreadWidthPct {
      return [];
    }
    var c := SpreadOf(f, spot, v, lower, upper);
    if Abs(c.structure.NetPremium()) > Ceiling(lower, upper) {
      return [];
    }
    var profit := c.structure.MaxProfit();
    if profit.Some? && profit.value <= 0.0 {
      return [];
    }
    return [c];
  }

  method SpreadsOfExpiry(f: ScanFilters, spot: real, v: Variant, cs: seq<Contract>) returns (results: seq<Candidate>)
    ensures results == SpreadsOf(f, spot, v, cs)
  {
    results := [];
    var pairs := Pairs(SortedOfKind(cs, v.kind));
    ghost var perPair := (pair: (Contract, Contract)) => Spread(f, spot, v, pair);
    for i := 0 to |pairs|
      invariant results == Collect(pairs[..i], perPair)
    {
      CollectStep(pairs, perPair, i);
      var found := TrySpread(f, spot, v, pairs[i].0, pairs[i].1);
      results := results + found;
    }
    assert pairs[..|pairs|] == pairs;
  }

  method SpreadsByExpiry(
    f: ScanFilters, spot: real, v: Variant, usable: seq<Contract>) returns (results: seq<Candidate>)
    ensures results == Collect(Expiries(usable), (e: int) => SpreadsOf(f, spot, v, OfExpiry(usable, e)))
  {
    var order, groups := ByExpiry(usable);
    ghost var perExpiry := (e: int) => SpreadsOf(f, spot, v, OfExpiry(usable, e));
    results := [];
    for i := 0 to |order|
      invariant results == Collect(order[..i], perExpiry)
    {
      var e := order[i];
      CollectStep(order, perExpiry, i);
      assert e in groups;
      var found := SpreadsOfExpiry(f, spot, v, groups[e]);
      results := results + found;
    }
    assert order[..|order|] == order;
  }

  method VerticalSpreads(
    f: ScanFilters, chain: Chain, v: Variant, today: int, limit: int) returns (results: seq<Candidate>)
    ensures results == Take(SortBy(AllSpreads(f, chain, v, today), RoiKey), limit)
  {
    results := SpreadsByExpiry(f, chain.spot, v, Usable(f, chain, today));
    results := Take(SortBy(results, RoiKey), limit);
  }
}

/** How many contracts lie nearer to the spot than a given one. */
module StrikeRanks {
  import opened Sorting
  import opened Scanner

  function Over(k: real): Contract -> bool { (c: Contract) => c.strike > k }

  function Under(k: real): Contract -> bool { (c: Contract) => c.strike < k }

  function At(k: real): Contract -> bool { (c: Contract) => c.strike == k }

  function OverOrAt(k: real): Contract -> bool { (c: Contract) => c.strike >= k }

  function UnderOrAt(k: real): Contract -> bool { (c: Contract) => c.strike <= k }

  // ---- Filters count ---------------------------------------------------------------------------

  /** Nothing behind position `n` passes, so at most `n` do; or everything before it does, so at least `n` do. */
  lemma {:induction false} CountFront<A(!new)>(xs: seq<A>, p: A -> bool, n: nat)
    requires n <= |xs|
    ensures (forall j :: n <= j < |xs| ==> !p(xs[j])) ==> |Filter(xs, p)| <= n
    ensures (forall j :: 0 <= j < n ==> p(xs[j])) ==> |Filter(xs, p)| >= n
  {
    if xs != [] {
      var front := xs[..|xs| - 1];
      CountFront(front, p, if n == |xs| then n - 1 else n);
      assert forall j :: 0 <= j < |front| ==> front[j] == xs[j];
    }
  }

  /** The same, counted from the back. */
  lemma {:induction false} CountBack<A(!new)>(xs: seq<A>, p: A -> bool, n: nat)
    requires n <= |xs|
    ensures (forall j :: 0 <= j < n ==> !p(xs[j])) ==> |Filter(xs, p)| <= |xs| - n
    ensures (forall j :: n <= j < |xs| ==> p(xs[j])) ==> |Filter(xs, p)| >= |xs| - n
  {
    if xs != [] {
      var front := xs[..|xs| - 1];
      CountBack(front, p, if n == |xs| then n - 1 else n);
      assert forall j :: 0 <= j < |front| ==> front[j] == xs[j];
    }
  }

  lemma {:induction false} FilterMultiset<A(!new)>(xs: seq<A>, p: A -> bool, x: A)
    ensures multiset(Filter(xs, p))[x] == if p(x) then multiset(xs)[x] else 0
  {
    if xs != [] {
      FilterMultiset(xs[..|xs| - 1], p, x);
      assert xs == xs[..|xs| - 1] + [xs[|xs| - 1]];
    }
  }

  lemma SameCount<A(!new)>(xs: seq<A>, ys: seq<A>, p: A -> bool)
    requires multiset(xs) == multiset(ys)
    ensures |Filter(xs, p)| == |Filter(ys, p)|
  {
    forall x ensures multiset(Filter(xs, p))[x] == multiset(Filter(ys, p))[x] {
      FilterMultiset(xs, p, x);
      FilterMultiset(ys, p, x);
    }
    assert multiset(Filter(xs, p)) == multiset(Filter(ys, p));
    SameMembers(Filter(xs, p), Filter(ys, p));
  }

  lemma {:induction false} CountSplits<A(!new)>(xs: seq<A>, p: A -> bool, q: A -> bool, r: A -> bool)
    requires forall x :: (r(x) <==> p(x) || q(x)) && !(p(x) && q(x))
    ensures |Filter(xs, r)| == |Filter(xs, p)| + |Filter(xs, q)|
  {
    if xs != [] {
      CountSplits(xs[..|xs| - 1], p, q, r);
    }
  }

  // ---- Ranks in a sorted list ------------------------------------------------------------------

  lemma Ascending(s: seq<Contract>, i: int, j: int)
    requires SortedBy(s, StrikeKey) && 0 <= i <= j < |s|
    ensures s[i].strike <= s[j].strike
  {
    assert StrikeKey(s[i]) <= StrikeKey(s[j]);
  }

  lemma RankFromBelow(s: seq<Contract>, i: nat, k: real)
    requires i < |s| && SortedBy(s, StrikeKey) && k == s[i].strike
    ensures |Filter(s, Under(k))| <= i && |Filter(s, UnderOrAt(k))| >= i + 1
  {
    forall j | i <= j < |s| ensures !Under(k)(s[j]) { Ascending(s, i, j); }
    forall j | 0 <= j < i + 1 ensures UnderOrAt(k)(s[j]) { Ascending(s, j, i); }
    CountFront(s, Under(k), i);
    CountFront(s, UnderOrAt(k), i + 1);
  }

  lemma RankFromAbove(s: seq<Contract>, i: nat, k: real)
    requires i < |s| && SortedBy(s, StrikeKey) && k == s[i].strike
    ensures |Filter(s, Over(k))| <= |s| - 1 - i && |Filter(s, OverOrAt(k))| >= |s| - i
  {
    forall j | 0 <= j < i + 1 ensures !Over(k)(s[j]) { Ascending(s, j, i); }
    forall j | i <= j < |s| ensures OverOrAt(k)(s[j]) { Ascending(s, i, j); }
    CountBack(s, Over(k), i + 1);
    CountBack(s, OverOrAt(k), i);
  }

  // ---- The five nearest ----------------------------------------------------------------------------

  /** Fewer than five puts below the spot have a higher strike. */
  ghost predicate NearPut(cs: seq<Contract>, spot: real, k: real) { |Filter(Puts(cs, spot), Over(k))| < 5 }

  ghost predicate NearCall(cs: seq<Contract>, spot: real, k: real) { |Filter(Calls(cs, spot), Under(k))| < 5 }

  /** At most five puts below the spot, equal strikes included, have this strike or a higher one. */
  ghost predicate InsidePut(cs: seq<Contract>, spot: real, k: real) { |Filter(Puts(cs, spot), OverOrAt(k))| <= 5 }

  ghost predicate InsideCall(cs: seq<Contract>, spot: real, k: real) { |Filter(Calls(cs, spot), UnderOrAt(k))| <= 5 }

  /** No two puts below the spot and no two calls above it share a strike. */
  ghost predicate OnePerStrike(cs: seq<Contract>, spot: real) {
    forall k :: |Filter(Puts(cs, spot), At(k))| <= 1 && |Filter(Calls(cs, spot), At(k))| <= 1
  }

  lemma LastFiveAreNear(cs: seq<Contract>, spot: real, i: nat)
    requires i < |PutsBelow(cs, spot)| && i >= |PutsBelow(cs, spot)| - 5
    ensures NearPut(cs, spot, PutsBelow(cs, spot)[i].strike)
  {
    RankFromAbove(PutsBelow(cs, spot), i, PutsBelow(cs, spot)[i].strike);
    SameCount(PutsBelow(cs, spot), Puts(cs, spot), Over(PutsBelow(cs, spot)[i].strike));
  }

  lemma InsideIsInLastFive(cs: seq<Contract>, spot: real, i: nat, k: real)
    requires i < |PutsBelow(cs, spot)| && k == PutsBelow(cs, spot)[i].strike && InsidePut(cs, spot, k)
    ensures i >= |PutsBelow(cs, spot)| - 5
  {
    RankFromAbove(PutsBelow(cs, spot), i, k);
    SameCount(PutsBelow(cs, spot), Puts(cs, spot), OverOrAt(k));
  }

  lemma FirstFiveAreNear(cs: seq<Contract>, spot: real, i: nat)
    requires i < |CallsAbove(cs, spot)| && i < 5
    ensures NearCall(cs, spot, CallsAbove(cs, spot)[i].strike)
  {
    RankFromBelow(CallsAbove(cs, spot), i, CallsAbove(cs, spot)[i].strike);
    SameCount(CallsAbove(cs, spot), Calls(cs, spot), Under(CallsAbove(cs, spot)[i].strike));
  }

  lemma InsideIsInFirstFive(cs: seq<Contract>, spot: real, i: nat, k: real)
    requires i < |CallsAbove(cs, spot)| && k == CallsAbove(cs, spot)[i].strike && InsideCall(cs, spot, k)
    ensures i < 5
  {
    RankFromBelow(CallsAbove(cs, spot), i, k);
    SameCount(CallsAbove(cs, spot), Calls(cs, spot), UnderOrAt(k));
  }

  /** Without equal strikes to be near is to be inside. */
  lemma NearIsInside(cs: seq<Contract>, spot: real, lower: real, upper: real)
    requires OnePerStrike(cs, spot) && NearPut(cs, spot, lower) && NearCall(cs, spot, upper)
    ensures InsidePut(cs, spot, lower) && InsideCall(cs, spot, upper)
  {
    CountSplits(Puts(cs, spot), Over(lower), At(lower), OverOrAt(lower));
    CountSplits(Calls(cs, spot), Under(upper), At(upper), UnderOrAt(upper));
    assert |Filter(Puts(cs, spot), At(lower))| <= 1 && |Filter(Calls(cs, spot), At(upper))| <= 1;
  }

  // ---- Pairs of the five nearest ----------------------------------------------------------------

  lemma PutPairIsNear(cs: seq<Contract>, spot: real, puts: (Contract, Contract))
    requires puts in Pairs(LastFive(PutsBelow(cs, spot)))
    ensures NearPut(cs, spot, puts.0.strike)
  {
    var sorted, five := PutsBelow(cs, spot), LastFive(PutsBelow(cs, spot));
    InPairs(five, puts.0, puts.1);
    var i :| 0 <= i < |five| && five[i] == puts.0;
    LastFiveAreNear(cs, spot, |sorted| - |five| + i);
  }

  lemma CallPairIsNear(cs: seq<Contract>, spot: real, calls: (Contract, Contract))
    requires calls in Pairs(Take(CallsAbove(cs, spot), 5))
    ensures NearCall(cs, spot, calls.1.strike)
  {
    var five := Take(CallsAbove(cs, spot), 5);
    InPairs(five, calls.0, calls.1);
    var j :| 0 <= j < |five| && five[j] == calls.1;
    FirstFiveAreNear(cs, spot, j);
  }

  lemma PairAt(xs: seq<Contract>, i: int, j: int)
    requires 0 <= i < j < |xs|
    ensures (xs[i], xs[j]) in Pairs(xs)
  {
    InPairs(xs, xs[i], xs[j]);
  }

  /** Where two contracts of different strikes stand in a sorted list. */
  lemma Positions(xs: seq<Contract>, lower: Contract, upper: Contract) returns (i: nat, j: nat)
    requires lower in xs && upper in xs && lower.strike < upper.strike
    ensures var s := SortBy(xs, StrikeKey); i < j < |s| && s[i] == lower && s[j] == upper
  {
    var s := SortBy(xs, StrikeKey);
    SameMembers(s, xs);
    i :| 0 <= i < |s| && s[i] == lower;
    j :| 0 <= j < |s| && s[j] == upper;
    if j <= i { Ascending(s, j, i); }
  }

  lemma LastFiveArePaired(sorted: seq<Contract>, i: int, j: int)
    requires 0 <= i < j < |sorted| && i >= |sorted| - 5
    ensures (sorted[i], sorted[j]) in Pairs(LastFive(sorted))
  {
    var five := LastFive(sorted);
    var skipped := |sorted| - |five|;
    PairAt(five, i - skipped, j - skipped);
  }

  lemma InsidePutsArePaired(cs: seq<Contract>, spot: real, lower: Contract, upper: Contract)
    requires lower in Puts(cs, spot) && upper in Puts(cs, spot)
    requires lower.strike < upper.strike && InsidePut(cs, spot, lower.strike)
    ensures |PutsBelow(cs, spot)| >= 2 && (lower, upper) in Pairs(LastFive(PutsBelow(cs, spot)))
  {
    var i, j := Positions(Puts(cs, spot), lower, upper);
    InsideIsInLastFive(cs, spot, i, lower.strike);
    LastFiveArePaired(PutsBelow(cs, spot), i, j);
  }

  lemma InsideCallsArePaired(cs: seq<Contract>, spot: real, lower: Contract, upper: Contract)
    requires lower in Calls(cs, spot) && upper in Calls(cs, spot)
    requires lower.strike < upper.strike && InsideCall(cs, spot, upper.strike)
    ensures |CallsAbove(cs, spot)| >= 2 && (lower, upper) in Pairs(Take(CallsAbove(cs, spot), 5))
  {
    var i, j := Positions(Calls(cs, spot), lower, upper);
    InsideIsInFirstFive(cs, spot, j, upper.strike);
    PairAt(Take(CallsAbove(cs, spot), 5), i, j);
  }
}

/** What every emitted structure is. */
module ScannerGuarantees {
  import opened Common
  import opened Sorting
  import opened Payoffs
  import opened PayoffShapes
  import opened Scanner
  import opened StrikeRanks

  // ---- Where the candidates come from --------------------------------------------------------------

  lemma EmittedAreCandidates(all: seq<Candidate>, limit: int, c: Candidate)
    requires c in Take(SortBy(all, RoiKey), limit)
    ensures c in all
  {
    SameMembers(SortBy(all, RoiKey), all);
  }

  ghost predicate FromOneExpiry(f: ScanFilters, chain: Chain, today: int, cs: seq<Contract>) {
    forall c :: c in cs ==> c in chain.contracts && f.Accepts(c, today) && c.expiry == cs[0].expiry
  }

  ghost predicate IsCondor(
    f: ScanFilters, chain: Chain, today: int, lp: Contract, sp: Contract, sc: Contract, lc: Contract, c: Candidate) {
    && c == CondorOf(f, chain.spot, (lp, sp), (sc, lc))
    && FromOneExpiry(f, chain, today, [lp, sp, sc, lc])
    && lp.kind.Put? && sp.kind.Put? && sc.kind.Call? && lc.kind.Call?
    && lp.strike < sp.strike < chain.spot < sc.strike < lc.strike
    && c.structure.NetCredit().Some?
  }

  lemma PairMembers<A(!new)>(xs: seq<A>, p: (A, A))
    requires p in Pairs(xs)
    ensures p.0 in xs && p.1 in xs
  {
    InPairs(xs, p.0, p.1);
  }

  lemma FromCollect<A(!new), B>(xs: seq<A>, f: A -> seq<B>, y: B) returns (x: A)
    requires y in Collect(xs, f)
    ensures x in xs && y in f(x)
  {
    InCollect(xs, f, y);
    x :| x in xs && y in f(x);
  }

  lemma SortedMembers(xs: seq<Contract>)
    ensures forall c :: c in SortBy(xs, StrikeKey) <==> c in xs
  {
    SameMembers(SortBy(xs, StrikeKey), xs);
  }

  lemma CondorPuts(cs: seq<Contract>, spot: real, puts: (Contract, Contract))
    requires puts in Pairs(LastFive(PutsBelow(cs, spot)))
    ensures forall c :: c in [puts.0, puts.1] ==> c in cs && c.kind.Put? && c.strike < spot
  {
    PairMembers(LastFive(PutsBelow(cs, spot)), puts);
    SortedMembers(Puts(cs, spot));
  }

  lemma CondorCalls(cs: seq<Contract>, spot: real, calls: (Contract, Contract))
    requires calls in Pairs(Take(CallsAbove(cs, spot), 5))
    ensures forall c :: c in [calls.0, calls.1] ==> c in cs && c.kind.Call? && c.strike > spot
  {
    PairMembers(Take(CallsAbove(cs, spot), 5), calls);
    SortedMembers(Calls(cs, spot));
  }

  lemma CondorParts(f: ScanFilters, spot: real, cs: seq<Contract>, c: Candidate)
    returns (puts: (Contract, Contract), calls: (Contract, Contract))
    requires c in CondorsOf(f, spot, cs)
    ensures puts in Pairs(LastFive(PutsBelow(cs, spot))) && calls in Pairs(Take(CallsAbove(cs, spot), 5))
    ensures c in Condor(f, spot, puts, calls)
  {
    var putPairs, callPairs := Pairs(LastFive(PutsBelow(cs, spot))), Pairs(Take(CallsAbove(cs, spot), 5));
    puts := FromCollect(
      putPairs,
        (pp: (Contract, Contract)) => Collect(callPairs, (cp: (Contract, Contract)) => Condor(f, spot, pp, cp)), c);
    calls := FromCollect(callPairs, (cp: (Contract, Contract)) => Condor(f, spot, puts, cp), c);
  }

  /** Fewer than five usable puts (calls) of this expiry lie between the spot and the outer put (call). */
  ghost predicate OuterAreNear(f: ScanFilters, chain: Chain, today: int, lp: Contract, lc: Contract) {
    var cs := OfExpiry(Usable(f, chain, today), lp.expiry);
    NearPut(cs, chain.spot, lp.strike) && NearCall(cs, chain.spot, lc.strike)
  }

  /** At most five usable puts (calls) of this expiry are as near to the spot as the outer put (call). */
  ghost predicate OuterAreInside(f: ScanFilters, chain: Chain, today: int, lp: Contract, lc: Contract) {
    var cs := OfExpiry(Usable(f, chain, today), lp.expiry);
    InsidePut(cs, chain.spot, lp.strike) && InsideCall(cs, chain.spot, lc.strike)
  }

  ghost predicate CondorOfFour(f: ScanFilters, chain: Chain, today: int, c: Candidate) {
    exists lp, sp, sc, lc :: IsCondor(f, chain, today, lp, sp, sc, lc, c) && OuterAreNear(f, chain, today, lp, lc)
  }

  lemma PartsOfOneExpiry(f: ScanFilters, chain: Chain, today: int, e: int, parts: seq<Contract>)
    requires forall x :: x in parts ==> x in OfExpiry(Usable(f, chain, today), e)
    ensures FromOneExpiry(f, chain, today, parts) && forall x :: x in parts ==> x.expiry == e
  {
    forall x | x in parts ensures x in chain.contracts && f.Accepts(x, today) && x.expiry == e && parts[0].expiry == e {
      assert parts[0] in parts;
    }
  }

  lemma CondorFromParts(
    f: ScanFilters, chain: Chain, today: int, e: int, lp: Contract, sp: Contract, sc: Contract, lc: Contract,
    c: Candidate)
    requires FromOneExpiry(f, chain, today, [lp, sp, sc, lc]) && lp.expiry == e
    requires lp.kind.Put? && sp.kind.Put? && sc.kind.Call? && lc.kind.Call? && sp.strike < chain.spot < sc.strike
    requires c in Condor(f, chain.spot, (lp, sp), (sc, lc))
    requires NearPut(OfExpiry(Usable(f, chain, today), e), chain.spot, lp.strike)
             && NearCall(OfExpiry(Usable(f, chain, today), e), chain.spot, lc.strike)
    ensures CondorOfFour(f, chain, today, c)
  {
    assert IsCondor(f, chain, today, lp, sp, sc, lc, c) && OuterAreNear(f, chain, today, lp, lc);
  }

  lemma CondorOfOneExpiry(f: ScanFilters, chain: Chain, today: int, e: int, c: Candidate)
    ensures c in CondorsOf(f, chain.spot, OfExpiry(Usable(f, chain, today), e)) ==> CondorOfFour(f, chain, today, c)
  {
    var cs := OfExpiry(Usable(f, chain, today), e);
    if c in CondorsOf(f, chain.spot, cs) {
      var puts, calls := CondorParts(f, chain.spot, cs, c);
      CondorPuts(cs, chain.spot, puts);
      CondorCalls(cs, chain.spot, calls);
      PutPairIsNear(cs, chain.spot, puts);
      CallPairIsNear(cs, chain.spot, calls);
      var four := [puts.0, puts.1, calls.0, calls.1];
      assert puts.0 in [puts.0, puts.1] && puts.1 in [puts.0, puts.1] && calls.0 in [calls.0, calls.1]
             && calls.1 in [calls.0, calls.1];
      PartsOfOneExpiry(f, chain, today, e, four);
      assert puts.0 in four;
      CondorFromParts(f, chain, today, e, puts.0, puts.1, calls.0, calls.1, c);
    }
  }

  lemma CandidateIsCondor(f: ScanFilters, chain: Chain, today: int, c: Candidate)
    ensures c in AllCondors(f, chain, today) ==> CondorOfFour(f, chain, today, c)
  {
    var usable := Usable(f, chain, today);
    if c in AllCondors(f, chain, today) {
      var e := FromCollect(Expiries(usable), (e: int) => CondorsOf(f, chain.spot, OfExpiry(usable, e)), c);
      CondorOfOneExpiry(f, chain, today, e, c);
    }
  }

  /**
   * Every emitted condor: four accepted contracts of one expiry, strikes ascending around the
   * spot, the outer ones among the five of their kind nearest the spot.
   */
  lemma EmittedCondor(f: ScanFilters, chain: Chain, today: int, limit: int, c: Candidate)
    ensures c in Take(SortBy(AllCondors(f, chain, today), RoiKey), limit) ==> CondorOfFour(f, chain, today, c)
  {
    if c in Take(SortBy(AllCondors(f, chain, today), RoiKey), limit) {
      EmittedAreCandidates(AllCondors(f, chain, today), limit, c);
      CandidateIsCondor(f, chain, today, c);
    }
  }

  lemma ToCollect<A(!new), B>(xs: seq<A>, f: A -> seq<B>, x: A, y: B)
    requires x in xs && y in f(x)
    ensures y in Collect(xs, f)
  {
    InCollect(xs, f, y);
  }

  lemma CondorIsFoundInExpiry(
    f: ScanFilters, spot: real, cs: seq<Contract>, puts: (Contract, Contract), calls: (Contract, Contract),
    c: Candidate)
    requires puts in Pairs(LastFive(PutsBelow(cs, spot))) && calls in Pairs(Take(CallsAbove(cs, spot), 5))
    requires |PutsBelow(cs, spot)| >= 2 && |CallsAbove(cs, spot)| >= 2 && c in Condor(f, spot, puts, calls)
    ensures c in CondorsOf(f, spot, cs)
  {
    var callPairs := Pairs(Take(CallsAbove(cs, spot), 5));
    var perPut := (pp: (Contract, Contract)) => Collect(callPairs,
      (cp: (Contract, Contract)) => Condor(f, spot, pp, cp));
    ToCollect(callPairs, (cp: (Contract, Contract)) => Condor(f, spot, puts, cp), calls, c);
    assert c in perPut(puts);
    ToCollect(Pairs(LastFive(PutsBelow(cs, spot))), perPut, puts, c);
  }

  lemma CondorContracts(
    f: ScanFilters, chain: Chain, today: int, lp: Contract, sp: Contract, sc: Contract, lc: Contract, c: Candidate,
    cs: seq<Contract>)
    requires cs == OfExpiry(Usable(f, chain, today), lp.expiry) && IsCondor(f, chain, today, lp, sp, sc, lc, c)
    ensures lp in Puts(cs, chain.spot) && sp in Puts(cs, chain.spot)
    ensures sc in Calls(cs, chain.spot) && lc in Calls(cs, chain.spot)
    ensures lp.expiry in Expiries(Usable(f, chain, today)) && c in Condor(f, chain.spot, (lp, sp), (sc, lc))
  {
    assert lp in [lp, sp, sc, lc] && sp in [lp, sp, sc, lc] && sc in [lp, sp, sc, lc] && lc in [lp, sp, sc, lc];
    ExpiriesAreInUse(Usable(f, chain, today), lp.expiry);
  }

  lemma CondorIsCandidate(
    f: ScanFilters, chain: Chain, today: int, lp: Contract, sp: Contract, sc: Contract, lc: Contract, c: Candidate,
    cs: seq<Contract>)
    requires cs == OfExpiry(Usable(f, chain, today), lp.expiry)
    requires IsCondor(f, chain, today, lp, sp, sc, lc, c) && OuterAreInside(f, chain, today, lp, lc)
    ensures lp.expiry in Expiries(Usable(f, chain, today)) && c in CondorsOf(f, chain.spot, cs)
  {
    CondorContracts(f, chain, today, lp, sp, sc, lc, c, cs);
    InsidePutsArePaired(cs, chain.spot, lp, sp);
    InsideCallsArePaired(cs, chain.spot, sc, lc);
    CondorIsFoundInExpiry(f, chain.spot, cs, (lp, sp), (sc, lc), c);
  }

  /** A condor of four accepted contracts is a candidate if its outer ones are inside. */
  lemma CondorIsFound(
    f: ScanFilters, chain: Chain, today: int, lp: Contract, sp: Contract, sc: Contract, lc: Contract, c: Candidate)
    requires IsCondor(f, chain, today, lp, sp, sc, lc, c) && OuterAreInside(f, chain, today, lp, lc)
    ensures c in AllCondors(f, chain, today)
  {
    var usable := Usable(f, chain, today);
    CondorIsCandidate(f, chain, today, lp, sp, sc, lc, c, OfExpiry(usable, lp.expiry));
    ToCollect(Expiries(usable), (e: int) => CondorsOf(f, chain.spot, OfExpiry(usable, e)), lp.expiry, c);
  }

  /**
   * With one usable put and call per strike the candidates are exactly the condors whose outer
   * put and call have fewer than five usable ones of their expiry between them and the spot.
   */
  lemma CandidatesAreTheNear(f: ScanFilters, chain: Chain, today: int, c: Candidate)
    requires forall e :: OnePerStrike(OfExpiry(Usable(f, chain, today), e), chain.spot)
    ensures c in AllCondors(f, chain, today) <==> CondorOfFour(f, chain, today, c)
  {
    if lp, sp, sc, lc :|
        IsCondor(f, chain, today, lp, sp, sc, lc, c) && OuterAreNear(f, chain, today, lp, lc) {
      NearIsInside(OfExpiry(Usable(f, chain, today), lp.expiry), chain.spot, lp.strike, lc.strike);
      CondorIsFound(f, chain, today, lp, sp, sc, lc, c);
    }
    CandidateIsCondor(f, chain, today, c);
  }

  // ---- Extremes of the iron condor -----------------------------------------------------------------------

  function CondorShape(k1: real, k2: real, k3: real, k4: real, p: real): real {
    MaxReal(k1 - p, 0.0) - MaxReal(k2 - p, 0.0) - MaxReal(p - k3, 0.0) + MaxReal(p - k4, 0.0)
  }

  lemma CondorShapeBounds(k1: real, k2: real, k3: real, k4: real, p: real)
    requires k1 < k2 < k3 < k4
    ensures -MaxReal(k2 - k1, k4 - k3) <= CondorShape(k1, k2, k3, k4, p) <= 0.0
    ensures CondorShape(k1, k2, k3, k4, k2) == 0.0
    ensures CondorShape(k1, k2, k3, k4, k1) == k1 - k2 && CondorShape(k1, k2, k3, k4, k4) == k3 - k4
  {}

  lemma CondorLegs(lp: Contract, sp: Contract, sc: Contract, lc: Contract, legs: seq<Leg>, p: real)
    requires lp.kind.Put? && sp.kind.Put? && sc.kind.Call? && lc.kind.Call?
    requires legs == [LegFrom(lp, true), LegFrom(sp, false), LegFrom(sc, false), LegFrom(lc, true)]
    ensures Shape(legs, p) == CondorShape(lp.strike, sp.strike, sc.strike, lc.strike, p)
  {
    ShapeOfFour(legs[0], legs[1], legs[2], legs[3], p);
  }

  ghost predicate SameSize(cs: seq<Contract>, size: int) { forall c :: c in cs ==> c.contractSize == size }

  /** A priced structure of these four options, all of one size and with strikes in order. */
  ghost predicate PlainCondor(s: Structure, lp: Contract, sp: Contract, sc: Contract, lc: Contract, size: int) {
    && lp.kind.Put? && sp.kind.Put? && sc.kind.Call? && lc.kind.Call?
    && 0.0 < lp.strike < sp.strike < sc.strike < lc.strike
    && s.legs == [LegFrom(lp, true), LegFrom(sp, false), LegFrom(sc, false), LegFrom(lc, true)]
    && s.Priced() && s.singleExpiry && OptionsOfSize(s.legs, size)
  }

  lemma CondorIsPlain(
    f: ScanFilters, chain: Chain, today: int, lp: Contract, sp: Contract, sc: Contract, lc: Contract, c: Candidate,
    size: int)
    requires IsCondor(f, chain, today, lp, sp, sc, lc, c) && SameSize([lp, sp, sc, lc], size)
    ensures PlainCondor(c.structure, lp, sp, sc, lc, size) && c.structure.NetCredit().Some?
  {
    assert lp in [lp, sp, sc, lc] && sp in [lp, sp, sc, lc] && sc in [lp, sp, sc, lc] && lc in [lp, sp, sc, lc];
    assert f.Accepts(lp, today);
    StrikesAreTheLegs(c.structure.legs, lp.strike);
    assert c.structure.legs[0].strike == Some(lp.strike);
  }

  lemma CreditIsKept(s: Structure)
    requires s.NetCredit().Some?
    ensures Kept(s) == s.NetCredit().value - s.Commission()
  {}

  lemma CondorShapes(lp: Contract, sp: Contract, sc: Contract, lc: Contract, legs: seq<Leg>, wing: real, lowAt: real)
    requires lp.kind.Put? && sp.kind.Put? && sc.kind.Call? && lc.kind.Call?
    requires legs == [LegFrom(lp, true), LegFrom(sp, false), LegFrom(sc, false), LegFrom(lc, true)]
    requires lp.strike < sp.strike < sc.strike < lc.strike
    requires wing == MaxReal(sp.strike - lp.strike, lc.strike - sc.strike)
    requires lowAt == if sp.strike - lp.strike >= lc.strike - sc.strike then lp.strike else lc.strike
    ensures ShapeBetween(legs, -wing, 0.0) && Shape(legs, lowAt) == -wing && Shape(legs, sp.strike) == 0.0
  {
    forall p ensures -wing <= Shape(legs, p) <= 0.0 {
      CondorLegs(lp, sp, sc, lc, legs, p);
      CondorShapeBounds(lp.strike, sp.strike, sc.strike, lc.strike, p);
    }
    CondorLegs(lp, sp, sc, lc, legs, lowAt);
    CondorLegs(lp, sp, sc, lc, legs, sp.strike);
    CondorShapeBounds(lp.strike, sp.strike, sc.strike, lc.strike, lowAt);
  }

  lemma WorthOfOpposite(n: int, x: real)
    ensures Worth(n, -x) == -Worth(n, x) && Worth(n, 0.0) == 0.0
  {
    WorthIsProduct(n, 0.0);
    WorthOfSum(n, 0.0, x);
    assert 0.0 - x == -x;
  }

  /**
   * A condor of one contract size: the probe engine reports exactly credit less commission as the
   * best case, and that less the wider wing times the size as the worst.
   */
  lemma CondorExtremes(
    f: ScanFilters, chain: Chain, today: int, lp: Contract, sp: Contract, sc: Contract, lc: Contract, c: Candidate,
    size: int, wing: real, best: real, worst: real)
    requires IsCondor(f, chain, today, lp, sp, sc, lc, c) && size > 0 && SameSize([lp, sp, sc, lc], size)
    requires wing == MaxReal(sp.strike - lp.strike, lc.strike - sc.strike)
    requires best == c.structure.NetCredit().value - c.structure.Commission() && worst == best - Worth(size, wing)
    ensures c.structure.MaxProfit() == Some(best) && c.structure.MaxLoss() == Some(worst)
  {
    CondorIsPlain(f, chain, today, lp, sp, sc, lc, c, size);
    CondorLegsExtremes(c.structure, lp, sp, sc, lc, size, wing, best, worst);
  }

  lemma CondorLegsExtremes(
    s: Structure, lp: Contract, sp: Contract, sc: Contract, lc: Contract, size: int, wing: real, best: real,
    worst: real)
    requires PlainCondor(s, lp, sp, sc, lc, size) && size > 0 && s.NetCredit().Some?
    requires best == s.NetCredit().value - s.Commission()
    requires wing == MaxReal(sp.strike - lp.strike, lc.strike - sc.strike) && worst == best - Worth(size, wing)
    ensures s.MaxProfit() == Some(best) && s.MaxLoss() == Some(worst)
  {
    var lowAt := if sp.strike - lp.strike >= lc.strike - sc.strike then lp.strike else lc.strike;
    CreditIsKept(s);
    CondorShapes(lp, sp, sc, lc, s.legs, wing, lowAt);
    WorthOfOpposite(size, wing);
    BoundedShape(s, size, -wing, 0.0, lowAt, sp.strike, worst, best);
  }

  // ---- Vertical spreads -------------------------------------------------------------------------------------

  ghost predicate IsSpread(
    f: ScanFilters, chain: Chain, v: Variant, today: int, lower: Contract, upper: Contract, c: Candidate) {
    && c == SpreadOf(f, chain.spot, v, lower, upper)
    && FromOneExpiry(f, chain, today, [lower, upper]) && lower.kind == upper.kind == v.kind
    && SpreadPasses(f, chain.spot, lower, upper, c.structure)
  }

  ghost predicate SpreadOfTwo(f: ScanFilters, chain: Chain, v: Variant, today: int, c: Candidate) {
    exists lower, upper :: IsSpread(f, chain, v, today, lower, upper, c)
  }

  lemma SpreadOfOneExpiry(f: ScanFilters, chain: Chain, v: Variant, today: int, e: int, c: Candidate)
    ensures c in SpreadsOf(f, chain.spot, v, OfExpiry(Usable(f, chain, today), e))
            ==> SpreadOfTwo(f, chain, v, today, c)
  {
    var cs := OfExpiry(Usable(f, chain, today), e);
    if c in SpreadsOf(f, chain.spot, v, cs) {
      var sorted := SortedOfKind(cs, v.kind);
      var pair := FromCollect(Pairs(sorted), (pair: (Contract, Contract)) => Spread(f, chain.spot, v, pair), c);
      PairMembers(sorted, pair);
      SortedMembers(OfKind(cs, v.kind));
      assert IsSpread(f, chain, v, today, pair.0, pair.1, c);
    }
  }

  lemma PairInOrder(cs: seq<Contract>, lower: Contract, upper: Contract)
    requires lower in cs && upper in cs && lower.strike < upper.strike
    ensures (lower, upper) in Pairs(SortBy(cs, StrikeKey))
  {
    var sorted := SortBy(cs, StrikeKey);
    SortedMembers(cs);
    var i :| 0 <= i < |sorted| && sorted[i] == lower;
    var j :| 0 <= j < |sorted| && sorted[j] == upper;
    assert StrikeKey(sorted[i]) < StrikeKey(sorted[j]);
    InPairs(sorted, lower, upper);
  }

  lemma SpreadIsFoundInExpiry(
    f: ScanFilters, chain: Chain, v: Variant, today: int, lower: Contract, upper: Contract, c: Candidate)
    requires IsSpread(f, chain, v, today, lower, upper, c)
    ensures lower.expiry in Expiries(Usable(f, chain, today))
    ensures c in SpreadsOf(f, chain.spot, v, OfExpiry(Usable(f, chain, today), lower.expiry))
  {
    var usable := Usable(f, chain, today);
    var cs := OfExpiry(usable, lower.expiry);
    assert lower in [lower, upper] && upper in [lower, upper];
    ExpiriesAreInUse(usable, lower.expiry);
    PairInOrder(OfKind(cs, v.kind), lower, upper);
    ToCollect(
      Pairs(SortedOfKind(cs, v.kind)), (pair: (Contract, Contract)) => Spread(f, chain.spot, v, pair), (lower, upper),
      c);
  }

  /** The candidates are exactly the spreads of two accepted contracts that pass the checks. */
  lemma SpreadIsFound(f: ScanFilters, chain: Chain, v: Variant, today: int, c: Candidate)
    ensures c in AllSpreads(f, chain, v, today) <==> SpreadOfTwo(f, chain, v, today, c)
  {
    var usable := Usable(f, chain, today);
    if lower, upper :| IsSpread(f, chain, v, today, lower, upper, c) {
      SpreadIsFoundInExpiry(f, chain, v, today, lower, upper, c);
      ToCollect(Expiries(usable), (e: int) => SpreadsOf(f, chain.spot, v, OfExpiry(usable, e)), lower.expiry, c);
    }
    if c in AllSpreads(f, chain, v, today) {
      var e := FromCollect(Expiries(usable), (e: int) => SpreadsOf(f, chain.spot, v, OfExpiry(usable, e)), c);
      SpreadOfOneExpiry(f, chain, v, today, e, c);
    }
  }

  /** Every emitted spread: two accepted contracts of one kind and expiry that pass the checks. */
  lemma EmittedSpread(f: ScanFilters, chain: Chain, v: Variant, today: int, limit: int, c: Candidate)
    ensures c in Take(SortBy(AllSpreads(f, chain, v, today), RoiKey), limit) ==> SpreadOfTwo(f, chain, v, today, c)
  {
    if c in Take(SortBy(AllSpreads(f, chain, v, today), RoiKey), limit) {
      EmittedAreCandidates(AllSpreads(f, chain, v, today), limit, c);
      SpreadIsFound(f, chain, v, today, c);
    }
  }

  function SpreadShape(v: Variant, low: real, high: real, p: real): real {
    var rise :=
      if v.kind.Call? then MaxReal(p - low, 0.0) - MaxReal(p - high, 0.0)
      else MaxReal(low - p, 0.0) - MaxReal(high - p, 0.0);
    if v.longIsLower then rise else -rise
  }

  lemma SpreadLegs(v: Variant, lower: Contract, upper: Contract, legs: seq<Leg>, p: real)
    requires !v.kind.Underlying? && lower.kind == upper.kind == v.kind
    requires legs == if v.longIsLower then [LegFrom(lower, true), LegFrom(upper, false)]
                     else [LegFrom(upper, true), LegFrom(lower, false)]
    ensures Shape(legs, p) == SpreadShape(v, lower.strike, upper.strike, p)
  {
    ShapeOfTwo(legs[0], legs[1], p);
  }

  /** The two values a spread moves between: its width on one side of zero. */
  function SpreadLow(v: Variant, width: real): real { if v.kind.Call? == v.longIsLower then 0.0 else -width }

  lemma SpreadShapeBounds(v: Variant, low: real, high: real, p: real, width: real)
    requires low < high && width == high - low
    ensures SpreadLow(v, width) <= SpreadShape(v, low, high, p) <= SpreadLow(v, width) + width
    ensures SpreadShape(v, low, high, if v.longIsLower then low else high) == SpreadLow(v, width)
    ensures SpreadShape(v, low, high, if v.longIsLower then high else low) == SpreadLow(v, width) + width
  {}

  lemma SpreadShapes(v: Variant, lower: Contract, upper: Contract, legs: seq<Leg>, width: real, low: real)
    requires !v.kind.Underlying? && lower.kind == upper.kind == v.kind && lower.strike < upper.strike
    requires legs == if v.longIsLower then [LegFrom(lower, true), LegFrom(upper, false)]
                     else [LegFrom(upper, true), LegFrom(lower, false)]
    requires width == upper.strike - lower.strike && low == SpreadLow(v, width)
    ensures ShapeBetween(legs, low, low + width)
    ensures Shape(legs, if v.longIsLower then lower.strike else upper.strike) == low
    ensures Shape(legs, if v.longIsLower then upper.strike else lower.strike) == low + width
  {
    forall p ensures Shape(legs, p) == SpreadShape(v, lower.strike, upper.strike, p) {
      SpreadLegs(v, lower, upper, legs, p);
    }
    forall p ensures low <= SpreadShape(v, lower.strike, upper.strike, p) <= low + width {
      SpreadShapeBounds(v, lower.strike, upper.strike, p, width);
    }
    SpreadShapeBounds(v, lower.strike, upper.strike, 0.0, width);
  }

  lemma SpreadIsPlain(
    f: ScanFilters, chain: Chain, v: Variant, today: int, lower: Contract, upper: Contract, c: Candidate, size: int)
    requires IsSpread(f, chain, v, today, lower, upper, c) && !v.kind.Underlying?
    requires lower.contractSize == upper.contractSize == size
    ensures c.structure.Priced() && c.structure.singleExpiry && OptionsOfSize(c.structure.legs, size)
    ensures lower.strike > 0.0 && upper.strike > 0.0
  {
    assert lower in [lower, upper] && upper in [lower, upper];
    assert f.Accepts(lower, today) && f.Accepts(upper, today);
    StrikesAreTheLegs(c.structure.legs, lower.strike);
    assert c.structure.legs[if v.longIsLower then 0 else 1].strike == Some(lower.strike);
  }

  /**
   * In all four variants, at one contract size: best and worst case of an emitted spread lie
   * exactly its width times the size apart, the best case is a profit, so the worst case loses
   * less than the width.
   */
  lemma SpreadExtremes(
    f: ScanFilters, chain: Chain, v: Variant, today: int, lower: Contract, upper: Contract, c: Candidate, size: int,
    span: real)
    requires IsSpread(f, chain, v, today, lower, upper, c) && !v.kind.Underlying?
    requires size > 0 && lower.contractSize == upper.contractSize == size
             && span == Worth(size, SpreadWidth(lower, upper))
    ensures c.structure.MaxProfit().Some? && c.structure.MaxLoss().Some?
    ensures c.structure.MaxProfit().value - c.structure.MaxLoss().value == span
    ensures c.structure.MaxProfit().value > 0.0 && c.structure.MaxLoss().value > -span
  {
    var width := SpreadWidth(lower, upper);
    var low := SpreadLow(v, width);
    var bottom := Kept(c.structure) + Worth(size, low);
    SpreadIsPlain(f, chain, v, today, lower, upper, c, size);
    SpreadShapes(v, lower, upper, c.structure.legs, width, low);
    WorthOfSum(size, low, width);
    BoundedShape(
      c.structure, size, low, low + width, if v.longIsLower then lower.strike else upper.strike,
      if v.longIsLower then upper.strike else lower.strike, bottom, bottom + span);
  }
}
