/** Contract adjustment after corporate actions (market/corporate_actions.py). Dates are day numbers. */
module CorporateActions {
  import opened Common
  import opened Sorting

  datatype Contract = Contract(strike: real, size: int) {
    /** What the contract is about: strike times the shares of one contract. */
    function Value(): real { strike * size as real }
  }

  /** `ratio` is old shares over new shares. */
  datatype Action = CapitalIncrease(date: int, ratio: real) | CashDividend(date: int, dividend: real) {
    predicate Valid() { if CapitalIncrease? then ratio > 0.0 else dividend >= 0.0 }
  }

  /** Python's `round`: to the nearest integer, halves to the even one. */
  function RoundHalfEven(x: real): int {
    var rest := x - x.Floor as real;
    if rest < 0.5 || (rest == 0.5 && x.Floor % 2 == 0) then x.Floor else x.Floor + 1
  }

  function Apply(a: Action, c: Contract): Contract
    requires a.Valid()
  {
    match a
    case CapitalIncrease(_, ratio) => Contract(c.strike * ratio, MaxInt(RoundHalfEven(c.size as real / ratio), 1))
    case CashDividend(_, dividend) => c.(strike := MaxReal(c.strike - dividend, 0.0))
  }

  ghost predicate AllValid(actions: seq<Action>) { forall i :: 0 <= i < |actions| ==> actions[i].Valid() }

  ghost predicate InOrder(actions: seq<Action>) {
    forall i, j :: 0 <= i < j < |actions| ==> actions[i].date <= actions[j].date
  }

  predicate Within(a: Action, reference: int, until: Option<int>) {
    reference < a.date && (until.None? || a.date <= until.value)
  }

  /** The actions effective after `reference` and not after `until`; no `until` means for ever. */
  function Since(actions: seq<Action>, reference: int, until: Option<int>): seq<Action> {
    if actions == [] then []
    else
      var last := actions[|actions| - 1];
      Since(actions[..|actions| - 1], reference, until) + OneSince(last, reference, until)
  }

  function OneSince(a: Action, reference: int, until: Option<int>): seq<Action> {
    if Within(a, reference, until) then [a] else []
  }

  lemma {:induction false} SinceIsValid(actions: seq<Action>, reference: int, until: Option<int>)
    requires AllValid(actions)
    ensures AllValid(Since(actions, reference, until))
  {
    if actions != [] {
      SinceIsValid(actions[..|actions| - 1], reference, until);
    }
  }

  function Applied(c: Contract, actions: seq<Action>): Contract
    requires AllValid(actions)
  {
    if actions == [] then c else Apply(actions[|actions| - 1], Applied(c, actions[..|actions| - 1]))
  }

  function RatioOf(a: Action): real { if a.CapitalIncrease? then a.ratio else 1.0 }

  function Product(actions: seq<Action>): real {
    if actions == [] then 1.0 else Product(actions[..|actions| - 1]) * RatioOf(actions[|actions| - 1])
  }

  datatype Candle = Candle(date: int, open: real, high: real, low: real, close: real, volume: int)

  function Rescaled(candle: Candle, ratio: real): Candle {
    Candle(candle.date, candle.open * ratio, candle.high * ratio, candle.low * ratio, candle.close * ratio,
      candle.volume)
  }

  lemma UnitRatio(candle: Candle)
    ensures Rescaled(candle, 1.0) == candle
  {}

  /** A candle in the scale of the last action: its prices times the ratios of everything after its day. */
  function Adjusted(actions: seq<Action>, c: Candle): Candle { Rescaled(c, Product(Since(actions, c.date, None))) }

  function AdjustedAll(actions: seq<Action>, candles: seq<Candle>): (r: seq<Candle>)
    ensures |r| == |candles|
  {
    if candles == [] then []
    else AdjustedAll(actions, candles[..|candles| - 1]) + [Adjusted(actions, candles[|candles| - 1])]
  }

  lemma {:induction false} NothingMoves(actions: seq<Action>, candles: seq<Candle>)
    requires actions == [] || candles == []
    ensures AdjustedAll(actions, candles) == candles
  {
    if candles != [] {
      NothingMoves(actions, candles[..|candles| - 1]);
      UnitRatio(candles[|candles| - 1]);
    }
  }

  /** Every candle is adjusted for itself. */
  lemma {:induction false} AdjustedAt(actions: seq<Action>, candles: seq<Candle>, i: nat)
    requires i < |candles|
    ensures AdjustedAll(actions, candles)[i] == Adjusted(actions, candles[i])
  {
    if i < |candles| - 1 {
      AdjustedAt(actions, candles[..|candles| - 1], i);
    }
  }

  function DateKey(a: Action): real { a.date as real }

  /** The actions of one underlying, always in order of their dates. */
  class CorporateActionLog {
    var actions: seq<Action>

    ghost predicate Valid()
      reads this
    {
      InOrder(actions) && AllValid(actions)
    }

    constructor (given: seq<Action>)
      requires AllValid(given)
      ensures Valid() && actions == SortBy(given, DateKey)
    {
      actions := SortBy(given, DateKey);
      SortedAreInOrder(given);
    }

    /** The new action goes behind the earlier ones of the same date. */
    method Add(a: Action)
      requires Valid() && a.Valid()
      modifies this
      ensures Valid() && multiset(actions) == multiset(old(actions)) + multiset{a}
      ensures exists k :: PlacedAt(old(actions), a, k, actions)
    {
      var sorted := SortBy(actions + [a], DateKey);
      SortedAreInOrder(actions + [a]);
      StableInsert(actions, a);
      actions := sorted;
    }

    /** Applies the actions up to `today`, or up to the current day `now` if none is given. */
    method Adjust(c: Contract, issuedOn: int, today: Option<int>, now: int) returns (adjusted: Contract)
      requires Valid()
      ensures var end := Some(if today.Some? then today.value else now);
              AllValid(Since(actions, issuedOn, end)) && adjusted == Applied(c, Since(actions, issuedOn, end))
    {
      var end := Some(if today.Some? then today.value else now);
      var pending := Since(actions, issuedOn, end);
      SinceIsValid(actions, issuedOn, end);
      adjusted := c;
      for i := 0 to |pending|
        invariant AllValid(pending[..i]) && adjusted == Applied(c, pending[..i])
      {
        assert pending[..i + 1][..i] == pending[..i];
        adjusted := Apply(pending[i], adjusted);
      }
      assert pending[..|pending|] == pending;
    }

    method NetRatio(reference: int, until: Option<int>) returns (ratio: real)
      ensures ratio == Product(Since(actions, reference, until))
    {
      var pending := Since(actions, reference, until);
      ratio := 1.0;
      for i := 0 to |pending|
        invariant ratio == Product(pending[..i])
      {
        assert pending[..i + 1][..i] == pending[..i];
        if pending[i].CapitalIncrease? {
          ratio := ratio * pending[i].ratio;
        }
      }
      assert pending[..|pending|] == pending;
    }

    /** A candle that nothing moved is handed through. */
    method AdjustCandle(candle: Candle) returns (adjusted: Candle)
      ensures adjusted == Adjusted(actions, candle)
    {
      var ratio := NetRatio(candle.date, None);
      UnitRatio(candle);
      adjusted := if ratio == 1.0 then candle else Rescaled(candle, ratio);
    }

    method AdjustHistory(candles: seq<Candle>) returns (adjusted: seq<Candle>)
      ensures adjusted == AdjustedAll(actions, candles)
    {
      if actions == [] || candles == [] {
        NothingMoves(actions, candles);
        return candles;
      }
      adjusted := [];
      for i := 0 to |candles|
        invariant adjusted == AdjustedAll(actions, candles[..i])
      {
        assert candles[..i + 1][..i] == candles[..i];
        var candle := AdjustCandle(candles[i]);
        adjusted := adjusted + [candle];
      }
      assert candles[..|candles|] == candles;
    }
  }

  // ---- The order of the log --------------------------------------------------------------------

  lemma SortedAreInOrder(given: seq<Action>)
    requires AllValid(given)
    ensures InOrder(SortBy(given, DateKey)) && AllValid(SortBy(given, DateKey))
  {
    var sorted := SortBy(given, DateKey);
    SameMembers(sorted, given);
    forall i | 0 <= i < |sorted| ensures sorted[i].Valid() {
      assert sorted[i] in sorted;
    }
    SortedDates(sorted);
  }

  lemma SortedDates(sorted: seq<Action>)
    requires SortedBy(sorted, DateKey)
    ensures InOrder(sorted)
  {
    forall i, j | 0 <= i < j < |sorted| ensures sorted[i].date <= sorted[j].date {
      assert DateKey(sorted[i]) <= DateKey(sorted[j]);
    }
  }

  /** `a` stands behind everything of an earlier or the same date and before everything later. */
  ghost predicate PlacedAt(before: seq<Action>, a: Action, k: int, after: seq<Action>) {
    && 0 <= k <= |before| && after == before[..k] + [a] + before[k..]
    && (forall i :: 0 <= i < k ==> before[i].date <= a.date)
    && (forall i :: k <= i < |before| ==> a.date < before[i].date)
  }

  lemma SortedStays(actions: seq<Action>)
    requires InOrder(actions)
    ensures SortBy(actions, DateKey) == actions
  {
    SortOfSorted(actions, DateKey);
  }

  lemma {:induction false} InsertPlace(actions: seq<Action>, a: Action) returns (k: nat)
    requires InOrder(actions)
    ensures PlacedAt(actions, a, k, Insert(actions, a, DateKey))
  {
    if actions == [] || actions[|actions| - 1].date <= a.date {
      k := |actions|;
    } else {
      var front, last := actions[..|actions| - 1], actions[|actions| - 1];
      k := InsertPlace(front, a);
      assert Insert(actions, a, DateKey) == Insert(front, a, DateKey) + [last];
      PlacedBefore(actions, front, last, a, k, Insert(front, a, DateKey));
    }
  }

  lemma PlacedBefore(actions: seq<Action>, front: seq<Action>, last: Action, a: Action, k: nat, inserted: seq<Action>)
    requires actions == front + [last] && PlacedAt(front, a, k, inserted) && a.date < last.date
    ensures PlacedAt(actions, a, k, inserted + [last])
  {
    assert front[..k] == actions[..k] && front[k..] + [last] == actions[k..];
  }

  lemma StableInsert(actions: seq<Action>, a: Action)
    requires InOrder(actions)
    ensures exists k :: PlacedAt(actions, a, k, SortBy(actions + [a], DateKey))
  {
    assert (actions + [a])[..|actions|] == actions;
    SortedStays(actions);
    var k := InsertPlace(actions, a);
    assert PlacedAt(actions, a, k, SortBy(actions + [a], DateKey));
  }

  // ---- Composition ---------------------------------------------------------------------------------

  lemma {:induction false} NothingSince(actions: seq<Action>, b: int, c: Option<int>)
    requires forall i :: 0 <= i < |actions| ==> actions[i].date <= b
    ensures Since(actions, b, c) == []
  {
    if actions != [] {
      NothingSince(actions[..|actions| - 1], b, c);
    }
  }

  lemma SplitStep(p: seq<Action>, q: seq<Action>, x: seq<Action>, y: seq<Action>)
    requires q == [] || x == []
    ensures (p + q) + (x + y) == (p + x) + (q + y)
  {}

  lemma OneSinceSplits(last: Action, a: int, b: int, c: Option<int>)
    requires a <= b && (c.Some? ==> b <= c.value)
    ensures OneSince(last, a, c) == OneSince(last, a, Some(b)) + OneSince(last, b, c)
    ensures last.date > b ==> OneSince(last, a, Some(b)) == []
  {}

  lemma {:induction false} SinceSplits(actions: seq<Action>, a: int, b: int, c: Option<int>)
    requires InOrder(actions) && a <= b && (c.Some? ==> b <= c.value)
    ensures Since(actions, a, c) == Since(actions, a, Some(b)) + Since(actions, b, c)
  {
    if actions != [] {
      var front, last := actions[..|actions| - 1], actions[|actions| - 1];
      SinceSplits(front, a, b, c);
      if last.date <= b {
        NothingSince(front, b, c);
      }
      OneSinceSplits(last, a, b, c);
      SplitStep(Since(front, a, Some(b)), Since(front, b, c), OneSince(last, a, Some(b)), OneSince(last, b, c));
    }
  }

  lemma {:induction false} AppliedConcat(c: Contract, xs: seq<Action>, ys: seq<Action>)
    requires AllValid(xs) && AllValid(ys)
    ensures AllValid(xs + ys) && Applied(c, xs + ys) == Applied(Applied(c, xs), ys)
  {
    if ys == [] {
      assert xs + ys == xs;
    } else {
      assert (xs + ys)[..|xs + ys| - 1] == xs + ys[..|ys| - 1];
      AppliedConcat(c, xs, ys[..|ys| - 1]);
    }
  }

  /** Adjusting from a to b and then from b to c is adjusting from a to c, dividends included. */
  lemma AdjustmentComposes(actions: seq<Action>, contract: Contract, a: int, b: int, c: Option<int>)
    requires InOrder(actions) && AllValid(actions) && a <= b && (c.Some? ==> b <= c.value)
    ensures AllValid(Since(actions, a, c)) && AllValid(Since(actions, a, Some(b))) && AllValid(Since(actions, b, c))
    ensures Applied(contract, Since(actions, a, c))
         == Applied(Applied(contract, Since(actions, a, Some(b))), Since(actions, b, c))
  {
    SinceSplits(actions, a, b, c);
    SinceIsValid(actions, a, c);
    SinceIsValid(actions, a, Some(b));
    SinceIsValid(actions, b, c);
    AppliedConcat(contract, Since(actions, a, Some(b)), Since(actions, b, c));
  }

  lemma Associate(x: real, y: real, z: real)
    ensures x * y * z == x * (y * z)
  {}

  lemma ProductStep(p: real, q: real, r: real, pq: real, qr: real)
    requires pq == p * q && qr == q * r
    ensures pq * r == p * qr
  {
    Associate(p, q, r);
  }

  lemma {:induction false} ProductConcat(xs: seq<Action>, ys: seq<Action>, all: seq<Action>)
    requires all == xs + ys
    ensures Product(all) == Product(xs) * Product(ys)
  {
    if ys == [] {
      assert all == xs;
    } else {
      var front, r := ys[..|ys| - 1], RatioOf(ys[|ys| - 1]);
      assert all[..|all| - 1] == xs + front;
      ProductConcat(xs, front, xs + front);
      ProductStep(Product(xs), Product(front), r, Product(xs + front), Product(ys));
    }
  }

  /** The net ratio multiplies over the same split. */
  lemma NetRatioComposes(
    actions: seq<Action>, a: int, b: int, c: Option<int>, early: seq<Action>, late: seq<Action>, all: seq<Action>)
    requires InOrder(actions) && a <= b && (c.Some? ==> b <= c.value)
    requires early == Since(actions, a, Some(b)) && late == Since(actions, b, c) && all == Since(actions, a, c)
    ensures Product(all) == Product(early) * Product(late)
  {
    SinceSplits(actions, a, b, c);
    ProductConcat(early, late, all);
  }

  lemma {:induction false} ProductIsPositive(actions: seq<Action>)
    requires AllValid(actions)
    ensures Product(actions) > 0.0
  {
    if actions != [] {
      ProductIsPositive(actions[..|actions| - 1]);
      MulPositive(Product(actions[..|actions| - 1]), RatioOf(actions[|actions| - 1]));
    }
  }

  lemma LateIsPositive(actions: seq<Action>, d: int, late: seq<Action>)
    requires AllValid(actions) && late == Since(actions, d, None)
    ensures Product(late) > 0.0
  {
    SinceIsValid(actions, d, None);
    ProductIsPositive(late);
  }

  ghost predicate SamePrices(a: Candle, b: Candle) {
    a.open == b.open && a.high == b.high && a.low == b.low && a.close == b.close
  }

  ghost predicate IsProduct(r: real, s: real, rs: real) { rs == r * s }

  lemma RescaleTwice(c: Candle, r: real, s: real, rs: real)
    requires IsProduct(r, s, rs)
    ensures Rescaled(Rescaled(c, r), s) == Rescaled(c, rs)
  {
    Associate(c.open, r, s);
    Associate(c.high, r, s);
    Associate(c.low, r, s);
    Associate(c.close, r, s);
  }

  lemma SameMultiple(x: real, y: real, s: real)
    requires s > 0.0
    ensures x * s == y * s <==> x == y
  {
    if x * s == y * s {
      CancelFactor(x, y, s);
      CancelFactor(y, x, s);
    }
  }

  lemma RescalingIsInjective(p: Candle, q: Candle, s: real)
    requires s > 0.0
    ensures SamePrices(Rescaled(p, s), Rescaled(q, s)) <==> SamePrices(p, q)
  {
    SameMultiple(p.open, q.open, s);
    SameMultiple(p.high, q.high, s);
    SameMultiple(p.low, q.low, s);
    SameMultiple(p.close, q.close, s);
  }

  lemma RatiosMultiply(
    actions: seq<Action>, a: int, b: int, early: seq<Action>, late: seq<Action>, all: seq<Action>)
    requires InOrder(actions) && a <= b && early == Since(actions, a, Some(b))
    requires late == Since(actions, b, None) && all == Since(actions, a, None)
    ensures IsProduct(Product(early), Product(late), Product(all))
  {
    NetRatioComposes(actions, a, b, None, early, late, all);
  }

  /** Carrying a candle to `d` and from there to the end is carrying it to the end. */
  lemma CarriedOn(
    actions: seq<Action>, c: Candle, d: int, early: seq<Action>, late: seq<Action>, all: seq<Action>)
    requires InOrder(actions) && c.date <= d && early == Since(actions, c.date, Some(d))
    requires late == Since(actions, d, None) && all == Since(actions, c.date, None)
    ensures Rescaled(Rescaled(c, Product(early)), Product(late)) == Rescaled(c, Product(all))
  {
    RatiosMultiply(actions, c.date, d, early, late, all);
    RescaleTwice(c, Product(early), Product(late), Product(all));
  }

  lemma SameAdjusted(actions: seq<Action>, a: Candle, b: Candle)
    requires InOrder(actions) && AllValid(actions) && a.date <= b.date
    ensures SamePrices(Adjusted(actions, a), Adjusted(actions, b))
            <==> SamePrices(Rescaled(a, Product(Since(actions, a.date, Some(b.date)))), b)
  {
    var early, late, all :=
      Since(actions, a.date, Some(b.date)), Since(actions, b.date, None), Since(actions, a.date, None);
    CarriedOn(actions, a, b.date, early, late, all);
    LateIsPositive(actions, b.date, late);
    RescalingIsInjective(Rescaled(a, Product(early)), b, Product(late));
  }

  /** Candles show no jump in adjusted history exactly when only the ratios between their dates moved them. */
  lemma AdjustedHistoryHasNoJump(actions: seq<Action>, candles: seq<Candle>, i: nat, j: nat, adjusted: seq<Candle>)
    requires InOrder(actions) && AllValid(actions) && i < |candles| && j < |candles|
    requires candles[i].date <= candles[j].date && adjusted == AdjustedAll(actions, candles)
    ensures SamePrices(adjusted[i], adjusted[j])
            <==> SamePrices(
              Rescaled(candles[i], Product(Since(actions, candles[i].date, Some(candles[j].date)))), candles[j])
  {
    AdjustedAt(actions, candles, i);
    AdjustedAt(actions, candles, j);
    SameAdjusted(actions, candles[i], candles[j]);
  }

  /** The actions behind the reference and not behind the end, and no others. */
  lemma {:induction false} SinceIsInterval(actions: seq<Action>, reference: int, until: Option<int>, a: Action)
    ensures a in Since(actions, reference, until)
            <==> a in actions && reference < a.date && (until.Some? ==> a.date <= until.value)
  {
    if actions != [] {
      var front, last := actions[..|actions| - 1], actions[|actions| - 1];
      SinceIsInterval(front, reference, until, a);
      assert actions == front + [last];
    }
  }

  lemma {:induction false} DividendsKeepPrices(actions: seq<Action>)
    requires OnlyDividends(actions)
    ensures Product(actions) == 1.0
  {
    if actions != [] {
      DividendsKeepPrices(actions[..|actions| - 1]);
    }
  }

  /** Date and volume stay, and a candle behind the last capital increase stays as it is. */
  lemma AdjustedKeeps(actions: seq<Action>, candles: seq<Candle>, i: nat, adjusted: seq<Candle>)
    requires i < |candles| && adjusted == AdjustedAll(actions, candles)
    ensures adjusted[i].date == candles[i].date && adjusted[i].volume == candles[i].volume
    ensures (forall a :: a in actions && a.CapitalIncrease? ==> a.date <= candles[i].date) ==> adjusted[i] == candles[i]
  {
    AdjustedAt(actions, candles, i);
    if forall a :: a in actions && a.CapitalIncrease? ==> a.date <= candles[i].date {
      var later := Since(actions, candles[i].date, None);
      forall k | 0 <= k < |later| ensures later[k].CashDividend? {
        SinceIsInterval(actions, candles[i].date, None, later[k]);
      }
      DividendsKeepPrices(later);
    }
  }

  // ---- Strike and value ------------------------------------------------------------------------------

  ghost predicate OnlyIncreases(actions: seq<Action>) { forall i :: 0 <= i < |actions| ==> actions[i].CapitalIncrease? }

  /** With capital increases only, the strike moves by exactly the net ratio. */
  lemma {:induction false} StrikeFollowsNetRatio(c: Contract, actions: seq<Action>)
    requires AllValid(actions) && OnlyIncreases(actions)
    ensures Applied(c, actions).strike == c.strike * Product(actions)
  {
    if actions != [] {
      var front, last := actions[..|actions| - 1], actions[|actions| - 1];
      StrikeFollowsNetRatio(c, front);
      Associate(c.strike, Product(front), last.ratio);
    }
  }

  ghost predicate OnlyDividends(actions: seq<Action>) { forall i :: 0 <= i < |actions| ==> actions[i].CashDividend? }

  function TotalDividend(actions: seq<Action>): real {
    if actions == [] then 0.0
    else
      var last := actions[|actions| - 1];
      TotalDividend(actions[..|actions| - 1]) + if last.CashDividend? then last.dividend else 0.0
  }

  /** With dividends only, the strike falls by all of them together, but not below zero, and the size stays. */
  lemma {:induction false} DividendsLowerTheStrike(c: Contract, actions: seq<Action>)
    requires AllValid(actions) && OnlyDividends(actions) && c.strike >= 0.0
    ensures TotalDividend(actions) >= 0.0
    ensures Applied(c, actions) == Contract(MaxReal(c.strike - TotalDividend(actions), 0.0), c.size)
  {
    if actions != [] {
      var front, last := actions[..|actions| - 1], actions[|actions| - 1];
      DividendsLowerTheStrike(c, front);
      assert last.Valid() && last.CashDividend?;
    }
  }

  /** The whole number nearest to `x`; of two equally near ones the even one. */
  predicate Nearest(x: real, n: int) {
    Abs(n as real - x) <= 0.5 && (Abs(n as real - x) == 0.5 ==> n % 2 == 0)
  }

  /** The new size is the old one over the ratio, rounded to the nearest whole number, and at least 1. */
  lemma SizeIsRounded(c: Contract, a: Action, n: int)
    requires a.Valid() && a.CapitalIncrease? && Nearest(c.size as real / a.ratio, n)
    ensures Apply(a, c).size == if n < 1 then 1 else n
  {
    NearestIsRounded(c.size as real / a.ratio, n);
  }

  lemma NearestIsRounded(x: real, n: int)
    requires Nearest(x, n)
    ensures n == RoundHalfEven(x)
  {
    var f := x.Floor;
    assert f as real <= x < f as real + 1.0;
    assert n == f || n == f + 1;
  }

  lemma RoundIsNear(x: real)
    ensures Abs(RoundHalfEven(x) as real - x) <= 0.5
    ensures RoundHalfEven(x) as real == x <==> x == x.Floor as real
  {
    var rest := x - x.Floor as real;
    assert 0.0 <= rest < 1.0;
  }

  /** A capital increase moves the value by the new strike times the rounding of the size. */
  lemma ValueMoves(strike: real, size: real, ratio: real, shares: real, strike': real, exact: real, gap: real)
    requires ratio > 0.0 && strike' == strike * ratio && exact == size / ratio && gap == shares - exact
    ensures strike' * shares - strike * size == strike' * gap
  {
    MultiplyBack(size, ratio);
    Associate(strike, ratio, exact);
    Distribute(strike', shares, exact);
  }

  lemma ZeroMove(strike: real, ratio: real, strike': real, gap: real)
    requires ratio > 0.0 && strike' == strike * ratio
    ensures strike' * gap == 0.0 <==> strike == 0.0 || gap == 0.0
  {
    if strike > 0.0 {
      MulPositive(strike, ratio);
    } else if strike < 0.0 {
      MulPositive(-strike, ratio);
    }
  }

  /**
   * One capital increase is documented to keep the contract's value. It does exactly when the new
   * size comes out whole (or the strike is zero).
   */
  lemma ValueIsKeptExactly(c: Contract, a: Action, exact: real)
    requires a.Valid() && a.CapitalIncrease? && exact == c.size as real / a.ratio
    ensures Apply(a, c).Value() == c.Value() <==> c.strike == 0.0 || (exact >= 1.0 && exact == exact.Floor as real)
  {
    var after := Apply(a, c);
    RoundIsNear(exact);
    ValueMoves(c.strike, c.size as real, a.ratio, after.size as real, after.strike, exact,
      after.size as real - exact);
    ZeroMove(c.strike, a.ratio, after.strike, after.size as real - exact);
  }

  /** A strike of 1000 over 1000 shares with the ratio 0.7: 1429 shares at 700 are 300 more than before. */
  lemma SevenTenthsMoveTheValue()
    ensures var c := Contract(1000.0, 1000);
            Apply(CapitalIncrease(1, 0.7), c) == Contract(700.0, 1429) && Contract(700.0, 1429).Value() != c.Value()
  {
    assert 1428.5 < 1000.0 / 0.7 < 1429.0;
    assert (1000.0 / 0.7).Floor == 1428;
  }

  /** Half of every strike on the way: what rounding the sizes may cost. */
  function HalfStrikes(c: Contract, actions: seq<Action>): real
    requires AllValid(actions)
  {
    if actions == [] then 0.0
    else HalfStrikes(c, actions[..|actions| - 1]) + Abs(Applied(c, actions).strike) / 2.0
  }

  predicate RoundsToShares(c: Contract, a: Action)
    requires a.Valid()
  {
    a.CapitalIncrease? ==> RoundHalfEven(c.size as real / a.ratio) >= 1
  }

  /** The size never had to be lifted to one. */
  ghost predicate FloorNotHit(c: Contract, actions: seq<Action>)
    requires AllValid(actions)
  {
    forall i :: 0 <= i < |actions| ==> RoundsToShares(Applied(c, actions[..i]), actions[i])
  }

  lemma ProductGrows(x: real, a: real, b: real, xa: real, xb: real)
    requires a <= b && xa == x * a && xb == x * b
    ensures x >= 0.0 ==> xa <= xb
    ensures x <= 0.0 ==> xb <= xa
  {}

  lemma BoundedProduct(x: real, gap: real, move: real)
    requires Abs(gap) <= 0.5 && move == x * gap
    ensures Abs(move) <= Abs(x) / 2.0
  {
    var half := x / 2.0;
    ProductGrows(x, gap, 0.5, move, half);
    ProductGrows(x, -0.5, gap, -half, move);
  }

  lemma MoveIsSmall(
    strike: real, size: real, ratio: real, shares: real, strike': real, exact: real, gap: real, before: real,
    after: real)
    requires ratio > 0.0 && strike' == strike * ratio && exact == size / ratio && gap == shares - exact
    requires Abs(gap) <= 0.5 && before == strike * size && after == strike' * shares
    ensures Abs(after - before) <= Abs(strike') / 2.0
  {
    ValueMoves(strike, size, ratio, shares, strike', exact, gap);
    BoundedProduct(strike', gap, after - before);
  }

  lemma OneStepDrift(c: Contract, a: Action, exact: real)
    requires a.Valid() && a.CapitalIncrease? && exact == c.size as real / a.ratio && RoundHalfEven(exact) >= 1
    ensures Abs(Apply(a, c).Value() - c.Value()) <= Abs(Apply(a, c).strike) / 2.0
  {
    var after := Apply(a, c);
    RoundIsNear(exact);
    MoveIsSmall(
      c.strike, c.size as real, a.ratio, after.size as real, after.strike, exact, after.size as real - exact,
      c.Value(), after.Value());
  }

  lemma Triangle(a: real, b: real, c: real, x: real, y: real)
    requires Abs(b - a) <= x && Abs(c - b) <= y
    ensures Abs(c - a) <= x + y
  {}

  /** Over any run of capital increases the value drifts by no more than half the strikes passed. */
  lemma {:induction false} DriftIsBounded(c: Contract, actions: seq<Action>)
    requires AllValid(actions) && OnlyIncreases(actions) && FloorNotHit(c, actions)
    ensures Abs(Applied(c, actions).Value() - c.Value()) <= HalfStrikes(c, actions)
  {
    if actions != [] {
      var front, last := actions[..|actions| - 1], actions[|actions| - 1];
      FloorOnFront(c, actions);
      DriftIsBounded(c, front);
      LastRounds(c, actions, front, last);
      DriftGrows(c, front, last, actions);
    }
  }

  lemma LastRounds(c: Contract, actions: seq<Action>, front: seq<Action>, last: Action)
    requires AllValid(actions) && FloorNotHit(c, actions) && actions == front + [last] && AllValid(front)
    ensures last.Valid() && RoundsToShares(Applied(c, front), last)
  {
    var n := |front|;
    assert actions[..n] == front && actions[n] == last && RoundsToShares(Applied(c, actions[..n]), actions[n]);
  }

  lemma FloorOnFront(c: Contract, actions: seq<Action>)
    requires AllValid(actions) && FloorNotHit(c, actions) && actions != []
    ensures FloorNotHit(c, actions[..|actions| - 1])
  {
    var front := actions[..|actions| - 1];
    assert AllValid(front) && forall i :: 0 <= i < |front| ==> AllValid(front[..i]);
    forall i | 0 <= i < |front| ensures RoundsToShares(Applied(c, front[..i]), front[i]) {
      assert front[..i] == actions[..i];
    }
  }

  lemma DriftGrows(c: Contract, front: seq<Action>, last: Action, actions: seq<Action>)
    requires actions == front + [last] && AllValid(actions) && AllValid(front) && last.Valid() && last.CapitalIncrease?
    requires RoundsToShares(Applied(c, front), last)
    requires Abs(Applied(c, front).Value() - c.Value()) <= HalfStrikes(c, front)
    ensures Abs(Applied(c, actions).Value() - c.Value()) <= HalfStrikes(c, actions)
  {
    assert actions[..|actions| - 1] == front;
    var before, after := Applied(c, front), Applied(c, actions);
    OneStepDrift(before, last, before.size as real / last.ratio);
    Triangle(c.Value(), before.Value(), after.Value(), HalfStrikes(c, front), Abs(after.strike) / 2.0);
  }
}
