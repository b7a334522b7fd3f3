/**
 * Expiry payoff of a multi-leg structure (strategies/payoff.py). The code evaluates the payoff
 * at finitely many probe prices; here is when that really is the extreme over all prices.
 */
module Payoffs {
  import opened Common

  datatype Instrument = Call | Put | Underlying

  datatype Leg = Leg(
    long: bool, quantity: int, entryPrice: real, contractSize: int, instrument: Instrument, strike: Option<real>)
  {
    function Units(): int { quantity * contractSize }

    function EntryCost(): real {
      var cost := entryPrice * Units() as real;
      if long then cost else -cost
    }

    function IntrinsicAt(price: real): real {
      if instrument.Underlying? then price
      else if strike.None? then 0.0
      else if instrument.Call? then MaxReal(price - strike.value, 0.0)
      else MaxReal(strike.value - price, 0.0)
    }

    function PayoffAt(price: real): real {
      var total := (IntrinsicAt(price) - entryPrice) * Units() as real;
      if long then total else -total
    }

    function SignedUnits(): int { if long then Units() else -Units() }

    /** Rise of the intrinsic value per unit of price, just to the right of `price`. */
    function Direction(price: real): int {
      if instrument.Underlying? then 1
      else if strike.None? then 0
      else if instrument.Call? then (if strike.value <= price then 1 else 0)
      else (if strike.value > price then -1 else 0)
    }

    /** The units that still move with the price above every strike. */
    function FarUnits(): int {
      if instrument.Underlying? || (instrument.Call? && strike.Some?) then SignedUnits() else 0
    }
  }

  datatype Structure = Structure(
    legs: seq<Leg>, commissionRate: real, underlyingPrice: Option<real>, requiredMargin: Option<real>,
    singleExpiry: bool)
  {
    function NetPremium(): real { PremiumOf(legs) }

    function NetCredit(): Option<real> { if NetPremium() < 0.0 then Some(-NetPremium()) else None }

    function Commission(): real { if commissionRate <= 0.0 then 0.0 else Turnover(legs) * commissionRate }

    function NetCost(): real { EntryCosts(legs) + Commission() }

    function RequiredCapital(): Option<real> {
      if NetCost() > 0.0 then Some(NetCost())
      else if requiredMargin.Some? then requiredMargin
      else if MaxLoss().Some? && MaxLoss().value < 0.0 then Some(-MaxLoss().value)
      else None
    }

    function Roi(): Option<real> {
      var capital, profit := RequiredCapital(), MaxProfit();
      if capital.None? || capital.value <= 0.0 || profit.None? then None else Some(profit.value / capital.value)
    }

    function Payoff(price: real): real { LegSum(legs, price) - Commission() }

    predicate UnlimitedUpside() {
      || Count(legs, true, Call) > Count(legs, false, Call)
      || ((exists i :: 0 <= i < |legs| && legs[i].instrument.Underlying? && legs[i].long)
        && Count(legs, false, Call) == 0)
    }

    predicate UnlimitedDownside() {
      Count(legs, false, Call) > Count(legs, true, Call) + Count(legs, true, Underlying)
    }

    function Probes(): seq<real> {
      var strikes := Strikes(legs);
      if strikes == [] then
        var center := if underlyingPrice.Some? then underlyingPrice.value else 0.0;
        if center != 0.0 then [0.0, center * 2.0] else [0.0]
      else
        var top := Greatest(strikes);
        var spread := top - Least(strikes);
        var span := if spread != 0.0 then spread else top * 0.5;
        [0.0] + strikes + [top + span] + Midpoints(strikes)
    }

    function ProbeValues(): (values: seq<real>)
      ensures |values| == |Probes()| > 0
    {
      seq(|Probes()|, i requires 0 <= i < |Probes()| => Payoff(Probes()[i]))
    }

    function Extreme(maximize: bool): real {
      if maximize then Greatest(ProbeValues()) else Least(ProbeValues())
    }

    /** None stands for unlimited (or unknown, when the legs expire at different dates). */
    function MaxProfit(): Option<real> {
      if !singleExpiry || UnlimitedUpside() then None else Some(Extreme(true))
    }

    function MaxLoss(): Option<real> {
      if !singleExpiry || UnlimitedDownside() then None else Some(Extreme(false))
    }

    /** Strikes are prices, and so is the quote when it is used as a probe: not negative. */
    ghost predicate Priced() {
      && (forall i :: 0 <= i < |legs| && legs[i].strike.Some? ==> legs[i].strike.value >= 0.0)
      && (Strikes(legs) == [] && underlyingPrice.Some? ==> underlyingPrice.value >= 0.0)
    }

    ghost predicate Attains(value: real) { exists price :: price >= 0.0 && Payoff(price) == value }

    ghost predicate AtMost(bound: real) { forall price :: price >= 0.0 ==> Payoff(price) <= bound }

    ghost predicate AtLeast(bound: real) { forall price :: price >= 0.0 ==> Payoff(price) >= bound }

    ghost predicate UnboundedAbove() { forall bound :: !AtMost(bound) }

    ghost predicate UnboundedBelow() { forall bound :: !AtLeast(bound) }

    /** Change of the payoff per unit of price above every strike. */
    function FarSlope(): int { SumInt(FarSlopes(legs)) }
  }

  function LegValues(legs: seq<Leg>, price: real): seq<real> {
    seq(|legs|, i requires 0 <= i < |legs| => legs[i].PayoffAt(price))
  }

  function LegSum(legs: seq<Leg>, price: real): real { Sum(LegValues(legs, price)) }

  function EntryCosts(legs: seq<Leg>): real {
    if legs == [] then 0.0 else EntryCosts(legs[..|legs| - 1]) + legs[|legs| - 1].EntryCost()
  }

  function PremiumOf(legs: seq<Leg>): real {
    if legs == [] then 0.0
    else
      var last := legs[|legs| - 1];
      PremiumOf(legs[..|legs| - 1]) + if last.instrument.Underlying? then 0.0 else last.EntryCost()
  }

  function Turnover(legs: seq<Leg>): real {
    if legs == [] then 0.0
    else
      var last := legs[|legs| - 1];
      Turnover(legs[..|legs| - 1]) + Abs(last.entryPrice * last.Units() as real)
  }

  /** Number of contracts on the given side of the given instrument. */
  function Count(legs: seq<Leg>, long: bool, instrument: Instrument): int {
    if legs == [] then 0
    else
      var last := legs[|legs| - 1];
      Count(legs[..|legs| - 1], long, instrument)
      + if last.instrument == instrument && last.long == long then last.quantity else 0
  }

  function Slopes(legs: seq<Leg>, price: real): seq<int> {
    seq(|legs|, i requires 0 <= i < |legs| => legs[i].SignedUnits() * legs[i].Direction(price))
  }

  function FarSlopes(legs: seq<Leg>): seq<int> {
    seq(|legs|, i requires 0 <= i < |legs| => legs[i].FarUnits())
  }

  function Greatest(values: seq<real>): (m: real)
    requires values != []
    ensures m in values && forall v :: v in values ==> v <= m
  {
    if |values| == 1 then values[0]
    else
      assert values == values[..|values| - 1] + [values[|values| - 1]];
      MaxReal(Greatest(values[..|values| - 1]), values[|values| - 1])
  }

  function Least(values: seq<real>): (m: real)
    requires values != []
    ensures m in values && forall v :: v in values ==> v >= m
  {
    if |values| == 1 then values[0]
    else
      assert values == values[..|values| - 1] + [values[|values| - 1]];
      MinReal(Least(values[..|values| - 1]), values[|values| - 1])
  }

  /** Adds a strike to a strictly ascending list unless it is already there. */
  function AddStrike(strikes: seq<real>, strike: real): (r: seq<real>)
    ensures forall x :: x in r <==> x in strikes || x == strike
  {
    if strikes == [] then [strike]
    else if strike < strikes[0] then [strike] + strikes
    else if strike == strikes[0] then strikes
    else [strikes[0]] + AddStrike(strikes[1..], strike)
  }

  /** The distinct non-zero strikes of the legs, ascending. */
  function Strikes(legs: seq<Leg>): seq<real> {
    if legs == [] then []
    else
      var front, last := legs[..|legs| - 1], legs[|legs| - 1];
      if Truthy(last.strike) then AddStrike(Strikes(front), last.strike.value) else Strikes(front)
  }

  lemma {:induction false} StrikesAreTheLegs(legs: seq<Leg>, x: real)
    ensures x in Strikes(legs) <==> x != 0.0 && exists i :: 0 <= i < |legs| && legs[i].strike == Some(x)
  {
    if legs != [] {
      var front, last := legs[..|legs| - 1], legs[|legs| - 1];
      StrikesAreTheLegs(front, x);
      if last.strike == Some(x) {
        assert legs[|legs| - 1].strike == Some(x);
      }
      if i :| 0 <= i < |front| && front[i].strike == Some(x) {
        assert legs[i].strike == Some(x);
      }
    }
  }

  function Midpoints(strikes: seq<real>): seq<real> {
    if |strikes| < 2 then []
    else [(strikes[0] + strikes[1]) / 2.0] + Midpoints(strikes[1..])
  }

  lemma {:induction false} MidpointsAreNotNegative(strikes: seq<real>)
    requires forall x :: x in strikes ==> x >= 0.0
    ensures forall x :: x in Midpoints(strikes) ==> x >= 0.0
  {
    if |strikes| >= 2 {
      assert strikes[0] in strikes && strikes[1] in strikes;
      forall x | x in strikes[1..] ensures x in strikes {}
      MidpointsAreNotNegative(strikes[1..]);
    }
  }

  // ---- The payoff is affine between strikes ------------------------------------------------

  ghost predicate NoStrikeBetween(legs: seq<Leg>, low: real, high: real) {
    forall i :: 0 <= i < |legs| && legs[i].strike.Some? ==> legs[i].strike.value <= low || legs[i].strike.value >= high
  }

  lemma LegIsAffine(leg: Leg, low: real, price: real)
    requires low <= price
    requires leg.strike.Some? ==> leg.strike.value <= low || leg.strike.value >= price
    ensures leg.PayoffAt(price) == leg.PayoffAt(low) + (leg.SignedUnits() * leg.Direction(low)) as real * (price - low)
  {
    var units, rise := leg.Units() as real, (price - low) * leg.Direction(low) as real;
    assert leg.IntrinsicAt(price) == leg.IntrinsicAt(low) + rise;
    assert (leg.IntrinsicAt(price) - leg.entryPrice) * units
        == (leg.IntrinsicAt(low) - leg.entryPrice) * units + rise * units;
  }

  /** What each leg gains when the price rises by `step` on one affine piece. */
  function Rises(legs: seq<Leg>, low: real, step: real): seq<real> {
    seq(|legs|, i requires 0 <= i < |legs| => (legs[i].SignedUnits() * legs[i].Direction(low)) as real * step)
  }

  lemma LegValueIsAffine(legs: seq<Leg>, low: real, price: real, i: nat, step: real)
    requires low <= price && NoStrikeBetween(legs, low, price) && i < |legs| && step == price - low
    ensures LegValues(legs, price)[i] == LegValues(legs, low)[i] + Rises(legs, low, step)[i]
  {
    LegIsAffine(legs[i], low, price);
  }

  lemma RisesAddUp(legs: seq<Leg>, low: real, step: real)
    ensures Sum(Rises(legs, low, step)) == SumInt(Slopes(legs, low)) as real * step
  {
    SumScaled(Slopes(legs, low), step, Rises(legs, low, step));
  }

  lemma LegSumRises(
    legs: seq<Leg>, low: real, price: real, step: real, before: seq<real>, rises: seq<real>, after: seq<real>)
    requires low <= price && NoStrikeBetween(legs, low, price) && step == price - low
    requires before == LegValues(legs, low) && rises == Rises(legs, low, step) && after == LegValues(legs, price)
    ensures Sum(after) == Sum(before) + Sum(rises)
  {
    forall i | 0 <= i < |legs| ensures after[i] == before[i] + rises[i] {
      LegValueIsAffine(legs, low, price, i, step);
    }
    SumPointwise(before, rises, after);
  }

  lemma LegSumIsAffine(legs: seq<Leg>, low: real, price: real, step: real)
    requires low <= price && NoStrikeBetween(legs, low, price) && step == price - low
    ensures LegSum(legs, price) == LegSum(legs, low) + SumInt(Slopes(legs, low)) as real * step
  {
    LegSumRises(
      legs, low, price, step, LegValues(legs, low), Rises(legs, low, step), LegValues(legs, price));
    RisesAddUp(legs, low, step);
  }

  lemma SlopeBeyondStrikes(legs: seq<Leg>, low: real)
    requires forall i :: 0 <= i < |legs| && legs[i].strike.Some? ==> legs[i].strike.value <= low
    ensures Slopes(legs, low) == FarSlopes(legs)
  {
    forall i | 0 <= i < |legs| ensures Slopes(legs, low)[i] == FarSlopes(legs)[i] {
      UnitFactor(legs[i].SignedUnits());
    }
  }

  lemma UnitFactor(n: int)
    ensures n * 1 == n && n * 0 == 0
  {}

  // ---- Every price is caught between two probes ------------------------------------------------

  lemma {:induction false} KinkBelow(legs: seq<Leg>, price: real) returns (kink: real)
    requires price >= 0.0
    ensures 0.0 <= kink <= price
    ensures kink == 0.0 || exists i :: 0 <= i < |legs| && legs[i].strike == Some(kink)
    ensures forall i :: 0 <= i < |legs| && legs[i].strike.Some?
              ==> legs[i].strike.value <= kink || legs[i].strike.value > price
  {
    if legs == [] {
      kink := 0.0;
    } else {
      var front, last := legs[..|legs| - 1], legs[|legs| - 1];
      kink := KinkBelow(front, price);
      if i :| 0 <= i < |front| && front[i].strike == Some(kink) {
        assert legs[i].strike == Some(kink);
      }
      if last.strike.Some? && kink < last.strike.value <= price {
        kink := last.strike.value;
      }
    }
  }

  lemma {:induction false} KinkAbove(legs: seq<Leg>, price: real) returns (kink: Option<real>)
    ensures kink.Some? ==> kink.value > price && exists i :: 0 <= i < |legs| && legs[i].strike == kink
    ensures forall i :: 0 <= i < |legs| && legs[i].strike.Some?
              ==> legs[i].strike.value <= price || (kink.Some? && legs[i].strike.value >= kink.value)
  {
    if legs == [] {
      kink := None;
    } else {
      var front, last := legs[..|legs| - 1], legs[|legs| - 1];
      kink := KinkAbove(front, price);
      if kink.Some? {
        var i :| 0 <= i < |front| && front[i].strike == kink;
        assert legs[i].strike == kink;
      }
      if last.strike.Some? && last.strike.value > price && (kink.None? || last.strike.value < kink.value) {
        kink := last.strike;
      }
    }
  }

  lemma KinksAreProbes(s: Structure, kink: real)
    requires kink == 0.0 || exists i :: 0 <= i < |s.legs| && s.legs[i].strike == Some(kink)
    ensures kink in s.Probes()
  {
    StrikesAreTheLegs(s.legs, kink);
    var strikes := Strikes(s.legs);
    assert s.Probes()[0] == 0.0;
    if kink != 0.0 {
      var i :| 0 <= i < |strikes| && strikes[i] == kink;
      assert s.Probes()[i + 1] == kink;
    }
  }

  lemma ProbesAreNotNegative(s: Structure)
    requires s.Priced()
    ensures s.Probes() != [] && forall p :: p in s.Probes() ==> p >= 0.0
  {
    var strikes := Strikes(s.legs);
    forall x | x in strikes ensures x >= 0.0 {
      StrikesAreTheLegs(s.legs, x);
    }
    MidpointsAreNotNegative(strikes);
  }

  /** Moving from `low` with slope k: the payoff at `price` lies between the ends of the piece. */
  lemma Monotone(k: int, near: real, far: real)
    requires 0.0 <= near <= far
    ensures k >= 0 ==> 0.0 <= k as real * near <= k as real * far
    ensures k <= 0 ==> k as real * far <= k as real * near <= 0.0
  {
    if k >= 0 {
      MulLe(0.0, near, k as real);
      MulLe(near, far, k as real);
    } else {
      MulLe(0.0, near, -k as real);
      MulLe(near, far, -k as real);
      Distribute(near, 0.0, k as real);
      Distribute(far, 0.0, k as real);
    }
  }

  lemma PieceEnds(legs: seq<Leg>, a: real, price: real, b: real, near: real, far: real)
    requires a <= price <= b && NoStrikeBetween(legs, a, b) && near == price - a && far == b - a
    ensures LegSum(legs, a) <= LegSum(legs, price) <= LegSum(legs, b)
         || LegSum(legs, b) <= LegSum(legs, price) <= LegSum(legs, a)
  {
    LegSumIsAffine(legs, a, price, near);
    LegSumIsAffine(legs, a, b, far);
    Monotone(SumInt(Slopes(legs, a)), near, far);
  }

  lemma LastPiece(legs: seq<Leg>, a: real, price: real)
    requires a <= price
    requires forall i :: 0 <= i < |legs| && legs[i].strike.Some? ==> legs[i].strike.value <= a
    ensures SumInt(FarSlopes(legs)) <= 0 ==> LegSum(legs, price) <= LegSum(legs, a)
    ensures SumInt(FarSlopes(legs)) >= 0 ==> LegSum(legs, price) >= LegSum(legs, a)
  {
    LegSumIsAffine(legs, a, price, price - a);
    SlopeBeyondStrikes(legs, a);
    Monotone(SumInt(Slopes(legs, a)), price - a, price - a);
  }

  lemma PriceIsBracketed(s: Structure, price: real) returns (low: real, high: real)
    requires s.Priced() && price >= 0.0
    ensures low in s.Probes() && high in s.Probes()
    ensures s.FarSlope() <= 0 ==> LegSum(s.legs, price) <= LegSum(s.legs, high)
    ensures s.FarSlope() >= 0 ==> LegSum(s.legs, low) <= LegSum(s.legs, price)
  {
    var a := KinkBelow(s.legs, price);
    var b := KinkAbove(s.legs, price);
    KinksAreProbes(s, a);
    low, high := a, a;
    if b.Some? {
      KinksAreProbes(s, b.value);
      PieceEnds(s.legs, a, price, b.value, price - a, b.value - a);
      if LegSum(s.legs, a) <= LegSum(s.legs, b.value) {
        high := b.value;
      } else {
        low := b.value;
      }
    } else {
      LastPiece(s.legs, a, price);
    }
  }

  lemma ExtremeOfProbes(s: Structure, maximize: bool) returns (where: real)
    ensures where in s.Probes() && s.Payoff(where) == s.Extreme(maximize)
    ensures forall p ::
         p in s.Probes() ==> if maximize then s.Payoff(p) <= s.Extreme(maximize) else s.Payoff(p) >= s.Extreme(maximize)
  {
    var probes, values := s.Probes(), s.ProbeValues();
    var i :| 0 <= i < |values| && values[i] == s.Extreme(maximize);
    where := probes[i];
    forall p | p in probes
      ensures if maximize then s.Payoff(p) <= s.Extreme(maximize) else s.Payoff(p) >= s.Extreme(maximize)
    {
      var j :| 0 <= j < |probes| && probes[j] == p;
      assert values[j] in values;
    }
  }

  /** The probe extreme is attained, and no price beats it exactly when the far slope allows. */
  lemma ExtremeOverProbes(s: Structure, maximize: bool)
    requires s.Priced()
    ensures s.Attains(s.Extreme(maximize))
    ensures maximize && s.FarSlope() <= 0 ==> s.AtMost(s.Extreme(maximize))
    ensures !maximize && s.FarSlope() >= 0 ==> s.AtLeast(s.Extreme(maximize))
  {
    ProbesAreNotNegative(s);
    var where := ExtremeOfProbes(s, maximize);
    forall price | price >= 0.0
      ensures maximize && s.FarSlope() <= 0 ==> s.Payoff(price) <= s.Extreme(maximize)
      ensures !maximize && s.FarSlope() >= 0 ==> s.Payoff(price) >= s.Extreme(maximize)
    {
      var low, high := PriceIsBracketed(s, price);
      assert s.Payoff(low) == LegSum(s.legs, low) - s.Commission();
      assert s.Payoff(high) == LegSum(s.legs, high) - s.Commission();
    }
  }

  lemma {:induction false} TopStrike(legs: seq<Leg>) returns (top: real)
    ensures top >= 0.0 && forall i :: 0 <= i < |legs| && legs[i].strike.Some? ==> legs[i].strike.value <= top
  {
    if legs == [] {
      top := 0.0;
    } else {
      top := TopStrike(legs[..|legs| - 1]);
      var last := legs[|legs| - 1];
      top := if last.strike.Some? then MaxReal(top, last.strike.value) else top;
    }
  }

  lemma SlopeRaises(slope: int, gap: real, low: real, high: real)
    requires gap >= 0.0 && high == low + slope as real * gap
    ensures slope > 0 ==> high >= low + gap
    ensures slope < 0 ==> high <= low - gap
  {
    if slope > 0 {
      MulLe(1.0, slope as real, gap);
    } else if slope < 0 {
      MulLe(slope as real, -1.0, gap);
    }
  }

  lemma LegSumIsAffineBeyond(legs: seq<Leg>, top: real, price: real, gap: real)
    requires price == top + gap && gap >= 0.0
    requires forall i :: 0 <= i < |legs| && legs[i].strike.Some? ==> legs[i].strike.value <= top
    ensures LegSum(legs, price) == LegSum(legs, top) + SumInt(FarSlopes(legs)) as real * gap
  {
    SlopeBeyondStrikes(legs, top);
    LegSumIsAffine(legs, top, price, gap);
  }

  lemma FarStep(legs: seq<Leg>, top: real, price: real, gap: real)
    requires price == top + gap && gap >= 0.0
    requires forall i :: 0 <= i < |legs| && legs[i].strike.Some? ==> legs[i].strike.value <= top
    ensures SumInt(FarSlopes(legs)) > 0 ==> LegSum(legs, price) >= LegSum(legs, top) + gap
    ensures SumInt(FarSlopes(legs)) < 0 ==> LegSum(legs, price) <= LegSum(legs, top) - gap
  {
    LegSumIsAffineBeyond(legs, top, price, gap);
    SlopeRaises(SumInt(FarSlopes(legs)), gap, LegSum(legs, top), LegSum(legs, price));
  }

  /** With a far slope of either sign the payoff passes every bound on that side. */
  lemma FarSlopeEscapes(s: Structure, bound: real)
    ensures s.FarSlope() > 0 ==> !s.AtMost(bound)
    ensures s.FarSlope() < 0 ==> !s.AtLeast(bound)
  {
    var top := TopStrike(s.legs);
    var gap := Abs(bound - s.Payoff(top)) + 1.0;
    var price := top + gap;
    FarStep(s.legs, top, price, gap);
    assert s.FarSlope() > 0 ==> s.Payoff(price) > bound;
    assert s.FarSlope() < 0 ==> s.Payoff(price) < bound;
  }

  // ---- The theorems ------------------------------------------------------------------------------

  /**
   * A reported maximum profit is a payoff that really occurs, and it is the maximum over all
   * prices if and only if the structure does not gain with the price above every strike.
   */
  lemma MaxProfitExact(s: Structure)
    requires s.Priced() && s.MaxProfit().Some?
    ensures s.Attains(s.MaxProfit().value)
    ensures s.AtMost(s.MaxProfit().value) <==> s.FarSlope() <= 0
  {
    ExtremeOverProbes(s, true);
    FarSlopeEscapes(s, s.MaxProfit().value);
  }

  lemma MaxLossExact(s: Structure)
    requires s.Priced() && s.MaxLoss().Some?
    ensures s.Attains(s.MaxLoss().value)
    ensures s.AtLeast(s.MaxLoss().value) <==> s.FarSlope() >= 0
  {
    ExtremeOverProbes(s, false);
    FarSlopeEscapes(s, s.MaxLoss().value);
  }

  lemma MaximumIsUnique(s: Structure, a: real, b: real)
    requires s.AtMost(a) && s.Attains(a) && s.AtMost(b) && s.Attains(b)
    ensures a == b
  {
    var p :| p >= 0.0 && s.Payoff(p) == a;
    var q :| q >= 0.0 && s.Payoff(q) == b;
  }

  lemma MinimumIsUnique(s: Structure, a: real, b: real)
    requires s.AtLeast(a) && s.Attains(a) && s.AtLeast(b) && s.Attains(b)
    ensures a == b
  {
    var p :| p >= 0.0 && s.Payoff(p) == a;
    var q :| q >= 0.0 && s.Payoff(q) == b;
  }

  /** An attained bound of the payoff is what the probe engine reports. */
  lemma TrueMaximumIsReported(s: Structure, high: real)
    requires s.Priced() && s.MaxProfit().Some? && s.AtMost(high) && s.Attains(high)
    ensures s.MaxProfit().value == high
  {
    FarSlopeEscapes(s, high);
    MaxProfitExact(s);
    MaximumIsUnique(s, s.MaxProfit().value, high);
  }

  lemma TrueMinimumIsReported(s: Structure, low: real)
    requires s.Priced() && s.MaxLoss().Some? && s.AtLeast(low) && s.Attains(low)
    ensures s.MaxLoss().value == low
  {
    FarSlopeEscapes(s, low);
    MaxLossExact(s);
    MinimumIsUnique(s, s.MaxLoss().value, low);
  }

  /** "Unlimited" is the truth if and only if the far slope points that way. */
  lemma UnlimitedExact(s: Structure)
    requires s.Priced()
    ensures s.UnboundedAbove() <==> s.FarSlope() > 0
    ensures s.UnboundedBelow() <==> s.FarSlope() < 0
  {
    ExtremeOverProbes(s, true);
    ExtremeOverProbes(s, false);
    forall bound
      ensures s.FarSlope() > 0 ==> !s.AtMost(bound)
      ensures s.FarSlope() < 0 ==> !s.AtLeast(bound)
    {
      FarSlopeEscapes(s, bound);
    }
  }

  /** One contract size, every call has a strike, nothing negative, no short underlying. */
  ghost predicate Uniform(legs: seq<Leg>, size: int) {
    forall i :: 0 <= i < |legs| ==>
      && legs[i].contractSize == size && legs[i].quantity >= 0
      && (legs[i].instrument.Call? ==> legs[i].strike.Some?)
      && (legs[i].instrument.Underlying? ==> legs[i].long)
  }

  /** Calls bought plus shares held, less calls sold. */
  function NetCalls(legs: seq<Leg>): int {
    Count(legs, true, Call) + Count(legs, true, Underlying) - Count(legs, false, Call)
  }

  lemma ScaleStep(size: int, net: int, quantity: int)
    ensures size * (net + quantity) == size * net + quantity * size
    ensures size * (net - quantity) == size * net - quantity * size
  {}

  lemma {:induction false} UniformFarSlope(legs: seq<Leg>, size: int)
    requires Uniform(legs, size)
    ensures SumInt(FarSlopes(legs)) == size * NetCalls(legs)
    ensures Count(legs, false, Call) >= 0 && Count(legs, true, Underlying) >= 0 && Count(legs, true, Call) >= 0
  {
    if legs != [] {
      var front, last := legs[..|legs| - 1], legs[|legs| - 1];
      UniformFarSlope(front, size);
      assert FarSlopes(legs)[..|legs| - 1] == FarSlopes(front);
      ScaleStep(size, NetCalls(front), last.quantity);
    }
  }

  lemma SignOfProduct(size: int, net: int)
    requires size > 0
    ensures size * net > 0 <==> net > 0
    ensures size * net < 0 <==> net < 0
  {}

  lemma {:induction false} SharesAreCounted(legs: seq<Leg>, i: int, size: int)
    requires Uniform(legs, size) && 0 <= i < |legs| && legs[i].instrument.Underlying? && legs[i].quantity > 0
    ensures Count(legs, true, Underlying) > 0
  {
    var front := legs[..|legs| - 1];
    UniformFarSlope(front, size);
    if i < |front| {
      SharesAreCounted(front, i, size);
    }
  }

  /**
   * Structures of one contract size without short shares: the loss side is always right, and
   * the profit side is right exactly when shares are fully covered by sold calls or not at all.
   */
  lemma UniformStructures(s: Structure, size: int)
    requires s.Priced() && s.singleExpiry && size > 0 && Uniform(s.legs, size)
    requires forall i :: 0 <= i < |s.legs| && s.legs[i].instrument.Underlying? ==> s.legs[i].quantity > 0
    ensures s.MaxLoss().None? <==> s.UnboundedBelow()
    ensures s.MaxLoss().Some? ==> s.Attains(s.MaxLoss().value) && s.AtLeast(s.MaxLoss().value)
    ensures s.MaxProfit().None? ==> s.UnboundedAbove()
    ensures s.MaxProfit().Some? ==> s.Attains(s.MaxProfit().value)
    ensures s.MaxProfit().Some? ==> (s.AtMost(s.MaxProfit().value) <==> NetCalls(s.legs) <= 0)
  {
    UniformFarSlope(s.legs, size);
    SignOfProduct(size, NetCalls(s.legs));
    UnlimitedExact(s);
    if s.MaxLoss().Some? {
      MaxLossExact(s);
    }
    if s.MaxProfit().Some? {
      MaxProfitExact(s);
    } else if Count(s.legs, true, Call) <= Count(s.legs, false, Call) {
      var i :| 0 <= i < |s.legs| && s.legs[i].instrument.Underlying? && s.legs[i].long;
      SharesAreCounted(s.legs, i, size);
    }
  }

  lemma CountTwo(a: Leg, b: Leg, long: bool, instrument: Instrument)
    ensures Count([a, b], long, instrument)
         == (if a.instrument == instrument && a.long == long then a.quantity else 0)
          + (if b.instrument == instrument && b.long == long then b.quantity else 0)
  {
    assert [a, b][..1] == [a] && [a][..0] == [];
    assert Count([a], long, instrument) == if a.instrument == instrument && a.long == long then a.quantity else 0;
  }

  /** Two share lots against one sold call: a finite maximum is reported, none exists. */
  lemma PartlyCoveredCallIsMisread(premium: real, strike: real, spot: real)
    requires strike > 0.0
    ensures var shares := Leg(true, 2, spot, 1000, Underlying, None);
            var call := Leg(false, 1, premium, 1000, Call, Some(strike));
            var s := Structure([shares, call], 0.0, Some(spot), None, true);
            s.Priced() && s.MaxProfit().Some? && s.UnboundedAbove()
  {
    var shares := Leg(true, 2, spot, 1000, Underlying, None);
    var call := Leg(false, 1, premium, 1000, Call, Some(strike));
    var s := Structure([shares, call], 0.0, Some(spot), None, true);
    StrikesAreTheLegs(s.legs, strike);
    assert s.legs[1].strike == Some(strike);
    CountTwo(shares, call, false, Call);
    CountTwo(shares, call, true, Call);
    assert FarSlopes(s.legs) == [2000, -1000];
    assert [2000, -1000][..1] == [2000] && SumInt([2000, -1000]) == 1000;
    UnlimitedExact(s);
  }

  /** One bought call of a small contract does not cap a sold call of a large one. */
  lemma UnequalSizesAreMisread(bought: real, sold: real, strike: real)
    requires strike > 0.0
    ensures var long := Leg(true, 1, bought, 500, Call, Some(strike));
            var short := Leg(false, 1, sold, 1000, Call, Some(strike));
            var s := Structure([long, short], 0.0, None, None, true);
            s.Priced() && s.MaxLoss().Some? && s.UnboundedBelow()
  {
    var long := Leg(true, 1, bought, 500, Call, Some(strike));
    var short := Leg(false, 1, sold, 1000, Call, Some(strike));
    var s := Structure([long, short], 0.0, None, None, true);
    CountTwo(long, short, false, Call);
    CountTwo(long, short, true, Call);
    CountTwo(long, short, true, Underlying);
    assert FarSlopes(s.legs) == [500, -1000];
    assert [500, -1000][..1] == [500] && SumInt([500, -1000]) == -500;
    UnlimitedExact(s);
  }
}
