/**
 * Volatility implied by a premium (pricing/implied_volatility.py): Newton steps, then bisection.
 * The pricing model and its vega come in as functions of sigma.
 */
module ImpliedVolatilities {
  import opened Common

  const MIN_SIGMA := 0.0001
  const MAX_SIGMA := 5.0
  const FLAT_VEGA := 0.0000000001

  /** `flat` prices without dividends: the bounds are always checked that way. */
  predicate PriceBoundsOk(premium: real, timeToExpiry: real, flat: real -> real) {
    premium > 0.0 && timeToExpiry > 0.0 && flat(MIN_SIGMA) <= premium <= flat(MAX_SIGMA)
  }

  function Halved(x: real, n: nat): real { if n == 0 then x else Halved(x, n - 1) / 2.0 }

  /** An interval of the searched range, `n` times halved, that bisection may have arrived at. */
  ghost predicate Bracket(price: real -> real, premium: real, n: nat, low: real, high: real) {
    && MIN_SIGMA <= low < high <= MAX_SIGMA && high - low == Halved(MAX_SIGMA - MIN_SIGMA, n)
    && (low == MIN_SIGMA || price(low) < premium) && (high == MAX_SIGMA || price(high) >= premium)
  }

  /** `sigma` prices the premium within the tolerance, or is the middle of an `n` times halved bracket. */
  ghost predicate Answers(sigma: real, price: real -> real, premium: real, tolerance: real, n: nat) {
    Abs(price(sigma) - premium) < tolerance
    || exists low, high :: Bracket(price, premium, n, low, high) && sigma == 0.5 * (low + high)
  }

  method Bisect(premium: real, price: real -> real, tolerance: real, maxIterations: int) returns (sigma: Option<real>)
    ensures sigma.Some? && MIN_SIGMA < sigma.value < MAX_SIGMA
    ensures Answers(sigma.value, price, premium, tolerance, MaxInt(maxIterations, 0))
  {
    var low, high := MIN_SIGMA, MAX_SIGMA;
    for i := 0 to MaxInt(maxIterations, 0)
      invariant Bracket(price, premium, i, low, high)
    {
      var mid := 0.5 * (low + high);
      var value := price(mid);
      if Abs(value - premium) < tolerance {
        return Some(mid);
      }
      if value < premium {
        low := mid;
      } else {
        high := mid;
      }
    }
    var result := 0.5 * (low + high);
    sigma := if MIN_SIGMA < result < MAX_SIGMA then Some(result) else None;
  }

  /**
   * None exactly when the premium fails the bounds check; otherwise strictly inside the range, and
   * either pricing within the tolerance or the middle of the last bracket — whatever the vegas
   * make of the Newton steps, and whatever the price function is.
   */
  method ImpliedVolatility(
    premium: real, timeToExpiry: real, flat: real -> real, price: real -> real, vega: real -> real, guess: real,
    tolerance: real, maxIterations: int)
    returns (sigma: Option<real>)
    ensures sigma.Some? <==> premium > 0.0 && timeToExpiry > 0.0 && flat(0.0001) <= premium <= flat(5.0)
    ensures sigma.Some? ==> MIN_SIGMA < sigma.value < MAX_SIGMA
    ensures sigma.Some? ==> Answers(sigma.value, price, premium, tolerance, MaxInt(maxIterations, 0))
  {
    if !PriceBoundsOk(premium, timeToExpiry, flat) {
      return None;
    }
    var current := MinReal(MaxReal(guess, 0.05), 2.0);
    for i := 0 to MaxInt(maxIterations, 0)
      invariant MIN_SIGMA < current < MAX_SIGMA
    {
      var diff := price(current) - premium;
      if Abs(diff) < tolerance {
        return Some(current);
      }
      var slope := vega(current);
      if slope < FLAT_VEGA {
        break;
      }
      var next := current - diff / slope;
      if !(MIN_SIGMA < next < MAX_SIGMA) {
        break;
      }
      current := next;
    }
    sigma := Bisect(premium, price, tolerance, maxIterations);
  }

  ghost predicate Increasing(price: real -> real) {
    forall a, b :: MIN_SIGMA <= a < b <= MAX_SIGMA ==> price(a) < price(b)
  }

  ghost predicate EveryBracketEncloses(price: real -> real, premium: real) {
    forall n, low, high :: Bracket(price, premium, n, low, high) ==> price(low) <= premium <= price(high)
  }

  /**
   * Brackets enclose the premium exactly when the ends of the range do. The bounds check makes
   * sure of that for the price without dividends only, although the search prices with them.
   */
  lemma BracketsEnclose(price: real -> real, premium: real)
    ensures EveryBracketEncloses(price, premium) <==> price(MIN_SIGMA) <= premium <= price(MAX_SIGMA)
  {
    assert Bracket(price, premium, 0, MIN_SIGMA, MAX_SIGMA);
  }

  /**
   * Where the ends of the range do not enclose the premium, the answer of an increasing price
   * either is within tolerance or lies half a last bracket from the end it should have passed.
   */
  lemma AnswerAtTheEdge(price: real -> real, premium: real, tolerance: real, n: nat, sigma: real, half: real)
    requires Increasing(price) && Answers(sigma, price, premium, tolerance, n)
    requires half == Halved(MAX_SIGMA - MIN_SIGMA, n) / 2.0
    ensures Abs(price(sigma) - premium) >= tolerance && premium < price(MIN_SIGMA) ==> sigma == MIN_SIGMA + half
    ensures Abs(price(sigma) - premium) >= tolerance && premium > price(MAX_SIGMA) ==> sigma == MAX_SIGMA - half
  {
    if Abs(price(sigma) - premium) >= tolerance {
      var low, high :| Bracket(price, premium, n, low, high) && sigma == 0.5 * (low + high);
      assert low > MIN_SIGMA ==> price(MIN_SIGMA) < price(low) < premium;
      assert high < MAX_SIGMA ==> premium <= price(high) < price(MAX_SIGMA);
    }
  }

  /** A premium of 1 passes the check against a price of ten times sigma, but a tenth of sigma never gets there. */
  lemma DividendsEscapeTheCheck(flat: real -> real, price: real -> real)
    requires (forall sigma :: flat(sigma) == 10.0 * sigma) && forall sigma :: price(sigma) == sigma / 10.0
    ensures PriceBoundsOk(1.0, 1.0, flat) && Increasing(price) && !EveryBracketEncloses(price, 1.0)
  {
    BracketsEnclose(price, 1.0);
  }

  /** For an increasing price the answer is within half a bracket of the volatility that prices exactly. */
  lemma AnswerIsNear(
    price: real -> real, premium: real, timeToExpiry: real, tolerance: real, n: nat, sigma: real, exact: real)
    requires Increasing(price) && PriceBoundsOk(premium, timeToExpiry, price)
    requires MIN_SIGMA <= exact <= MAX_SIGMA && price(exact) == premium
    requires Answers(sigma, price, premium, tolerance, n)
    ensures Abs(price(sigma) - premium) < tolerance || Abs(sigma - exact) <= Halved(MAX_SIGMA - MIN_SIGMA, n) / 2.0
  {
    if Abs(price(sigma) - premium) >= tolerance {
      var low, high :| Bracket(price, premium, n, low, high) && sigma == 0.5 * (low + high);
      BracketsEnclose(price, premium);
      assert exact < low ==> price(exact) < price(low);
      assert exact > high ==> price(high) < price(exact);
    }
  }
}
