/** Position sizing (risk/risk_calculator.py). Amounts are exact; rounding for display is left out. */
module Risk {
  import opened Common
  import opened Fees
  import OB = OrderBooks

  datatype RiskLimits = RiskLimits(
    accountEquity: real, riskPerTradePct: real, maxPositionPct: real, maxContracts: int,
    stopLossPct: real, takeProfitPct: real)
  {
    function RiskBudget(): real { accountEquity * riskPerTradePct / 100.0 }

    function ExposureCap(): real { accountEquity * maxPositionPct / 100.0 }
  }

  datatype RiskSuggestion = RiskSuggestion(
    quantity: int, stopLoss: Option<real>, takeProfit: Option<real>, maxLoss: real, roundTripFees: real)

  const NEGLIGIBLE := 0.000000001

  /** What one contract can lose: the stop loss for a buyer, twice the premium for a seller. */
  function LossShare(limits: RiskLimits, isBuy: bool): real { if isBuy then limits.stopLossPct / 100.0 else 2.0 }

  function RiskPerContract(limits: RiskLimits, fees: FeeSchedule, cost: real, isBuy: bool): real {
    cost * LossShare(limits, isBuy) + fees.RoundTripCost(cost, isBuy)
  }

  /** The price that `net_take_profit` proposes for a target in percent. */
  function TakeProfitPrice(fees: FeeSchedule, premium: real, targetPct: real, isBuy: bool): real {
    var rate, target := fees.buyRate + fees.sellRate + fees.sellTaxRate, targetPct / 100.0;
    if premium <= 0.0 then premium
    else if isBuy then premium * (1.0 + target) + premium * rate
    else premium * (1.0 - target) - premium * rate
  }

  /** The most contracts that budget, exposure cap and contract cap allow, never negative. */
  function SizeFor(budget: real, perContract: real, exposureCap: real, cost: real, maxContracts: int): int
    requires cost > 0.0
  {
    var byRisk := (budget / MaxReal(perContract, NEGLIGIBLE)).Floor;
    var byExposure := (exposureCap / cost).Floor;
    MaxInt(MinInt(MinInt(byRisk, byExposure), maxContracts), 0)
  }

  function Sized(limits: RiskLimits, fees: FeeSchedule, premium: real, cost: real, isBuy: bool): RiskSuggestion
    requires cost > 0.0
  {
    var perContract := RiskPerContract(limits, fees, cost, isBuy);
    var quantity := SizeFor(limits.RiskBudget(), perContract, limits.ExposureCap(), cost, limits.maxContracts);
    var loss := limits.stopLossPct / 100.0;
    var stop := if isBuy then premium * (1.0 - loss) else premium * (1.0 + loss);
    RiskSuggestion(
      quantity, if quantity > 0 then Some(stop) else None,
      if quantity > 0 then Some(TakeProfitPrice(fees, premium, limits.takeProfitPct, isBuy)) else None,
      Worth(quantity, perContract), fees.RoundTripCost(Worth(quantity, cost), isBuy))
  }

  function Evaluate(
    limits: RiskLimits, fees: FeeSchedule, price: real, side: OB.Side, contractSize: int): RiskSuggestion {
    if price <= 0.0 || contractSize <= 0 then RiskSuggestion(0, None, None, 0.0, 0.0)
    else
      WorthIsPositive(contractSize, price);
      Sized(limits, fees, price, Worth(contractSize, price), side.Buy?)
  }

  /** `n` contracts respect the contract cap, the exposure cap and the risk budget. */
  ghost predicate Fits(budget: real, perContract: real, exposureCap: real, cost: real, maxContracts: int, n: int) {
    && n <= maxContracts
    && Worth(n, cost) <= exposureCap
    && Worth(n, MaxReal(perContract, NEGLIGIBLE)) <= budget
  }

  lemma FloorBound(a: real, b: real, n: int, amount: real)
    requires b > 0.0 && amount == n as real * b
    ensures n <= (a / b).Floor <==> amount <= a
  {
    MultiplyBack(a, b);
    BoundAfterScaling(n as real, a / b, b);
  }

  lemma FloorIsLargest(a: real, b: real, n: int)
    requires b > 0.0
    ensures n <= (a / b).Floor <==> Worth(n, b) <= a
  {
    WorthIsProduct(n, b);
    FloorBound(a, b, n, Worth(n, b));
  }

  lemma SizeIsLargest(budget: real, perContract: real, exposureCap: real, cost: real, maxContracts: int, n: int)
    requires cost > 0.0 && n >= 1
    ensures n <= SizeFor(budget, perContract, exposureCap, cost, maxContracts)
            <==> Fits(budget, perContract, exposureCap, cost, maxContracts, n)
  {
    FloorIsLargest(exposureCap, cost, n);
    FloorIsLargest(budget, MaxReal(perContract, NEGLIGIBLE), n);
  }

  /** The size is exactly the largest that fits every cap: all smaller sizes fit and no larger one does. */
  lemma QuantityIsLargestThatFits(limits: RiskLimits, fees: FeeSchedule, price: real, side: OB.Side, size: int, n: int)
    requires price > 0.0 && size > 0 && n >= 1
    ensures var cost := Worth(size, price);
            var perContract := RiskPerContract(limits, fees, cost, side.Buy?);
            n <= Evaluate(limits, fees, price, side, size).quantity
            <==> Fits(limits.RiskBudget(), perContract, limits.ExposureCap(), cost, limits.maxContracts, n)
  {
    WorthIsPositive(size, price);
    SizedIsLargest(limits, fees, price, Worth(size, price), side.Buy?, n);
  }

  lemma SizedIsLargest(limits: RiskLimits, fees: FeeSchedule, premium: real, cost: real, isBuy: bool, n: int)
    requires cost > 0.0 && n >= 1
    ensures n <= Sized(limits, fees, premium, cost, isBuy).quantity
            <==> Fits(limits.RiskBudget(), RiskPerContract(limits, fees, cost, isBuy), limits.ExposureCap(), cost,
              limits.maxContracts, n)
  {
    SizeIsLargest(
      limits.RiskBudget(), RiskPerContract(limits, fees, cost, isBuy), limits.ExposureCap(), cost, limits.maxContracts,
        n);
  }

  /** The size is never negative, and nothing is sized exactly on invalid input or when not even one contract fits. */
  lemma NothingInvalidIsSized(limits: RiskLimits, fees: FeeSchedule, price: real, side: OB.Side, size: int)
    ensures Evaluate(limits, fees, price, side, size).quantity >= 0
    ensures Evaluate(limits, fees, price, side, size).quantity == 0
            <==> price <= 0.0 || size <= 0
                 || !Fits(limits.RiskBudget(), RiskPerContract(limits, fees, Worth(size, price), side.Buy?),
                          limits.ExposureCap(), Worth(size, price), limits.maxContracts, 1)
  {
    if price > 0.0 && size > 0 {
      QuantityIsLargestThatFits(limits, fees, price, side, size, 1);
    }
  }

  lemma WorthScales(n: int, x: real, factor: real)
    ensures Worth(n, x) * factor == Worth(n, x * factor)
  {
    WorthIsProduct(n, x);
    WorthIsProduct(n, x * factor);
  }

  lemma {:induction false} FixedPartGrows(n: int, variable: real, fixed: real, both: real)
    requires n >= 1 && fixed >= 0.0 && both == variable + fixed
    ensures Worth(n, variable) + fixed <= Worth(n, both)
  {
    if n > 1 {
      FixedPartGrows(n - 1, variable, fixed, both);
    }
  }

  lemma FeeOfPositive(fees: FeeSchedule, notional: real, isBuy: bool, rate: real)
    requires notional > 0.0 && rate == fees.buyRate + (fees.sellRate + fees.sellTaxRate)
    ensures fees.RoundTripCost(notional, isBuy) == notional * rate + 2.0 * fees.perOrder
  {
    RoundTripIsBothSides(fees, notional, isBuy);
  }

  /** One fixed fee per order is charged once for the position, but was counted for every contract. */
  lemma FixedFeeIsOvercounted(fees: FeeSchedule, cost: real, n: int, notional: real, isBuy: bool)
    requires fees.perOrder >= 0.0 && n >= 1 && cost > 0.0 && notional == Worth(n, cost)
    ensures fees.RoundTripCost(notional, isBuy) <= Worth(n, fees.RoundTripCost(cost, isBuy))
  {
    var rate, fixed := fees.buyRate + (fees.sellRate + fees.sellTaxRate), 2.0 * fees.perOrder;
    WorthIsPositive(n, cost);
    FeeOfPositive(fees, notional, isBuy, rate);
    FeeOfPositive(fees, cost, isBuy, rate);
    WorthScales(n, cost, rate);
    FixedPartGrows(n, cost * rate, fixed, fees.RoundTripCost(cost, isBuy));
  }

  // ---- In figures of the limits ------------------------------------------------------------------

  /** What one contract may lose: the stop-loss share of its premium (all of it twice when sold) and both fees. */
  ghost predicate LosesPerContract(limits: RiskLimits, fees: FeeSchedule, cost: real, side: OB.Side, loss: real) {
    loss == cost * (if side.Buy? then limits.stopLossPct / 100.0 else 2.0)
            + cost * (fees.buyRate + (fees.sellRate + fees.sellTaxRate)) + 2.0 * fees.perOrder
  }

  lemma LossIsRisk(limits: RiskLimits, fees: FeeSchedule, cost: real, side: OB.Side, loss: real)
    requires cost > 0.0 && LosesPerContract(limits, fees, cost, side, loss)
    ensures loss == RiskPerContract(limits, fees, cost, side.Buy?)
  {
    FeeOfPositive(fees, cost, side.Buy?, fees.buyRate + (fees.sellRate + fees.sellTaxRate));
  }

  /** These are the risk budget and the exposure cap of the account. */
  ghost predicate AccountCaps(limits: RiskLimits, budget: real, cap: real) {
    budget == limits.accountEquity * limits.riskPerTradePct / 100.0
    && cap == limits.accountEquity * limits.maxPositionPct / 100.0
  }

  /** A size fits exactly when its number, its cost and its loss are within the three limits. */
  lemma SizeByLimits(
    limits: RiskLimits, fees: FeeSchedule, price: real, side: OB.Side, size: int, n: int, cost: real, loss: real,
    budget: real, cap: real)
    requires price > 0.0 && size > 0 && n >= 1 && cost == Worth(size, price)
    requires LosesPerContract(limits, fees, cost, side, loss) && AccountCaps(limits, budget, cap)
    ensures n <= Evaluate(limits, fees, price, side, size).quantity
            <==> n <= limits.maxContracts && Worth(n, cost) <= cap && Worth(n, MaxReal(loss, NEGLIGIBLE)) <= budget
  {
    WorthIsPositive(size, price);
    LossIsRisk(limits, fees, cost, side, loss);
    QuantityIsLargestThatFits(limits, fees, price, side, size, n);
  }

  /** `stop` lies the stop-loss percentage of the premium below it for a buyer and above it for a seller. */
  predicate StopsAt(limits: RiskLimits, price: real, side: OB.Side, stop: real) {
    100.0 * (if side.Buy? then price - stop else stop - price) == limits.stopLossPct * price
  }

  lemma StopIsAway(price: real, pct: real)
    ensures 100.0 * (price - price * (1.0 - pct / 100.0)) == pct * price
    ensures 100.0 * (price * (1.0 + pct / 100.0) - price) == pct * price
  {
    Distribute(price, 1.0, pct / 100.0);
    Reorder(price, pct / 100.0, 100.0);
  }

  /** What comes with a size: stop, target, the planned loss and the fees of the whole position; none without one. */
  lemma SuggestionTells(
    limits: RiskLimits, fees: FeeSchedule, price: real, side: OB.Side, size: int, cost: real, loss: real,
    r: RiskSuggestion)
    requires r == Evaluate(limits, fees, price, side, size) && cost == Worth(size, price)
    requires price > 0.0 && size > 0 && LosesPerContract(limits, fees, cost, side, loss)
    ensures r.stopLoss.Some? <==> r.quantity >= 1
    ensures r.stopLoss.Some? ==> StopsAt(limits, price, side, r.stopLoss.value)
    ensures r.takeProfit
         == if r.quantity >= 1 then Some(TakeProfitPrice(fees, price, limits.takeProfitPct, side.Buy?)) else None
    ensures r.maxLoss == Worth(r.quantity, loss)
    ensures r.roundTripFees == fees.RoundTripCost(Worth(r.quantity, cost), side.Buy?)
  {
    WorthIsPositive(size, price);
    LossIsRisk(limits, fees, cost, side, loss);
    StopIsAway(price, limits.stopLossPct);
  }

  /** The planned loss on this notional plus its round-trip fee is within the budget. */
  ghost predicate WithinBudget(limits: RiskLimits, fees: FeeSchedule, notional: real, isBuy: bool, budget: real) {
    notional * LossShare(limits, isBuy) + fees.RoundTripCost(notional, isBuy) <= budget
  }

  /**
   * The planned loss of the whole position plus the round-trip fee of its whole notional stays
   * within the risk budget, also with a fixed fee per order.
   */
  lemma PositionStaysWithinBudget(
    limits: RiskLimits, fees: FeeSchedule, price: real, side: OB.Side, size: int, q: int, notional: real, budget: real)
    requires price > 0.0 && size > 0 && fees.perOrder >= 0.0 && budget == limits.RiskBudget()
    requires q == Evaluate(limits, fees, price, side, size).quantity && q >= 1
             && notional == Worth(q, Worth(size, price))
    ensures WithinBudget(limits, fees, notional, side.Buy?, budget)
  {
    WorthIsPositive(size, price);
    SizedStaysWithinBudget(limits, fees, price, Worth(size, price), side.Buy?, q, notional, budget);
  }

  lemma SizedStaysWithinBudget(
    limits: RiskLimits, fees: FeeSchedule, premium: real, cost: real, isBuy: bool, q: int, notional: real, budget: real)
    requires cost > 0.0 && fees.perOrder >= 0.0 && budget == limits.RiskBudget()
    requires q == Sized(limits, fees, premium, cost, isBuy).quantity && q >= 1
    requires notional == Worth(q, cost)
    ensures WithinBudget(limits, fees, notional, isBuy, budget)
  {
    SizedIsLargest(limits, fees, premium, cost, isBuy, q);
    PositionFits(limits, fees, cost, isBuy, q, notional, RiskPerContract(limits, fees, cost, isBuy), budget);
  }

  lemma PositionFits(
    limits: RiskLimits, fees: FeeSchedule, cost: real, isBuy: bool, q: int, notional: real, perContract: real,
    budget: real)
    requires cost > 0.0 && fees.perOrder >= 0.0 && q >= 1 && notional == Worth(q, cost)
    requires perContract == RiskPerContract(limits, fees, cost, isBuy)
    requires Worth(q, MaxReal(perContract, NEGLIGIBLE)) <= budget
    ensures WithinBudget(limits, fees, notional, isBuy, budget)
  {
    FixedFeeIsOvercounted(fees, cost, q, notional, isBuy);
    LossAndFeeFit(
      q, cost, LossShare(limits, isBuy), fees.RoundTripCost(cost, isBuy), fees.RoundTripCost(notional, isBuy),
        perContract, budget);
  }

  lemma LossAndFeeFit(q: int, cost: real, share: real, fee: real, feeOfAll: real, perContract: real, budget: real)
    requires q >= 1 && feeOfAll <= Worth(q, fee) && perContract == cost * share + fee
    requires Worth(q, MaxReal(perContract, NEGLIGIBLE)) <= budget
    ensures Worth(q, cost) * share + feeOfAll <= budget
  {
    SumWithinBudget(q, cost * share, fee, perContract, budget);
    WorthScales(q, cost, share);
  }

  lemma SumWithinBudget(n: int, loss: real, fee: real, perContract: real, budget: real)
    requires n >= 1 && perContract == loss + fee && Worth(n, MaxReal(perContract, NEGLIGIBLE)) <= budget
    ensures Worth(n, loss) + Worth(n, fee) <= budget
  {
    WorthOfSum(n, loss, fee);
    OB.WorthGrows(OB.Buy, n, perContract, MaxReal(perContract, NEGLIGIBLE));
  }

  // ---- Take profit -----------------------------------------------------------------------

  /** What a position of `units` gains when it leaves at `exit`, after the fees of both orders. */
  function NetGain(fees: FeeSchedule, premium: real, exit: real, units: int, isBuy: bool): real {
    (if isBuy then Worth(units, exit) - Worth(units, premium) else Worth(units, premium) - Worth(units, exit))
    - fees.EntryCost(Worth(units, premium), isBuy) - fees.ExitCost(Worth(units, exit), isBuy)
  }

  /** The target in percent of the whole premium. */
  function TargetGain(premium: real, targetPct: real, units: int): real { Worth(units, premium) * (targetPct / 100.0) }

  /** The rate of the order that leaves: a buyer sells, a seller buys. */
  function LeavingRate(fees: FeeSchedule, isBuy: bool): real {
    if isBuy then fees.sellRate + fees.sellTaxRate else fees.buyRate
  }

  /** How far the proposed price lies from the premium, as a fraction of it. */
  function MoveOf(fees: FeeSchedule, targetPct: real): real {
    targetPct / 100.0 + (fees.buyRate + fees.sellRate + fees.sellTaxRate)
  }

  /** The proposed price as a multiple of the premium. */
  function Multiple(fees: FeeSchedule, targetPct: real, isBuy: bool): real {
    if isBuy then 1.0 + MoveOf(fees, targetPct) else 1.0 - MoveOf(fees, targetPct)
  }

  /** The rate charged on the entry premium instead of the exit price, for the whole position, less both fixed fees. */
  function Surplus(fees: FeeSchedule, notional: real, targetPct: real, isBuy: bool): real {
    notional * (LeavingRate(fees, isBuy) * (1.0 - Abs(Multiple(fees, targetPct, isBuy)))) - 2.0 * fees.perOrder
  }

  lemma AbsScales(n: real, x: real)
    requires n > 0.0
    ensures Abs(n * x) == n * Abs(x)
  {
    if x > 0.0 {
      MulPositive(n, x);
    } else if x < 0.0 {
      MulPositive(n, -x);
    }
  }

  lemma PriceForm(p: real, t: real, r: real)
    ensures p * (1.0 + t) + p * r == p * (1.0 + (t + r)) && p * (1.0 - t) - p * r == p * (1.0 - (t + r))
  {
    Distribute(p, 1.0, t);
    Distribute(p, t, r);
    Distribute(p, 1.0, t + r);
  }

  lemma TakeProfitIsMultiple(fees: FeeSchedule, premium: real, targetPct: real, isBuy: bool)
    requires premium > 0.0
    ensures TakeProfitPrice(fees, premium, targetPct, isBuy) == premium * Multiple(fees, targetPct, isBuy)
  {
    PriceForm(premium, targetPct / 100.0, fees.buyRate + fees.sellRate + fees.sellTaxRate);
  }

  lemma WorthOfMultiple(units: int, premium: real, multiple: real, price: real)
    requires price == premium * multiple
    ensures Worth(units, price) == Worth(units, premium) * multiple
  {
    WorthScales(units, premium, multiple);
  }

  lemma WorthOfTakeProfit(
    fees: FeeSchedule, premium: real, targetPct: real, units: int, isBuy: bool, notional: real, exit: real)
    requires premium > 0.0 && notional == Worth(units, premium)
    requires exit == Worth(units, TakeProfitPrice(fees, premium, targetPct, isBuy))
    ensures exit == notional * Multiple(fees, targetPct, isBuy)
  {
    TakeProfitIsMultiple(fees, premium, targetPct, isBuy);
    WorthOfMultiple(
      units, premium, Multiple(fees, targetPct, isBuy), TakeProfitPrice(fees, premium, targetPct, isBuy));
  }

  lemma Regrouped(n: real, l: real, a: real)
    ensures n * a * l == n * (l * a) && n * (l * (1.0 - a)) == n * l - n * (l * a)
  {
    Distribute(l, 1.0, a);
    Distribute(n, l, l * a);
  }

  /** Money moved by `v` of `n`, less entering at rate `e` and leaving at rate `l` on the multiple `a`. */
  lemma GainOfMove(n: real, t: real, e: real, l: real, v: real, a: real, spread: real, exit: real)
    requires v == t + (e + l) && spread == n * v && exit == n * a
    ensures spread - n * e - exit * l == n * t + n * (l * (1.0 - a))
  {
    Distribute(n, t, e + l);
    Distribute(n, e, l);
    Regrouped(n, l, a);
  }

  /**
   * The proposed price is documented to reach the target after fees. It charges the rate of the
   * leaving order on the entry premium and no fixed fee; this is exactly how far the gain of the
   * whole position lies from the target.
   */
  lemma TakeProfitDistance(
    fees: FeeSchedule, premium: real, targetPct: real, units: int, isBuy: bool, notional: real)
    requires premium > 0.0 && units > 0 && notional == Worth(units, premium)
    ensures NetGain(fees, premium, TakeProfitPrice(fees, premium, targetPct, isBuy), units, isBuy)
         == TargetGain(premium, targetPct, units) + Surplus(fees, notional, targetPct, isBuy)
  {
    var exit := Worth(units, TakeProfitPrice(fees, premium, targetPct, isBuy));
    WorthIsPositive(units, premium);
    WorthOfTakeProfit(fees, premium, targetPct, units, isBuy, notional, exit);
    PositionGain(
      fees, notional, targetPct, isBuy, exit, TargetGain(premium, targetPct, units),
      Surplus(fees, notional, targetPct, isBuy));
  }

  lemma PositionGain(
    fees: FeeSchedule, n: real, targetPct: real, isBuy: bool, exit: real, target: real, surplus: real)
    requires n > 0.0 && exit == n * Multiple(fees, targetPct, isBuy)
    requires target == n * (targetPct / 100.0) && surplus == Surplus(fees, n, targetPct, isBuy)
    ensures (if isBuy then exit - n else n - exit) - fees.EntryCost(n, isBuy) - fees.ExitCost(exit, isBuy)
         == target + surplus
  {
    var v, multiple := MoveOf(fees, targetPct), Multiple(fees, targetPct, isBuy);
    Distribute(n, 1.0, v);
    AbsScales(n, multiple);
    GainOfMove(
      n, targetPct / 100.0, LeavingRate(fees, !isBuy), LeavingRate(fees, isBuy), v, Abs(multiple), n * v, Abs(exit));
  }

  /** So the target is reached, and met exactly, according to the sign of the surplus. */
  lemma TakeProfitReachesIff(
    fees: FeeSchedule, premium: real, targetPct: real, units: int, isBuy: bool, notional: real, gain: real)
    requires premium > 0.0 && units > 0 && notional == Worth(units, premium)
    requires gain == NetGain(fees, premium, TakeProfitPrice(fees, premium, targetPct, isBuy), units, isBuy)
    ensures gain >= TargetGain(premium, targetPct, units) <==> Surplus(fees, notional, targetPct, isBuy) >= 0.0
    ensures gain == TargetGain(premium, targetPct, units) <==> Surplus(fees, notional, targetPct, isBuy) == 0.0
  {
    TakeProfitDistance(fees, premium, targetPct, units, isBuy, notional);
  }

  lemma SignOfProduct(n: real, a: real, b: real, product: real)
    requires n > 0.0 && a >= 0.0 && b >= 0.0 && product == n * (a * b)
    ensures product >= 0.0 && (product == 0.0 <==> a == 0.0 || b == 0.0)
  {
    if a > 0.0 && b > 0.0 {
      MulPositive(a, b);
      MulPositive(n, a * b);
    }
  }

  lemma NegatedProduct(n: real, a: real, b: real, c: real)
    requires c == -b
    ensures n * (a * c) == -(n * (a * b))
  {}

  lemma BuyerSurplus(fees: FeeSchedule, n: real, targetPct: real, move: real, lost: real)
    requires move == MoveOf(fees, targetPct) >= 0.0 && lost == n * (LeavingRate(fees, true) * move)
    ensures Surplus(fees, n, targetPct, true) == -lost - 2.0 * fees.perOrder
  {
    NegatedProduct(n, LeavingRate(fees, true), move, 1.0 - Abs(Multiple(fees, targetPct, true)));
  }

  lemma SellerSurplus(fees: FeeSchedule, n: real, targetPct: real, move: real, won: real)
    requires 0.0 <= move == MoveOf(fees, targetPct) <= 1.0 && won == n * (LeavingRate(fees, false) * move)
    ensures Surplus(fees, n, targetPct, false) == won - 2.0 * fees.perOrder
  {
    assert 1.0 - Abs(Multiple(fees, targetPct, false)) == move;
  }

  /**
   * With fees and a target that are not negative a buyer never gets more than the target, and
   * gets it exactly when there is no fixed fee and either no selling fee or no move at all.
   */
  lemma TakeProfitFallsShort(
    fees: FeeSchedule, premium: real, targetPct: real, units: int, gain: real, move: real)
    requires premium > 0.0 && units > 0 && fees.NonNegative() && targetPct >= 0.0 && move == MoveOf(fees, targetPct)
    requires gain == NetGain(fees, premium, TakeProfitPrice(fees, premium, targetPct, true), units, true)
    ensures gain <= TargetGain(premium, targetPct, units)
    ensures gain == TargetGain(premium, targetPct, units)
            <==> fees.perOrder == 0.0 && (LeavingRate(fees, true) == 0.0 || move == 0.0)
  {
    var lost := Worth(units, premium) * (LeavingRate(fees, true) * move);
    WorthIsPositive(units, premium);
    SignOfProduct(Worth(units, premium), LeavingRate(fees, true), move, lost);
    BuyerGain(fees, premium, targetPct, units, gain, move, lost);
  }

  lemma BuyerGain(
    fees: FeeSchedule, premium: real, targetPct: real, units: int, gain: real, move: real, lost: real)
    requires premium > 0.0 && units > 0 && move == MoveOf(fees, targetPct) >= 0.0
    requires gain == NetGain(fees, premium, TakeProfitPrice(fees, premium, targetPct, true), units, true)
    requires lost == Worth(units, premium) * (LeavingRate(fees, true) * move)
    ensures gain == TargetGain(premium, targetPct, units) - lost - 2.0 * fees.perOrder
  {
    BuyerSurplus(fees, Worth(units, premium), targetPct, move, lost);
    TakeProfitDistance(fees, premium, targetPct, units, true, Worth(units, premium));
  }

  /** Buying at 100 with fees of 0.1 % and 0.2 % and a sales tax of 0.5 %, a target of 70 % is missed. */
  lemma BuyerMissesSeventyPercent(fees: FeeSchedule, gain: real)
    requires fees == FeeSchedule(0.001, 0.002, 0.005, 0.0, true)
    requires gain == NetGain(fees, 100.0, TakeProfitPrice(fees, 100.0, 70.0, true), 1000, true)
    ensures gain < TargetGain(100.0, 70.0, 1000)
  {
    TakeProfitFallsShort(fees, 100.0, 70.0, 1000, gain, MoveOf(fees, 70.0));
  }

  /** A seller whose price stays above zero gets the buying fee on the move on top, less both fixed fees. */
  lemma TakeProfitOvershoots(
    fees: FeeSchedule, premium: real, targetPct: real, units: int, gain: real, move: real, won: real)
    requires premium > 0.0 && units > 0 && fees.NonNegative() && targetPct >= 0.0
    requires move == MoveOf(fees, targetPct) <= 1.0 && won == Worth(units, premium) * (fees.buyRate * move)
    requires gain == NetGain(fees, premium, TakeProfitPrice(fees, premium, targetPct, false), units, false)
    ensures gain == TargetGain(premium, targetPct, units) + won - 2.0 * fees.perOrder && won >= 0.0
    ensures won == 0.0 <==> fees.buyRate == 0.0 || move == 0.0
  {
    WorthIsPositive(units, premium);
    TakeProfitDistance(fees, premium, targetPct, units, false, Worth(units, premium));
    SellerSurplus(fees, Worth(units, premium), targetPct, move, won);
    SignOfProduct(Worth(units, premium), fees.buyRate, move, won);
  }
}
