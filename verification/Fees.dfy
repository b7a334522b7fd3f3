/** Fee and tax schedule (risk/fees.py). Rates are fractions; the default schedule is all zero. */
module Fees {
  import opened Common

  datatype FeeSchedule = FeeSchedule(buyRate: real, sellRate: real, sellTaxRate: real, perOrder: real, declared: bool) {
    predicate IsZero() { buyRate == 0.0 && sellRate == 0.0 && sellTaxRate == 0.0 && perOrder == 0.0 }

    /** An undeclared zero is the project's default, not a known cost. */
    predicate RatesKnown() { declared || !IsZero() }

    function BuyCost(notional: real): real { Abs(notional) * buyRate + perOrder }

    function SellCost(notional: real): real { Abs(notional) * (sellRate + sellTaxRate) + perOrder }

    function EntryCost(notional: real, isBuy: bool): real {
      if isBuy then BuyCost(notional) else SellCost(notional)
    }

    /** Leaving a position trades the opposite side of entering it. */
    function ExitCost(notional: real, wasBuy: bool): real {
      if wasBuy then SellCost(notional) else BuyCost(notional)
    }

    function RoundTripCost(notional: real, isBuy: bool): real {
      EntryCost(notional, isBuy) + ExitCost(notional, isBuy)
    }

    ghost predicate NonNegative() { buyRate >= 0.0 && sellRate >= 0.0 && sellTaxRate >= 0.0 && perOrder >= 0.0 }
  }

  /** Whenever the rates are not known the computed fee is zero, so nothing is paid unrecorded. */
  lemma UnknownRatesCostNothing(fees: FeeSchedule, notional: real)
    requires !fees.RatesKnown()
    ensures fees.BuyCost(notional) == 0.0 && fees.SellCost(notional) == 0.0
  {}

  lemma CostsAreNonNegative(fees: FeeSchedule, notional: real)
    requires fees.NonNegative()
    ensures fees.BuyCost(notional) >= fees.perOrder && fees.SellCost(notional) >= fees.perOrder
  {
    MulLe(0.0, fees.buyRate, Abs(notional));
    MulLe(0.0, fees.sellRate + fees.sellTaxRate, Abs(notional));
  }

  /** What the two sides of a round trip cost together, whichever side came first. */
  lemma RoundTripIsBothSides(fees: FeeSchedule, notional: real, isBuy: bool)
    ensures fees.RoundTripCost(notional, isBuy)
         == Abs(notional) * (fees.buyRate + (fees.sellRate + fees.sellTaxRate)) + 2.0 * fees.perOrder
  {
    Distribute(Abs(notional), fees.buyRate, fees.sellRate + fees.sellTaxRate);
  }
}
