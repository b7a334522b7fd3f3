/**
 * Valuation and reconciliation of the paper account (execution/paper_account.py), over the rows
 * the store keeps. Sums over open positions do not depend on their order.
 */
module PaperAccount {
  import opened Common

  datatype Account = Account(cash: real, initialBalance: real)

  datatype Position = Position(
    quantity: int, averagePrice: real, openedAt: int, entryFees: real, entryFeesKnown: bool)

  /** A closed trade; a fee that is not known is None, never zero. */
  datatype Trade = Trade(
    symbol: string, quantity: int, entryPrice: real, exitPrice: real, contractSize: int,
    grossPnl: real, entryFee: Option<real>, exitFee: Option<real>, pnlAbsolute: real,
    openedAt: int, closedAt: int)

  /** price × quantity × contract size. */
  function Money(price: real, quantity: int, size: int): real { Worth(size, Worth(quantity, price)) }

  lemma MoneyIsProduct(price: real, quantity: int, size: int)
    ensures Money(price, quantity, size) == price * quantity as real * size as real
  {
    WorthIsProduct(quantity, price);
    WorthIsProduct(size, Worth(quantity, price));
  }

  // ---- Closed trades -------------------------------------------------------------------

  datatype RealizedTotals = RealizedTotals(
    gross: real, entryCosts: real, exitCosts: real, tradeCount: nat, missingEntry: nat, missingExit: nat)
  {
    function Costs(): real { entryCosts + exitCosts }

    predicate CostsComplete() { missingEntry == 0 && missingExit == 0 }

    function Net(): Option<real> { if CostsComplete() then Some(gross - Costs()) else None }
  }

  function Known(fee: Option<real>): real { if fee.Some? then fee.value else 0.0 }

  function Missing(fee: Option<real>): nat { if fee.Some? then 0 else 1 }

  function Summary(trades: seq<Trade>): RealizedTotals {
    if trades == [] then RealizedTotals(0.0, 0.0, 0.0, 0, 0, 0)
    else
      var r, last := Summary(trades[..|trades| - 1]), trades[|trades| - 1];
      RealizedTotals(
        r.gross + last.grossPnl, r.entryCosts + Known(last.entryFee), r.exitCosts + Known(last.exitFee),
        r.tradeCount + 1, r.missingEntry + Missing(last.entryFee), r.missingExit + Missing(last.exitFee))
  }

  method SummarizeTrades(trades: seq<Trade>) returns (totals: RealizedTotals)
    ensures totals == Summary(trades)
    ensures totals.CostsComplete() <==> forall t :: t in trades ==> t.entryFee.Some? && t.exitFee.Some?
  {
    var gross, entryCosts, exitCosts := 0.0, 0.0, 0.0;
    var missingEntry, missingExit := 0, 0;
    for i := 0 to |trades|
      invariant missingEntry >= 0 && missingExit >= 0
      invariant Summary(trades[..i]) == RealizedTotals(gross, entryCosts, exitCosts, i, missingEntry, missingExit)
    {
      var trade := trades[i];
      assert trades[..i + 1][..i] == trades[..i];
      gross := gross + trade.grossPnl;
      if trade.entryFee.None? {
        missingEntry := missingEntry + 1;
      } else {
        entryCosts := entryCosts + trade.entryFee.value;
      }
      if trade.exitFee.None? {
        missingExit := missingExit + 1;
      } else {
        exitCosts := exitCosts + trade.exitFee.value;
      }
    }
    assert trades[..|trades|] == trades;
    totals := RealizedTotals(gross, entryCosts, exitCosts, |trades|, missingEntry, missingExit);
    CompleteMeansNoMissingFee(trades);
  }

  lemma {:induction false} CompleteMeansNoMissingFee(trades: seq<Trade>)
    ensures Summary(trades).CostsComplete() <==> forall t :: t in trades ==> t.entryFee.Some? && t.exitFee.Some?
  {
    if trades != [] {
      var front, last := trades[..|trades| - 1], trades[|trades| - 1];
      CompleteMeansNoMissingFee(front);
      assert trades == front + [last];
    }
  }

  function FeesWhere(trades: seq<Trade>, entry: bool): seq<real> {
    seq(|trades|, i requires 0 <= i < |trades| => Known(if entry then trades[i].entryFee else trades[i].exitFee))
  }

  function GrossOf(trades: seq<Trade>): seq<real> {
    seq(|trades|, i requires 0 <= i < |trades| => trades[i].grossPnl)
  }

  /** The totals are the sums over the trades, and the fees of each kind that are missing are counted. */
  lemma {:induction false} TotalsAreSums(trades: seq<Trade>)
    ensures var r := Summary(trades);
            && r.gross == Sum(GrossOf(trades)) && r.tradeCount == |trades|
            && r.entryCosts == Sum(FeesWhere(trades, true)) && r.exitCosts == Sum(FeesWhere(trades, false))
            && (r.missingEntry == 0 <==> forall t :: t in trades ==> t.entryFee.Some?)
            && (r.missingExit == 0 <==> forall t :: t in trades ==> t.exitFee.Some?)
  {
    if trades != [] {
      var front, last := trades[..|trades| - 1], trades[|trades| - 1];
      TotalsAreSums(front);
      assert trades == front + [last];
      assert GrossOf(trades)[..|front|] == GrossOf(front);
      assert FeesWhere(trades, true)[..|front|] == FeesWhere(front, true);
      assert FeesWhere(trades, false)[..|front|] == FeesWhere(front, false);
    }
  }

  lemma SummaryAppend(trades: seq<Trade>, t: Trade)
    ensures var r, r' := Summary(trades), Summary(trades + [t]);
            && r'.gross == r.gross + t.grossPnl
            && r'.Costs() == r.Costs() + Known(t.entryFee) + Known(t.exitFee)
            && r'.missingEntry == r.missingEntry + Missing(t.entryFee)
            && r'.missingExit == r.missingExit + Missing(t.exitFee)
  {
    assert (trades + [t])[..|trades|] == trades;
  }

  // ---- Sums over open positions ------------------------------------------------------------

  ghost function Pick(m: map<string, real>): (k: string)
    requires m != map[]
    ensures k in m
  {
    assert m.Keys != {};
    var k :| k in m;
    k
  }

  ghost function SumMap(m: map<string, real>): real
    decreases |m|
  {
    if m == map[] then 0.0
    else
      var k := Pick(m);
      assert |m - {k}| < |m| by { RemoveShrinks(m, k); }
      m[k] + SumMap(m - {k})
  }

  lemma RemoveShrinks<V>(m: map<string, V>, k: string)
    requires k in m
    ensures |m - {k}| == |m| - 1
  {
    assert (m - {k}).Keys == m.Keys - {k};
    assert |m.Keys| == |m| && |(m - {k}).Keys| == |m - {k}|;
  }

  lemma {:induction false} SumMapRemove(m: map<string, real>, k: string)
    requires k in m
    ensures SumMap(m) == m[k] + SumMap(m - {k})
    decreases |m|
  {
    var c := Pick(m);
    if c != k {
      RemoveShrinks(m, c);
      RemoveShrinks(m, k);
      SumMapRemove(m - {c}, k);
      SumMapRemove(m - {k}, c);
      assert m - {c} - {k} == m - {k} - {c};
    }
  }

  lemma {:induction false} SumMapCombine(
    x: map<string, real>, y: map<string, real>, z: map<string, real>, u: map<string, real>)
    requires x.Keys == y.Keys == z.Keys == u.Keys
    requires forall k :: k in x ==> u[k] == x[k] - y[k] - z[k]
    ensures SumMap(u) == SumMap(x) - SumMap(y) - SumMap(z)
    decreases |u|
  {
    if u != map[] {
      var k := Pick(u);
      RemoveShrinks(u, k);
      SumMapRemove(x, k);
      SumMapRemove(y, k);
      SumMapRemove(z, k);
      SumMapCombine(x - {k}, y - {k}, z - {k}, u - {k});
    } else {
      assert x == map[] && y == map[] && z == map[];
    }
  }

  // ---- Valuation -------------------------------------------------------------------------------

  datatype ValuationStatus = Priced | PartialDepth | NoDepth | Unavailable | ExpiredUnsettled

  datatype Valuation = Valuation(
    quantity: int, contractSize: int, averagePrice: real, entryFeesOpen: real, entryFeesKnown: bool,
    status: ValuationStatus, markPrice: Option<real>)
  {
    function GrossCost(): real { Money(averagePrice, quantity, contractSize) }

    function MarketValue(): Option<real> {
      if !status.Priced? || markPrice.None? then None else Some(Money(markPrice.value, quantity, contractSize))
    }

    function UnrealizedGross(): Option<real> {
      if MarketValue().None? then None else Some(MarketValue().value - GrossCost())
    }

    function UnrealizedNet(): Option<real> {
      if UnrealizedGross().None? || !entryFeesKnown then None else Some(UnrealizedGross().value - entryFeesOpen)
    }
  }

  const RECONCILIATION_TOLERANCE := 0.01

  datatype Reconciliation =
    | NotApplicable
    | Applicable(actualChange: real, expectedChange: real, difference: real, ok: bool)

  datatype AccountSnapshot = AccountSnapshot(
    initialBalance: real, cash: real, positions: map<string, Valuation>, realized: RealizedTotals)
  {
    predicate ValuationComplete() { forall s :: s in positions ==> positions[s].status.Priced? }

    predicate CostsKnown() {
      realized.CostsComplete() && forall s :: s in positions ==> positions[s].entryFeesKnown
    }

    ghost function FeesOpen(): map<string, real> { map s | s in positions :: positions[s].entryFeesOpen }

    ghost function GrossCosts(): map<string, real> { map s | s in positions :: positions[s].GrossCost() }

    ghost function Values(): map<string, real> {
      map s | s in positions && positions[s].status.Priced? :: Known(positions[s].MarketValue())
    }

    ghost function Nets(): map<string, real> { map s | s in positions :: Known(positions[s].UnrealizedNet()) }

    ghost function TotalCostsRecorded(): real { realized.Costs() + SumMap(FeesOpen()) }

    ghost function MarketValue(): Option<real> { if ValuationComplete() then Some(SumMap(Values())) else None }

    ghost function UnrealizedNet(): Option<real> {
      if !ValuationComplete() || exists s :: s in positions && positions[s].UnrealizedNet().None? then None
      else Some(SumMap(Nets()))
    }

    ghost function Equity(): Option<real> {
      if MarketValue().None? then None else Some(cash + MarketValue().value)
    }

    ghost function Reconcile(): Reconciliation {
      var equity, unrealized, net := Equity(), UnrealizedNet(), realized.Net();
      if equity.None? || unrealized.None? || net.None? then NotApplicable
      else
        var actual, expected := equity.value - initialBalance, net.value + unrealized.value;
        Applicable(actual, expected, actual - expected, Abs(actual - expected) <= RECONCILIATION_TOLERANCE)
    }
  }

  /** A priced valuation carries its exit price, as `_value_one` builds it. */
  ghost predicate Marked(snap: AccountSnapshot) {
    forall s :: s in snap.positions && snap.positions[s].status.Priced? ==> snap.positions[s].markPrice.Some?
  }

  lemma NetIsValueMinusCost(v: Valuation)
    requires v.status.Priced? && v.markPrice.Some? && v.entryFeesKnown
    ensures v.UnrealizedNet().Some? && v.MarketValue().Some?
    ensures v.UnrealizedNet().value == v.MarketValue().value - v.GrossCost() - v.entryFeesOpen
  {}

  lemma NetsAreKnown(snap: AccountSnapshot)
    requires Marked(snap) && snap.ValuationComplete() && snap.CostsKnown()
    ensures snap.UnrealizedNet() == Some(SumMap(snap.Nets()))
  {
    forall s | s in snap.positions ensures snap.positions[s].UnrealizedNet().Some? {
      NetIsValueMinusCost(snap.positions[s]);
    }
  }

  lemma SumOfNets(snap: AccountSnapshot)
    requires Marked(snap) && snap.ValuationComplete() && snap.CostsKnown()
    ensures SumMap(snap.Nets()) == SumMap(snap.Values()) - SumMap(snap.GrossCosts()) - SumMap(snap.FeesOpen())
  {
    var values, costs, fees, nets := snap.Values(), snap.GrossCosts(), snap.FeesOpen(), snap.Nets();
    forall s | s in snap.positions ensures s in values && nets[s] == values[s] - costs[s] - fees[s] {
      NetIsValueMinusCost(snap.positions[s]);
    }
    SumMapCombine(values, costs, fees, nets);
  }

  lemma ReconcileNeeds(snap: AccountSnapshot)
    requires snap.Reconcile().Applicable?
    ensures snap.CostsKnown() && snap.ValuationComplete()
  {
    forall s | s in snap.positions ensures snap.positions[s].entryFeesKnown {
      assert snap.positions[s].UnrealizedNet().Some?;
    }
  }

  /**
   * The reconciliation can be asked exactly when every cost is known and every position priced,
   * and then its difference is a statement about the books alone: market prices cancel out.
   */
  lemma ReconcileIgnoresPrices(snap: AccountSnapshot)
    requires Marked(snap)
    ensures snap.Reconcile().Applicable? <==> snap.CostsKnown() && snap.ValuationComplete()
    ensures snap.Reconcile().Applicable? ==>
              snap.Reconcile().difference
              == snap.cash + SumMap(snap.GrossCosts()) - snap.initialBalance - snap.realized.gross
                 + snap.TotalCostsRecorded()
    ensures snap.Reconcile().Applicable? ==>
              (snap.Reconcile().ok <==> -0.01 <= snap.Reconcile().difference <= 0.01)
  {
    if snap.CostsKnown() && snap.ValuationComplete() {
      NetsAreKnown(snap);
      SumOfNets(snap);
    } else if snap.Reconcile().Applicable? {
      ReconcileNeeds(snap);
    }
  }

  /** The promise: the identity can be asked exactly when everything is known, and then it holds. */
  ghost predicate ReconcilesExactly(snap: AccountSnapshot) {
    && (snap.Reconcile().Applicable? <==> snap.CostsKnown() && snap.ValuationComplete())
    && (snap.Reconcile().Applicable? ==> snap.Reconcile().difference == 0.0 && snap.Reconcile().ok)
  }

  lemma ExactIsOk(snap: AccountSnapshot)
    requires snap.Reconcile().Applicable? && snap.Reconcile().difference == 0.0
    ensures snap.Reconcile().ok
  {}

  // ---- Orders and entry fees -----------------------------------------------------------------------

  predicate Affordable(required: real, available: real) { required <= available + RECONCILIATION_TOLERANCE }

  /** The share of the entry fees that leaves with `closing` of `held` contracts. */
  function AllocateEntryFee(totalEntryFees: real, closing: int, held: int): real {
    if held <= 0 then 0.0
    else if closing >= held then totalEntryFees
    else totalEntryFees * closing as real / held as real
  }

  /** The entry-fee shares handed out by successive partial closes of one position. */
  function Shares(totalEntryFees: real, held: int, closes: seq<int>): seq<real>
    decreases closes
  {
    if closes == [] then []
    else
      var share := AllocateEntryFee(totalEntryFees, closes[0], held);
      [share] + Shares(totalEntryFees - share, held - closes[0], closes[1..])
  }

  function TotalOf(closes: seq<int>): int {
    if closes == [] then 0 else closes[0] + TotalOf(closes[1..])
  }

  function AddUp(xs: seq<real>): real {
    if xs == [] then 0.0 else xs[0] + AddUp(xs[1..])
  }

  lemma CancelQuotient(a: real, b: real)
    requires b != 0.0
    ensures a * b / b == a
  {}

  lemma ShareOfMultiple(total: real, c: real, h: real, rate: real)
    requires h != 0.0 && total == h * rate
    ensures total * c / h == c * rate
  {
    Reorder(h, rate, c);
    Reorder(c, rate, h);
    CancelQuotient(c * rate, h);
  }

  lemma ShareIsWorth(total: real, closing: int, held: int, c: real, h: real, rate: real)
    requires 0 < closing < held && c == closing as real && h == held as real && total == Worth(held, rate)
    ensures total * c / h == Worth(closing, rate)
  {
    WorthIsProduct(held, rate);
    WorthIsProduct(closing, rate);
    ShareOfMultiple(total, c, h, rate);
  }

  lemma AllocationIsWorth(total: real, closing: int, held: int, rate: real)
    requires 0 < closing <= held && total == Worth(held, rate)
    ensures AllocateEntryFee(total, closing, held) == Worth(closing, rate)
  {
    if closing < held {
      ShareIsWorth(total, closing, held, closing as real, held as real, rate);
    }
  }

  lemma ShareScales(total: real, share: real, closing: int, held: int, left: int, rate: real)
    requires 0 < closing <= held && held == closing + left && total == Worth(held, rate)
    requires share == Worth(closing, rate)
    ensures total - share == Worth(left, rate)
  {
    WorthAdds(closing, left, rate);
  }

  /**
   * Fees of `rate` per contract: every piece of a position closed in pieces takes exactly the
   * fees of its own contracts.
   */
  lemma {:induction false} SharesAreLinear(total: real, held: int, closes: seq<int>, rate: real, i: nat)
    requires held > 0 && total == Worth(held, rate)
    requires forall j :: 0 <= j < |closes| ==> closes[j] > 0
    requires TotalOf(closes) <= held && i < |closes|
    ensures i < |Shares(total, held, closes)|
    ensures Shares(total, held, closes)[i] == Worth(closes[i], rate)
    decreases closes
  {
    var share, left, rest := AllocateEntryFee(total, closes[0], held), held - closes[0], closes[1..];
    TotalIsNotNegative(rest);
    AllocationIsWorth(total, closes[0], held, rate);
    ShareScales(total, share, closes[0], held, left, rate);
    if i > 0 {
      SharesAreLinear(total - share, left, rest, rate, i - 1);
      assert Shares(total, held, closes)[i] == Shares(total - share, left, rest)[i - 1];
    }
  }

  /** By the time a position is flat, the shares of its closes add up to all its entry fees. */
  lemma {:induction false} EntryFeesLandOnce(total: real, held: int, closes: seq<int>)
    requires held > 0 && TotalOf(closes) == held
    requires forall i :: 0 <= i < |closes| ==> closes[i] > 0
    ensures AddUp(Shares(total, held, closes)) == total
    decreases closes
  {
    TotalIsNotNegative(closes[1..]);
    if closes[1..] != [] {
      EntryFeesLandOnce(total - AllocateEntryFee(total, closes[0], held), held - closes[0], closes[1..]);
    }
  }

  lemma {:induction false} TotalIsNotNegative(closes: seq<int>)
    requires forall i :: 0 <= i < |closes| ==> closes[i] > 0
    ensures TotalOf(closes) >= |closes|
  {
    if closes != [] {
      TotalIsNotNegative(closes[1..]);
    }
  }
}
