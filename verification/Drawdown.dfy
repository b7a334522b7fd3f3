/**
 * Drawdown and losing streaks: one pass over the results (backtest/metrics.py) and over the closed
 * paper trades (execution/paper_broker.py), against their definitions by all pairs.
 */
module Drawdowns {
  import opened Common
  import opened Sorting
  import opened PaperAccount

  /** The account after the first `k` results. */
  function Point(opening: real, results: seq<real>, k: nat): real
    requires k <= |results|
  {
    opening + Sum(results[..k])
  }

  lemma PointStep(opening: real, results: seq<real>, k: nat)
    requires k < |results|
    ensures Point(opening, results, k + 1) == Point(opening, results, k) + results[k]
  {
    assert results[..k + 1][..k] == results[..k];
  }

  method EquityCurve(values: seq<real>) returns (curve: seq<real>)
    ensures |curve| == |values| && forall k :: 0 <= k < |values| ==> curve[k] == Point(0.0, values, k + 1)
  {
    var total := 0.0;
    curve := [];
    for i := 0 to |values|
      invariant |curve| == i && total == Point(0.0, values, i)
      invariant forall k :: 0 <= k < i ==> curve[k] == Point(0.0, values, k + 1)
    {
      PointStep(0.0, values, i);
      total := total + values[i];
      curve := curve + [total];
    }
  }

  ghost predicate FallsTo(curve: seq<real>, worst: real) {
    exists i, j :: 0 <= i <= j < |curve| && worst == curve[i] - curve[j]
  }

  ghost predicate NoLargerFall(curve: seq<real>, n: nat, worst: real)
    requires n <= |curve|
  {
    forall i, j :: 0 <= i <= j < n ==> curve[i] - curve[j] <= worst
  }

  /** `worst` is the largest fall of the curve from any point to a later one (or the same). */
  ghost predicate LargestFall(curve: seq<real>, worst: real) {
    FallsTo(curve, worst) && NoLargerFall(curve, |curve|, worst)
  }

  /** The largest of the first `k + 1` points. */
  ghost predicate Peak(curve: seq<real>, k: int, peak: real) {
    && 0 <= k < |curve|
    && (exists i :: 0 <= i <= k && curve[i] == peak)
    && (forall i :: 0 <= i <= k ==> curve[i] <= peak)
  }

  lemma FallStep(curve: seq<real>, k: nat, peak: real, worst: real)
    requires k < |curve| && FallsTo(curve, worst) && NoLargerFall(curve, k, worst) && Peak(curve, k, peak)
    ensures FallsTo(curve, MaxReal(worst, peak - curve[k]))
            && NoLargerFall(curve, k + 1, MaxReal(worst, peak - curve[k]))
  {
    var i :| 0 <= i <= k && curve[i] == peak;
    assert peak - curve[k] == curve[i] - curve[k];
  }

  lemma PeakStep(curve: seq<real>, k: nat, peak: real)
    requires 0 < k < |curve| && Peak(curve, k - 1, peak)
    ensures Peak(curve, k, MaxReal(peak, curve[k]))
  {
    var i :| 0 <= i <= k - 1 && curve[i] == peak;
  }

  method LargestDrop(curve: seq<real>) returns (worst: real)
    requires curve != []
    ensures LargestFall(curve, worst)
  {
    var peak := curve[0];
    worst := 0.0;
    assert FallsTo(curve, 0.0) by {
      assert curve[0] - curve[0] == 0.0;
    }
    for k := 0 to |curve|
      invariant if k == 0 then peak == curve[0] else Peak(curve, k - 1, peak)
      invariant FallsTo(curve, worst) && NoLargerFall(curve, k, worst)
    {
      if k > 0 {
        PeakStep(curve, k, peak);
      }
      peak := MaxReal(peak, curve[k]);
      FallStep(curve, k, peak, worst);
      worst := MaxReal(worst, peak - curve[k]);
    }
  }

  /** None for no results, else the largest fall of the cumulative curve. */
  method MaxDrawdown(values: seq<real>) returns (worst: Option<real>)
    ensures worst.None? <==> values == []
    ensures worst.Some? ==>
              LargestFall(seq(|values|, k requires 0 <= k < |values| => Point(0.0, values, k + 1)), worst.value)
  {
    var curve := EquityCurve(values);
    if curve == [] {
      return None;
    }
    assert curve == seq(|values|, k requires 0 <= k < |values| => Point(0.0, values, k + 1));
    var drop := LargestDrop(curve);
    return Some(drop);
  }

  // ---- Losing streaks -----------------------------------------------------------------------------

  function Losses(values: seq<real>, from: nat, to: nat): nat
    requires from <= to <= |values|
  {
    if from == to then 0 else Losses(values, from, to - 1) + if values[to - 1] < 0.0 then 1 else 0
  }

  ghost predicate NoWin(values: seq<real>, from: nat, to: nat)
    requires from <= to <= |values|
  {
    forall i :: from <= i < to ==> values[i] <= 0.0
  }

  /** The stretch that ends at `to` and goes back to the last win. */
  ghost predicate Current(values: seq<real>, to: nat, current: int)
    requires to <= |values|
  {
    exists from :: 0 <= from <= to && NoWin(values, from, to) && (from > 0 ==> values[from - 1] > 0.0)
      && current == Losses(values, from, to)
  }

  lemma {:induction false} LongerLosesMore(values: seq<real>, from: nat, later: nat, to: nat)
    requires from <= later <= to <= |values|
    ensures Losses(values, later, to) <= Losses(values, from, to)
  {
    if later < to {
      LongerLosesMore(values, from, later, to - 1);
    }
  }

  lemma CurrentIsLongest(values: seq<real>, from: nat, to: nat, current: int)
    requires from <= to <= |values| && NoWin(values, from, to) && Current(values, to, current)
    ensures Losses(values, from, to) <= current
  {
    var start :| 0 <= start <= to && NoWin(values, start, to) && (start > 0 ==> values[start - 1] > 0.0)
        && current == Losses(values, start, to);
    if from >= start {
      LongerLosesMore(values, start, from, to);
    }
  }

  /** The most losses in any stretch without a win; a zero neither breaks a stretch nor counts. */
  ghost predicate LongestStreak(values: seq<real>, upTo: nat, longest: int)
    requires upTo <= |values|
  {
    && (exists from, to :: 0 <= from <= to <= upTo && NoWin(values, from, to) && longest == Losses(values, from, to))
    && (forall from, to :: 0 <= from <= to <= upTo && NoWin(values, from, to) ==> Losses(values, from, to) <= longest)
  }

  method LongestLosingStreak(values: seq<real>) returns (longest: int)
    ensures LongestStreak(values, |values|, longest)
  {
    longest := 0;
    var current := 0;
    assert NoWin(values, 0, 0) && Losses(values, 0, 0) == 0;
    for i := 0 to |values|
      invariant Current(values, i, current) && LongestStreak(values, i, longest)
    {
      StreakStep(values, i, current, longest);
      if values[i] > 0.0 {
        current := 0;
      } else if values[i] < 0.0 {
        current := current + 1;
        longest := MaxInt(longest, current);
      }
    }
  }

  lemma StreakStep(values: seq<real>, i: nat, current: int, longest: int)
    requires i < |values| && Current(values, i, current) && LongestStreak(values, i, longest)
    ensures var current' := if values[i] > 0.0 then 0 else if values[i] < 0.0 then current + 1 else current;
            Current(values, i + 1, current')
              && LongestStreak(values, i + 1, if values[i] < 0.0 then MaxInt(longest, current') else longest)
  {
    var next, current' := i + 1, if values[i] > 0.0 then 0 else if values[i] < 0.0 then current + 1 else current;
    assert NoWin(values, next, next) && Losses(values, next, next) == 0;
    if values[i] <= 0.0 {
      var start :| 0 <= start <= i && NoWin(values, start, i) && (start > 0 ==> values[start - 1] > 0.0)
          && current == Losses(values, start, i);
      assert NoWin(values, start, next) && Losses(values, start, next) == current';
    }
    assert Current(values, next, current');
    forall from | 0 <= from <= next && NoWin(values, from, next) ensures Losses(values, from, next) <= current' {
      CurrentIsLongest(values, from, next, current');
    }
    forall from | 0 <= from <= i && values[i] == 0.0 && NoWin(values, from, next)
      ensures Losses(values, from, next) <= longest
    {
      assert NoWin(values, from, i) && Losses(values, from, next) == Losses(values, from, i);
    }
  }

  // ---- Realized drawdown of the paper account ------------------------------------------------------

  function ClosedKey(t: Trade): real { t.closedAt as real }

  function ClosedSince(trades: seq<Trade>, since: int): seq<Trade> {
    if trades == [] then []
    else
      var last := trades[|trades| - 1];
      ClosedSince(trades[..|trades| - 1], since) + if last.closedAt >= since then [last] else []
  }

  /** `list_trades`: oldest first, with an optional lower bound on the closing time. */
  function ListTrades(table: seq<Trade>, since: Option<int>): seq<Trade> {
    var all := SortBy(table, ClosedKey);
    if since.None? then all else ClosedSince(all, since.value)
  }

  function Results(trades: seq<Trade>): seq<real> {
    seq(|trades|, i requires 0 <= i < |trades| => trades[i].pnlAbsolute)
  }

  ghost predicate Ascending(trades: seq<Trade>) {
    forall i, j :: 0 <= i < j < |trades| ==> trades[i].closedAt <= trades[j].closedAt
  }

  lemma {:induction false} NothingSince(trades: seq<Trade>, since: int)
    requires forall i :: 0 <= i < |trades| ==> trades[i].closedAt < since
    ensures ClosedSince(trades, since) == []
  {
    if trades != [] {
      NothingSince(trades[..|trades| - 1], since);
    }
  }

  /** The window of a sorted list is a suffix. */
  lemma {:induction false} WindowIsSuffix(trades: seq<Trade>, since: int) returns (k: nat)
    requires Ascending(trades)
    ensures k <= |trades| && ClosedSince(trades, since) == trades[k..]
    ensures forall i :: 0 <= i < |trades| ==> (k <= i <==> trades[i].closedAt >= since)
  {
    if trades == [] || trades[|trades| - 1].closedAt < since {
      NothingSince(trades, since);
      k := |trades|;
    } else {
      var front, last := trades[..|trades| - 1], trades[|trades| - 1];
      k := WindowIsSuffix(front, since);
      assert front[k..] + [last] == trades[k..];
    }
  }

  lemma OpeningMatches(everything: seq<Trade>, since: int, window: seq<Trade>)
    requires Ascending(everything) && window == ClosedSince(everything, since)
    ensures |window| <= |everything|
    ensures Sum(Results(everything[..|everything| - |window|])) + Sum(Results(window)) == Sum(Results(everything))
  {
    var k := WindowIsSuffix(everything, since);
    assert Results(everything) == Results(everything[..k]) + Results(everything[k..]);
    SumSplit(Results(everything[..k]), Results(everything[k..]));
  }

  method SumResults(trades: seq<Trade>) returns (total: real)
    ensures total == Sum(Results(trades))
  {
    total := 0.0;
    for i := 0 to |trades|
      invariant total == Sum(Results(trades)[..i])
    {
      assert Results(trades)[..i + 1][..i] == Results(trades)[..i];
      total := total + trades[i].pnlAbsolute;
    }
    assert Results(trades)[..|trades|] == Results(trades);
  }

  /** Opening balance of the window: the initial balance plus everything closed before it. */
  method OpeningBalance(
    initial: real, table: seq<Trade>, since: Option<int>) returns (opening: real, window: seq<Trade>)
    ensures window == ListTrades(table, since)
    ensures opening + Sum(Results(window)) == initial + Sum(Results(ListTrades(table, None)))
    ensures since.None? ==> opening == initial
  {
    window := ListTrades(table, since);
    if since.None? {
      return initial, window;
    }
    var everything := ListTrades(table, None);
    SortedTradesAscend(table);
    OpeningMatches(everything, since.value, window);
    var before := SumResults(everything[..|everything| - |window|]);
    opening := initial + before;
  }

  lemma SortedTradesAscend(table: seq<Trade>)
    ensures Ascending(SortBy(table, ClosedKey))
  {
    var s := SortBy(table, ClosedKey);
    forall i, j | 0 <= i < j < |s| ensures s[i].closedAt <= s[j].closedAt {
      assert ClosedKey(s[i]) <= ClosedKey(s[j]);
    }
  }

  /** The balances of the window: the opening one and one after every trade. */
  function Balances(opening: real, trades: seq<Trade>): (r: seq<real>)
    ensures |r| == |trades| + 1
  {
    seq(|trades| + 1, k requires 0 <= k <= |trades| => Point(opening, Results(trades), k))
  }

  /** The running peak of the first `k + 1` balances. */
  function PeakAt(balances: seq<real>, k: nat): real
    requires k < |balances|
  {
    if k == 0 then balances[0] else MaxReal(PeakAt(balances, k - 1), balances[k])
  }

  /** A fall in percent of the peak; only a positive peak can be fallen from. */
  function Percent(drop: real, peak: real): real { if peak > 0.0 then drop / peak * 100.0 else 0.0 }

  function Drops(balances: seq<real>): (r: seq<real>)
    ensures |r| == |balances|
  {
    seq(|balances|, k requires 0 <= k < |balances| => PeakAt(balances, k) - balances[k])
  }

  function DropPcts(balances: seq<real>): (r: seq<real>)
    ensures |r| == |balances|
  {
    seq(|balances|, k requires 0 <= k < |balances| => Percent(PeakAt(balances, k) - balances[k], PeakAt(balances, k)))
  }

  /** The largest positive of the falls 1 to n (zero if there is none), and the trade that first reached it. */
  ghost predicate LargestOf(falls: seq<real>, trades: seq<Trade>, n: nat, worst: real, at: Option<int>)
    requires n <= |trades| && |falls| == |trades| + 1
  {
    && worst >= 0.0 && (forall k :: 1 <= k <= n ==> falls[k] <= worst)
    && (at.None? ==> worst == 0.0)
    && (at.Some? ==> exists k :: 1 <= k <= n && falls[k] == worst && at.value == trades[k - 1].closedAt
                                 && forall j :: 1 <= j < k ==> falls[j] < worst)
  }

  lemma LargestStep(
    falls: seq<real>, trades: seq<Trade>, n: nat, worst: real, at: Option<int>, w: real, wAt: Option<int>)
    requires n < |trades| && |falls| == |trades| + 1 && LargestOf(falls, trades, n, worst, at)
    requires w == if falls[n + 1] > worst then falls[n + 1] else worst
    requires wAt == if falls[n + 1] > worst then Some(trades[n].closedAt) else at
    ensures LargestOf(falls, trades, n + 1, w, wAt)
  {
    if falls[n + 1] > worst {
      assert falls[n + 1] == w && trades[n + 1 - 1] == trades[n];
    }
  }

  /** The comparisons in order: a fall replaces the worst so far only if it is larger. */
  function Worst(falls: seq<real>, trades: seq<Trade>, n: nat): (real, Option<int>) {
    if n == 0 || n > |trades| || n >= |falls| then (0.0, None)
    else
      var before := Worst(falls, trades, n - 1);
      if falls[n] > before.0 then (falls[n], Some(trades[n - 1].closedAt)) else before
  }

  lemma {:induction false} WorstIsLargest(falls: seq<real>, trades: seq<Trade>, n: nat)
    requires n <= |trades| && |falls| == |trades| + 1
    ensures LargestOf(falls, trades, n, Worst(falls, trades, n).0, Worst(falls, trades, n).1)
  {
    if n > 0 {
      WorstIsLargest(falls, trades, n - 1);
      var before, after := Worst(falls, trades, n - 1), Worst(falls, trades, n);
      LargestStep(falls, trades, n - 1, before.0, before.1, after.0, after.1);
    }
  }

  datatype RealizedDrawdown = RealizedDrawdown(
    opening: real, currency: real, currencyAt: Option<int>, pct: real, pctAt: Option<int>)

  lemma PercentAt(balances: seq<real>, k: nat, drop: real, peak: real)
    requires k < |balances| && peak == PeakAt(balances, k) && drop == peak - balances[k]
    ensures DropPcts(balances)[k] == Percent(drop, peak)
  {}

  lemma DropAt(balances: seq<real>, k: nat, drop: real, peak: real)
    requires k < |balances| && peak == PeakAt(balances, k) && drop == peak - balances[k]
    ensures Drops(balances)[k] == drop
  {}

  lemma WorstDropStep(balances: seq<real>, trades: seq<Trade>, n: nat, drop: real, peak: real)
    requires n < |trades| && |balances| == |trades| + 1 && peak == PeakAt(balances, n + 1)
             && drop == peak - balances[n + 1]
    ensures var before := Worst(Drops(balances), trades, n);
            Worst(Drops(balances), trades, n + 1)
            == if drop > before.0 then (drop, Some(trades[n].closedAt)) else before
  {
    DropAt(balances, n + 1, drop, peak);
  }

  /** The percentage comparison, which only a positive peak takes part in. */
  method ComparePercent(
    ghost balances: seq<real>, ghost trades: seq<Trade>, ghost n: nat, drop: real, peak: real, at: int, worst: real,
    worstAt: Option<int>) returns (w: real, wAt: Option<int>)
    requires n < |trades| && |balances| == |trades| + 1 && at == trades[n].closedAt
    requires peak == PeakAt(balances, n + 1) && drop == peak - balances[n + 1]
    requires (worst, worstAt) == Worst(DropPcts(balances), trades, n)
    ensures (w, wAt) == Worst(DropPcts(balances), trades, n + 1)
  {
    WorstPctIsNotNegative(balances, trades, n);
    PercentAt(balances, n + 1, drop, peak);
    w, wAt := worst, worstAt;
    if peak > 0.0 {
      var pct := drop / peak * 100.0;
      if pct > worst {
        w, wAt := pct, Some(at);
      }
    }
  }

  /** `balances` follows the trades from the opening balance. */
  ghost predicate Follows(balances: seq<real>, opening: real, trades: seq<Trade>) {
    && |balances| == |trades| + 1 && balances[0] == opening
    && forall i {:trigger trades[i]} :: 0 <= i < |trades| ==> balances[i + 1] == balances[i] + trades[i].pnlAbsolute
  }

  lemma BalancesFollow(opening: real, trades: seq<Trade>)
    ensures Follows(Balances(opening, trades), opening, trades)
  {
    assert Balances(opening, trades)[0] == opening;
    forall i | 0 <= i < |trades|
      ensures Balances(opening, trades)[i + 1] == Balances(opening, trades)[i] + trades[i].pnlAbsolute
    {
      PointStep(opening, Results(trades), i);
    }
  }

  /** The loop over the trades of the window. */
  method DrawdownOf(opening: real, trades: seq<Trade>, ghost balances: seq<real>) returns (d: RealizedDrawdown)
    requires Follows(balances, opening, trades)
    ensures d.opening == opening
    ensures (d.currency, d.currencyAt) == Worst(Drops(balances), trades, |trades|)
    ensures (d.pct, d.pctAt) == Worst(DropPcts(balances), trades, |trades|)
  {
    var equity, peak := opening, opening;
    var worst, worstPct := 0.0, 0.0;
    var worstAt: Option<int>, worstPctAt: Option<int> := None, None;
    for i := 0 to |trades|
      invariant equity == balances[i] && peak == PeakAt(balances, i)
      invariant (worst, worstAt) == Worst(Drops(balances), trades, i)
      invariant (worstPct, worstPctAt) == Worst(DropPcts(balances), trades, i)
    {
      equity := equity + trades[i].pnlAbsolute;
      peak := MaxReal(peak, equity);
      var drop := peak - equity;
      WorstDropStep(balances, trades, i, drop, peak);
      if drop > worst {
        worst, worstAt := drop, Some(trades[i].closedAt);
      }
      worstPct, worstPctAt := ComparePercent(
        balances, trades, i, drop, peak, trades[i].closedAt, worstPct, worstPctAt);
    }
    d := RealizedDrawdown(opening, worst, worstAt, worstPct, worstPctAt);
  }

  lemma WorstPctIsNotNegative(balances: seq<real>, trades: seq<Trade>, n: nat)
    requires n <= |trades| && |balances| == |trades| + 1
    ensures Worst(DropPcts(balances), trades, n).0 >= 0.0
  {
    WorstIsLargest(DropPcts(balances), trades, n);
  }

  method RealizedDrawdownOf(
    initial: real, table: seq<Trade>, since: Option<int>) returns (d: RealizedDrawdown, window: seq<Trade>)
    ensures window == ListTrades(table, since)
    ensures d.opening + Sum(Results(window)) == initial + Sum(Results(ListTrades(table, None)))
    ensures (d.currency, d.currencyAt) == Worst(Drops(Balances(d.opening, window)), window, |window|)
    ensures (d.pct, d.pctAt) == Worst(DropPcts(Balances(d.opening, window)), window, |window|)
  {
    var opening: real;
    opening, window := OpeningBalance(initial, table, since);
    BalancesFollow(opening, window);
    d := DrawdownOf(opening, window, Balances(opening, window));
  }

  lemma {:induction false} PeakIsMaximum(balances: seq<real>, k: nat)
    requires k < |balances|
    ensures Peak(balances, k, PeakAt(balances, k))
  {
    if k > 0 {
      PeakIsMaximum(balances, k - 1);
      var i :| 0 <= i <= k - 1 && balances[i] == PeakAt(balances, k - 1);
    }
  }

  lemma NoFallIsLarger(balances: seq<real>, trades: seq<Trade>, worst: real, at: Option<int>, i: nat, j: nat)
    requires |balances| == |trades| + 1 && LargestOf(Drops(balances), trades, |trades|, worst, at)
             && i <= j < |balances|
    ensures balances[i] - balances[j] <= worst
  {
    PeakIsMaximum(balances, j);
    if j >= 1 {
      assert Drops(balances)[j] <= worst;
    }
  }

  /** The reported fall is the largest from any balance to a later one, the opening included. */
  lemma RealizedIsLargestFall(balances: seq<real>, trades: seq<Trade>, worst: real, at: Option<int>)
    requires |balances| == |trades| + 1 && LargestOf(Drops(balances), trades, |trades|, worst, at)
    ensures LargestFall(balances, worst)
  {
    forall i, j | 0 <= i <= j < |balances| ensures balances[i] - balances[j] <= worst {
      NoFallIsLarger(balances, trades, worst, at, i, j);
    }
    if at.None? {
      FallWitness(balances, 0, 0, worst);
    } else {
      var k :| 1 <= k <= |trades| && Drops(balances)[k] == worst;
      PeakIsMaximum(balances, k);
      var i :| 0 <= i <= k && balances[i] == PeakAt(balances, k);
      FallWitness(balances, i, k, worst);
    }
  }

  lemma FallWitness(curve: seq<real>, i: nat, j: nat, worst: real)
    requires i <= j < |curve| && worst == curve[i] - curve[j]
    ensures FallsTo(curve, worst)
  {}

  /** Balance `i` is the highest of all up to `k`, and positive. */
  ghost predicate Summit(balances: seq<real>, i: int, k: int) {
    0 <= i <= k < |balances| && balances[i] > 0.0 && forall j :: 0 <= j <= k ==> balances[j] <= balances[i]
  }

  /** `part` is `pct` percent of `whole`, and at most that. */
  predicate IsPart(part: real, whole: real, pct: real) { 100.0 * part == pct * whole }

  predicate AtMostPart(part: real, whole: real, pct: real) { 100.0 * part <= pct * whole }

  lemma PercentIsPart(drop: real, peak: real, pct: real)
    requires peak > 0.0 && pct == Percent(drop, peak)
    ensures IsPart(drop, peak, pct)
  {
    MultiplyBack(drop, peak);
    Reorder(drop / peak, 100.0, peak);
  }

  lemma PartIsBounded(drop: real, peak: real, pct: real, larger: real)
    requires peak > 0.0 && IsPart(drop, peak, pct) && pct <= larger
    ensures AtMostPart(drop, peak, larger)
  {
    MulLe(pct, larger, peak);
  }

  lemma SummitIsPeak(balances: seq<real>, i: int, k: int, pct: real)
    requires Summit(balances, i, k) && pct == DropPcts(balances)[k]
    ensures IsPart(balances[i] - balances[k], balances[i], pct)
  {
    PeakIsMaximum(balances, k);
    PercentAt(balances, k, balances[i] - balances[k], balances[i]);
    PercentIsPart(balances[i] - balances[k], balances[i], pct);
  }

  lemma SummitIsCovered(balances: seq<real>, trades: seq<Trade>, pct: real, at: Option<int>, i: int, k: int)
    requires |balances| == |trades| + 1 && LargestOf(DropPcts(balances), trades, |trades|, pct, at)
    requires Summit(balances, i, k)
    ensures AtMostPart(balances[i] - balances[k], balances[i], pct)
  {
    if k >= 1 {
      SummitIsPeak(balances, i, k, DropPcts(balances)[k]);
      PartIsBounded(balances[i] - balances[k], balances[i], DropPcts(balances)[k], pct);
    } else {
      PartIsBounded(balances[i] - balances[k], balances[i], 0.0, pct);
    }
  }

  /** The fall from this balance, the highest so far, to that one is `pct` percent of it. */
  ghost predicate FallsByPercent(balances: seq<real>, i: int, k: int, pct: real) {
    Summit(balances, i, k) && IsPart(balances[i] - balances[k], balances[i], pct)
  }

  ghost predicate NoLargerPart(balances: seq<real>, pct: real) {
    forall i, k :: Summit(balances, i, k) ==> AtMostPart(balances[i] - balances[k], balances[i], pct)
  }

  /**
   * The percentage figure: no fall from the highest balance so far, if that is positive, is a
   * larger part of it, and a figure above 0 is such a fall.
   */
  lemma RealizedPctIsLargest(balances: seq<real>, trades: seq<Trade>, pct: real, at: Option<int>)
    requires |balances| == |trades| + 1 && LargestOf(DropPcts(balances), trades, |trades|, pct, at)
    ensures NoLargerPart(balances, pct)
    ensures pct > 0.0 ==> exists i, k :: FallsByPercent(balances, i, k, pct)
  {
    forall i, k | Summit(balances, i, k) ensures AtMostPart(balances[i] - balances[k], balances[i], pct) {
      SummitIsCovered(balances, trades, pct, at, i, k);
    }
    if pct > 0.0 {
      var k :| 1 <= k <= |trades| && DropPcts(balances)[k] == pct;
      PositivePctFalls(balances, k, pct);
    }
  }

  lemma PositivePctFalls(balances: seq<real>, k: nat, pct: real)
    requires k < |balances| && DropPcts(balances)[k] == pct > 0.0
    ensures exists i :: FallsByPercent(balances, i, k, pct)
  {
    PeakIsMaximum(balances, k);
    PercentAt(balances, k, PeakAt(balances, k) - balances[k], PeakAt(balances, k));
    var i :| 0 <= i <= k && balances[i] == PeakAt(balances, k);
    SummitIsPeak(balances, i, k, pct);
    assert FallsByPercent(balances, i, k, pct);
  }
}
