/** What every batch and every run of the signal generator keeps. */
module SignalGuarantees {
  import opened Common
  import opened Tradability
  import opened TradabilityScreening
  import opened SignalGeneration
  import Risk
  import OB = OrderBooks

  // ---- Whole structures ----------------------------------------------------------------------

  lemma QuotientIsLargest(q: int, d: int, k: int)
    requires d >= 1
    ensures k <= q / d <==> k * d <= q
  {
    if k <= q / d {
      assert k * d <= q / d * d;
    } else {
      assert k * d >= (q / d + 1) * d;
    }
  }

  /** `k` structures fit the risk size of this leg. */
  ghost predicate FitsLeg(s: Signal, k: int) { k * MaxInt(s.Ratio(), 1) <= s.quantity }

  ghost predicate FitsAll(sized: seq<Signal>, k: int) { forall i :: 0 <= i < |sized| ==> FitsLeg(sized[i], k) }

  lemma {:induction false} BaseIsLargest(sized: seq<Signal>, k: int)
    requires sized != []
    ensures k <= BaseQuantity(sized) <==> FitsAll(sized, k)
  {
    var front, last := sized[..|sized| - 1], sized[|sized| - 1];
    QuotientIsLargest(last.quantity, MaxInt(last.Ratio(), 1), k);
    if front != [] {
      BaseIsLargest(front, k);
      FitsAllSplits(sized, k);
    }
  }

  lemma FitsAllSplits(sized: seq<Signal>, k: int)
    requires sized != []
    ensures FitsAll(sized, k) <==> FitsAll(sized[..|sized| - 1], k) && FitsLeg(sized[|sized| - 1], k)
  {
    var front, last := sized[..|sized| - 1], sized[|sized| - 1];
    assert sized == front + [last];
    if FitsAll(front, k) && FitsLeg(last, k) {
      forall i | 0 <= i < |sized| ensures FitsLeg(sized[i], k) {
        if i < |front| { assert FitsLeg(front[i], k); }
      }
    }
    if FitsAll(sized, k) {
      forall i | 0 <= i < |front| ensures FitsLeg(front[i], k) { assert FitsLeg(sized[i], k); }
    }
  }

  /**
   * `out` is the structure of `legs` at one common size: every leg `base` times its ratio, with
   * `base` the largest number of structures that the risk size of every leg allows.
   */
  ghost predicate WholeStructure(cfg: Config, legs: seq<Signal>, sized: seq<Signal>, out: seq<Signal>, base: int) {
    && |out| == |sized| == |legs| && base >= 1
    && (forall i :: 0 <= i < |legs| ==> Sized(cfg, legs[i]) == Some(sized[i]) && Passes(cfg, sized[i]))
    && (forall i :: 0 <= i < |legs| ==> out[i] == sized[i].(quantity := base * sized[i].Ratio()))
    && (forall k :: FitsAll(sized, k) <==> k <= base)
  }

  /** A leg group comes out whole, at the largest common size, or not at all. */
  lemma GroupIsWholeOrNothing(cfg: Config, m: Memory, id: string, legs: seq<Signal>)
    requires legs != []
    ensures var out := AfterGroup(cfg, m, id, legs).1;
            out == [] || (|legs| == Expected(legs)
                          && exists sized, base :: WholeStructure(cfg, legs, sized, out, base))
  {
    CheckedLegsOutcome(cfg, m, legs);
    var out, sized := AfterGroup(cfg, m, id, legs).1, CheckedLegs(cfg, m, legs).1;
    if out != [] {
      forall i | 0 <= i < |legs| ensures Passes(cfg, sized.value[i]) { assert LegPasses(cfg, legs[i]); }
      forall k ensures FitsAll(sized.value, k) <==> k <= BaseQuantity(sized.value) { BaseIsLargest(sized.value, k); }
      assert WholeStructure(cfg, legs, sized.value, out, BaseQuantity(sized.value));
    }
  }

  // ---- What passes, and as what ------------------------------------------------------------------

  /** No minimum is set, or the confidence reaches it; an unknown confidence counts as 0. */
  predicate Confident(cfg: Config, s: Signal) {
    || cfg.minConfidence.None?
    || (s.confidence.Some? && s.confidence.value >= cfg.minConfidence.value)
    || (s.confidence.None? && cfg.minConfidence.value <= 0.0)
  }

  /** The signal as risk sizing leaves it: size and limits of the suggestion, valid for a while, all else as it was. */
  predicate SizedAs(cfg: Config, s: Signal, out: Signal) {
    && out.symbol == s.symbol && out.side == s.side && out.strike == s.strike && out.price == s.price
    && out.strategy == s.strategy && out.createdAt == s.createdAt && out.confidence == s.confidence
    && out.group == s.group && out.legCount == s.legCount && out.legRatio == s.legRatio
    && out.quantity == cfg.risk(s).quantity
    && out.stopLoss == cfg.risk(s).stopLoss && out.takeProfit == cfg.risk(s).takeProfit
    && out.contractSize == Some(if s.contractSize.Some? then s.contractSize.value else 1000)
    && out.validUntil == s.createdAt + cfg.validity
  }

  /** Sure enough, worth at least one contract, and tradable at that size if there is a gate. */
  predicate Works(cfg: Config, s: Signal, out: Signal) {
    && Confident(cfg, s) && cfg.risk(s).quantity >= 1
    && (cfg.screener.None? || cfg.screener.value(out) == Some(Tradable))
  }

  lemma SizedMeans(cfg: Config, s: Signal, out: Signal)
    requires SizedAs(cfg, s, out)
    ensures Sized(cfg, s) == if Confident(cfg, s) && cfg.risk(s).quantity >= 1 then Some(out) else None
    ensures LegPasses(cfg, s) <==> Works(cfg, s, out)
  {}

  /** A single is emitted, so sized, exactly when it works and was not emitted less than a window ago. */
  lemma SingleIsEmittedIff(cfg: Config, m: Memory, s: Signal, out: Signal, key: Key)
    requires SizedAs(cfg, s, out) && key == SingleKey(s.strategy, LegKey(s.symbol, s.side, s.strike))
    ensures AfterSingle(cfg, m, s).1
         == if Works(cfg, s, out) && !(key in m.last && s.createdAt < m.last[key] + cfg.dedupeWindow)
            then Some(out) else None
    ensures AfterSingle(cfg, m, s).0.records
         == m.records + if Confident(cfg, s) && cfg.risk(s).quantity >= 1 && cfg.screener.Some?
                           && cfg.screener.value(out).Some?
                        then [Record(s.symbol, s.side, out.quantity, cfg.screener.value(out).value, s.group)] else []
  {
    SizedMeans(cfg, s, out);
  }

  /** Every leg of an emitted group works, and comes out as sized but for the common number of structures. */
  lemma EmittedLegsAreSized(cfg: Config, m: Memory, id: string, legs: seq<Signal>, out: seq<Signal>)
    requires legs != [] && out == AfterGroup(cfg, m, id, legs).1 && out != []
    ensures |out| == |legs|
    ensures forall i :: 0 <= i < |legs| ==> SizedAs(cfg, legs[i], out[i].(quantity := cfg.risk(legs[i]).quantity))
    ensures forall i :: 0 <= i < |legs| ==>
      Works(cfg, legs[i], out[i].(quantity := cfg.risk(legs[i]).quantity))
  {
    GroupIsWholeOrNothing(cfg, m, id, legs);
    var sized: seq<Signal>, base: int :| WholeStructure(cfg, legs, sized, out, base);
    forall i | 0 <= i < |legs|
      ensures SizedAs(cfg, legs[i], out[i].(quantity := cfg.risk(legs[i]).quantity))
      ensures Works(cfg, legs[i], out[i].(quantity := cfg.risk(legs[i]).quantity))
    {
      assert out[i].(quantity := sized[i].quantity) == sized[i];
      SizedMeans(cfg, legs[i], sized[i]);
    }
  }

  /** A complete group with a leg that fails leaves a note: all its symbols, and the first leg that failed. */
  lemma BlockedGroupIsNoted(
    cfg: Config, m: Memory, id: string, legs: seq<Signal>, sized: seq<Signal>, i: int, note: Dropped)
    requires legs != [] && |legs| == Expected(legs) && |sized| == |legs|
    requires forall j :: 0 <= j < |legs| ==> SizedAs(cfg, legs[j], sized[j])
    requires 0 <= i < |legs| && !Works(cfg, legs[i], sized[i])
             && forall j :: 0 <= j < i ==> Works(cfg, legs[j], sized[j])
    requires note == Dropped(id, legs[0].strategy, Symbols(legs), legs[i].symbol)
    ensures AfterGroup(cfg, m, id, legs).0.dropped == m.dropped + [note]
    ensures AfterGroup(cfg, m, id, legs).1 == []
  {
    forall j | 0 <= j < |legs| ensures LegPasses(cfg, legs[j]) <==> Works(cfg, legs[j], sized[j]) {
      SizedMeans(cfg, legs[j], sized[j]);
    }
    assert legs[i] in legs;
    CheckedLegsOutcome(cfg, m, legs);
    assert FirstBlocked(cfg, legs) == i;
  }

  /** A group with a missing or superfluous leg, or with one leg that fails, is dropped whole. */
  lemma IncompleteGroupIsDropped(cfg: Config, m: Memory, id: string, legs: seq<Signal>)
    requires legs != [] && (|legs| != Expected(legs) || !AllPass(cfg, legs))
    ensures AfterGroup(cfg, m, id, legs).1 == []
    ensures AfterGroup(cfg, m, id, legs).0.last == m.last && AfterGroup(cfg, m, id, legs).0.log == m.log
  {
    CheckedLegsOutcome(cfg, m, legs);
  }

  /** A leg of an emitted group comes out with a positive quantity exactly when its own ratio is positive. */
  lemma EmittedQuantityIsPositiveIff(cfg: Config, m: Memory, id: string, legs: seq<Signal>)
    requires legs != []
    ensures var out := AfterGroup(cfg, m, id, legs).1;
            && (out == [] || |out| == |legs|)
            && (forall i :: 0 <= i < |out| ==>
                  && (out[i].quantity >= 1 <==> legs[i].Ratio() >= 1)
                  && (out[i].quantity == 0 <==> legs[i].Ratio() == 0))
  {
    var out := AfterGroup(cfg, m, id, legs).1;
    GroupIsWholeOrNothing(cfg, m, id, legs);
    if out != [] {
      var sized: seq<Signal>, base: int :| WholeStructure(cfg, legs, sized, out, base);
      forall i | 0 <= i < |out|
        ensures out[i].quantity >= 1 <==> legs[i].Ratio() >= 1
        ensures out[i].quantity == 0 <==> legs[i].Ratio() == 0
      {
        SignOfMultiple(base, sized[i].Ratio());
      }
    }
  }

  lemma SignOfMultiple(base: int, ratio: int)
    requires base >= 1
    ensures base * ratio >= 1 <==> ratio >= 1
    ensures base * ratio == 0 <==> ratio == 0
  {
    if ratio < 0 {
      assert base * ratio <= -1;
    }
  }

  const LOOSE := Config(0, 0, None, (s: Signal) => Risk.RiskSuggestion(3, None, None, 0.0, 0.0), None)

  const PAIR_LEG :=
    Signal("A", OB.Buy, 100.0, 5.0, 0, "pair", 0, 0, None, None, None, None, Some("g"), None, Some(1))

  /** A group of two legs with ratios 1 and 0: both are emitted, the second with quantity 0. */
  lemma ZeroRatioIsEmitted(legs: seq<Signal>)
    requires legs == [PAIR_LEG, PAIR_LEG.(symbol := "B", side := OB.Sell, legRatio := Some(0))]
    ensures var out := AfterGroup(LOOSE, Memory(map[], [], [], []), "g", legs).1;
            |out| == 2 && out[0].quantity >= 1 && out[1].quantity == 0
  {
    var m := Memory(map[], [], [], []);
    forall leg | leg in legs ensures LegPasses(LOOSE, leg) && LOOSE.risk(leg).quantity >= MaxInt(leg.Ratio(), 1) {}
    GroupIsEmittedIff(LOOSE, m, "g", legs);
    EmittedQuantityIsPositiveIff(LOOSE, m, "g", legs);
  }

  // ---- When a group is emitted ----------------------------------------------------------------

  /** Every leg may be bought or sold often enough for one whole structure. */
  ghost predicate OneFits(cfg: Config, legs: seq<Signal>) {
    forall leg :: leg in legs ==> cfg.risk(leg).quantity >= MaxInt(leg.Ratio(), 1)
  }

  lemma {:induction false} SameLegKeys(a: seq<Signal>, b: seq<Signal>)
    requires |a| == |b| && forall i :: 0 <= i < |a| ==> LegOf(a[i]) == LegOf(b[i])
    ensures LegKeys(a) == LegKeys(b)
  {
    if a != [] {
      SameLegKeys(a[..|a| - 1], b[..|b| - 1]);
    }
  }

  lemma OneFitsMeansBase(cfg: Config, legs: seq<Signal>, sized: seq<Signal>)
    requires legs != [] && |sized| == |legs|
    requires forall i :: 0 <= i < |legs| ==> Sized(cfg, legs[i]) == Some(sized[i])
    ensures BaseQuantity(sized) >= 1 <==> OneFits(cfg, legs)
  {
    BaseIsLargest(sized, 1);
    if FitsAll(sized, 1) {
      forall leg | leg in legs ensures cfg.risk(leg).quantity >= MaxInt(leg.Ratio(), 1) {
        var i :| 0 <= i < |legs| && legs[i] == leg;
        assert FitsLeg(sized[i], 1);
      }
    }
    if OneFits(cfg, legs) {
      forall i | 0 <= i < |sized| ensures FitsLeg(sized[i], 1) { assert legs[i] in legs; }
    }
  }

  /** A group is emitted exactly when it is complete, every leg passes, one structure fits and it is no repeat. */
  lemma GroupIsEmittedIff(cfg: Config, m: Memory, id: string, legs: seq<Signal>)
    requires legs != []
    ensures AfterGroup(cfg, m, id, legs).1 != []
            <==> |legs| == Expected(legs) && AllPass(cfg, legs) && OneFits(cfg, legs)
                 && !Duplicate(cfg, m, GroupKeyOf(legs), legs[0].createdAt)
  {
    CheckedLegsOutcome(cfg, m, legs);
    var sized := CheckedLegs(cfg, m, legs).1;
    if sized.Some? {
      SizedIsEmittedIff(cfg, Noted(cfg, m, id, legs), legs, sized.value);
    }
  }

  lemma SizedIsEmittedIff(cfg: Config, m: Memory, legs: seq<Signal>, sized: seq<Signal>)
    requires legs != [] && |sized| == |legs|
    requires forall i :: 0 <= i < |legs| ==> Sized(cfg, legs[i]) == Some(sized[i])
    ensures AfterSizing(cfg, m, sized).1 != []
            <==> OneFits(cfg, legs) && !Duplicate(cfg, m, GroupKeyOf(legs), legs[0].createdAt)
  {
    var final := Resize(sized, BaseQuantity(sized));
    OneFitsMeansBase(cfg, legs, sized);
    SameLegKeys(final, legs);
  }

  /** The signals' symbols, sides and strikes, each as often as it occurs. */
  function Structure(legs: seq<Signal>): multiset<LegKey> {
    multiset(seq(|legs|, i requires 0 <= i < |legs| => LegKey(legs[i].symbol, legs[i].side, legs[i].strike)))
  }

  lemma {:induction false} KeysAreStructure(legs: seq<Signal>)
    ensures LegKeys(legs) == Structure(legs)
  {
    if legs != [] {
      var front, last := legs[..|legs| - 1], legs[|legs| - 1];
      KeysAreStructure(front);
      var keys := seq(|legs|, i requires 0 <= i < |legs| => LegKey(legs[i].symbol, legs[i].side, legs[i].strike));
      assert keys == keys[..|front|] + [LegOf(last)];
      assert keys[..|front|]
          == seq(|front|, i requires 0 <= i < |front| => LegKey(front[i].symbol, front[i].side, front[i].strike));
    }
  }

  /**
   * A group is emitted exactly when it has the announced number of legs, every leg works and
   * allows one structure, and the same structure of the strategy was not emitted less than a
   * window ago.
   */
  lemma CompleteGroupIsEmittedIff(
    cfg: Config, m: Memory, id: string, legs: seq<Signal>, sized: seq<Signal>, key: Key)
    requires legs != [] && |sized| == |legs|
    requires forall i :: 0 <= i < |legs| ==> SizedAs(cfg, legs[i], sized[i])
    requires key == GroupKey(legs[0].strategy, Structure(legs))
    ensures AfterGroup(cfg, m, id, legs).1 != []
            <==> && (legs[0].legCount.Some? ==> legs[0].legCount.value == |legs|)
                 && (forall i :: 0 <= i < |legs| ==> Works(cfg, legs[i], sized[i]))
                 && (forall i :: 0 <= i < |legs| ==> cfg.risk(legs[i]).quantity >= MaxInt(legs[i].Ratio(), 1))
                 && !(key in m.last && legs[0].createdAt < m.last[key] + cfg.dedupeWindow)
  {
    KeysAreStructure(legs);
    GroupIsEmittedIff(cfg, m, id, legs);
    LegsWorkIff(cfg, legs, sized);
    assert (forall i :: 0 <= i < |legs| ==> cfg.risk(legs[i]).quantity >= MaxInt(legs[i].Ratio(), 1))
      <==> OneFits(cfg, legs);
  }

  lemma LegsWorkIff(cfg: Config, legs: seq<Signal>, sized: seq<Signal>)
    requires |sized| == |legs| && forall i :: 0 <= i < |legs| ==> SizedAs(cfg, legs[i], sized[i])
    ensures AllPass(cfg, legs) <==> forall i :: 0 <= i < |legs| ==> Works(cfg, legs[i], sized[i])
  {
    forall i | 0 <= i < |legs| ensures LegPasses(cfg, legs[i]) <==> Works(cfg, legs[i], sized[i]) {
      SizedMeans(cfg, legs[i], sized[i]);
    }
  }

  // ---- The gate at the emitted size ------------------------------------------------------------

  /** The generator screens with the real gate, over one reading of the market per symbol. */
  ghost predicate RealGate(cfg: Config, th: Thresholds, views: string -> Option<View>) {
    && cfg.screener.Some?
    && (forall s :: cfg.screener.value(s)
                    == if views(s.symbol).None? then None
                       else Some(ScreenSignal(s.side, s.quantity, views(s.symbol).value, th)))
    && (forall symbol ::
         views(symbol).Some? && views(symbol).value.book.Some? ==> views(symbol).value.book.value.WellFormed())
  }

  ghost predicate TradableAsEmitted(s: Signal, th: Thresholds, views: string -> Option<View>) {
    views(s.symbol).Some? && ScreenSignal(s.side, s.quantity, views(s.symbol).value, th).Tradable?
  }

  lemma ShrinkingKeepsTradable(s: Signal, quantity: int, th: Thresholds, views: string -> Option<View>)
    requires TradableAsEmitted(s, th, views) && MaxInt(quantity, 1) <= MaxInt(s.quantity, 1)
    requires views(s.symbol).value.book.Some? ==> views(s.symbol).value.book.value.WellFormed()
    ensures TradableAsEmitted(s.(quantity := quantity), th, views)
  {
    TradableIsDownwardClosed(s.side, MaxInt(s.quantity, 1), MaxInt(quantity, 1), views(s.symbol).value, th);
  }

  lemma EmittedIsNoLarger(base: int, ratio: int, quantity: int)
    requires base >= 1 && base * MaxInt(ratio, 1) <= quantity
    ensures MaxInt(base * ratio, 1) <= MaxInt(quantity, 1)
  {
    if ratio < 1 {
      assert base * ratio <= 0;
    }
  }

  lemma PassedIsTradable(cfg: Config, th: Thresholds, views: string -> Option<View>, s: Signal)
    requires RealGate(cfg, th, views) && Passes(cfg, s)
    ensures TradableAsEmitted(s, th, views)
  {}

  /** Shrinking the legs after the screening never emits a leg that would fail the gate as emitted. */
  lemma GroupIsTradableAsEmitted(
    cfg: Config, m: Memory, id: string, legs: seq<Signal>, th: Thresholds, views: string -> Option<View>)
    requires legs != [] && RealGate(cfg, th, views)
    ensures forall s :: s in AfterGroup(cfg, m, id, legs).1 ==> TradableAsEmitted(s, th, views)
  {
    var out := AfterGroup(cfg, m, id, legs).1;
    GroupIsWholeOrNothing(cfg, m, id, legs);
    if out != [] {
      var sized: seq<Signal>, base: int :| WholeStructure(cfg, legs, sized, out, base);
      assert FitsAll(sized, base);
      forall i | 0 <= i < |out| ensures TradableAsEmitted(out[i], th, views) {
        assert FitsLeg(sized[i], base);
        PassedIsTradable(cfg, th, views, sized[i]);
        EmittedIsNoLarger(base, sized[i].Ratio(), sized[i].quantity);
        ShrinkingKeepsTradable(sized[i], base * sized[i].Ratio(), th, views);
      }
    }
  }

  lemma {:induction false} SinglesAreTradable(
    cfg: Config, m: Memory, singles: seq<Signal>, th: Thresholds, views: string -> Option<View>)
    requires RealGate(cfg, th, views)
    ensures forall s :: s in AfterSingles(cfg, m, singles).1 ==> TradableAsEmitted(s, th, views)
  {
    if singles != [] {
      var front := singles[..|singles| - 1];
      SinglesAreTradable(cfg, m, front, th, views);
      var final := AfterSingle(cfg, AfterSingles(cfg, m, front).0, singles[|singles| - 1]).1;
      if final.Some? {
        PassedIsTradable(cfg, th, views, final.value);
      }
    }
  }

  lemma {:induction false} GroupsAreTradable(
    cfg: Config, m: Memory, raw: seq<Signal>, ids: seq<string>, th: Thresholds, views: string -> Option<View>)
    requires RealGate(cfg, th, views) && forall id :: id in ids ==> Legs(raw, id) != []
    ensures forall s :: s in AfterGroups(cfg, m, raw, ids).1 ==> TradableAsEmitted(s, th, views)
  {
    if ids != [] {
      var front, id := ids[..|ids| - 1], ids[|ids| - 1];
      GroupsAreTradable(cfg, m, raw, front, th, views);
      GroupIsTradableAsEmitted(cfg, AfterGroups(cfg, m, raw, front).0, id, Legs(raw, id), th, views);
    }
  }

  /** Everything a batch emits, single or leg, is tradable at the size it is emitted with. */
  lemma BatchIsTradableAsEmitted(
    cfg: Config, m: Memory, raw: seq<Signal>, th: Thresholds, views: string -> Option<View>)
    requires RealGate(cfg, th, views)
    ensures forall s :: s in AfterBatch(cfg, m, raw).1 ==> TradableAsEmitted(s, th, views)
  {
    SinglesAreTradable(cfg, m, Singles(raw), th, views);
    forall id | id in Ids(raw) ensures Legs(raw, id) != [] { IdsAreGroups(raw, id); }
    GroupsAreTradable(cfg, AfterSingles(cfg, m, Singles(raw)).0, raw, Ids(raw), th, views);
  }

  // ---- All or nothing over a whole batch ----------------------------------------------------------

  lemma {:induction false} LegsConcat(a: seq<Signal>, b: seq<Signal>, id: string)
    ensures Legs(a + b, id) == Legs(a, id) + Legs(b, id)
  {
    if b == [] {
      assert a + b == a;
    } else {
      assert (a + b)[..|a + b| - 1] == a + b[..|b| - 1];
      LegsConcat(a, b[..|b| - 1], id);
    }
  }

  lemma {:induction false} LegsOfOneGroup(out: seq<Signal>, g: Option<string>, id: string)
    requires forall s :: s in out ==> s.group == g
    ensures |Legs(out, id)| == if g == Some(id) then |out| else 0
  {
    if out != [] {
      LegsOfOneGroup(out[..|out| - 1], g, id);
    }
  }

  lemma {:induction false} LegsHaveGroup(raw: seq<Signal>, id: string)
    ensures forall s :: s in Legs(raw, id) ==> s.group == Some(id)
  {
    if raw != [] {
      LegsHaveGroup(raw[..|raw| - 1], id);
    }
  }

  lemma {:induction false} SinglesHaveNoGroup(cfg: Config, m: Memory, raw: seq<Signal>, singles: seq<Signal>)
    requires forall s :: s in singles ==> s.group.None?
    ensures forall s :: s in AfterSingles(cfg, m, singles).1 ==> s.group.None?
  {
    if singles != [] {
      SinglesHaveNoGroup(cfg, m, raw, singles[..|singles| - 1]);
    }
  }

  lemma {:induction false} SinglesAreUngrouped(raw: seq<Signal>)
    ensures forall s :: s in Singles(raw) ==> s.group.None?
  {
    if raw != [] {
      SinglesAreUngrouped(raw[..|raw| - 1]);
    }
  }

  lemma GroupKeepsItsLabel(cfg: Config, m: Memory, id: string, legs: seq<Signal>)
    requires legs != [] && forall s :: s in legs ==> s.group == Some(id)
    ensures forall s :: s in AfterGroup(cfg, m, id, legs).1 ==> s.group == Some(id)
    ensures AfterGroup(cfg, m, id, legs).1 == [] || |AfterGroup(cfg, m, id, legs).1| == |legs|
  {
    var out := AfterGroup(cfg, m, id, legs).1;
    GroupIsWholeOrNothing(cfg, m, id, legs);
    if out != [] {
      var sized: seq<Signal>, base: int :| WholeStructure(cfg, legs, sized, out, base);
      forall i | 0 <= i < |out| ensures out[i].group == Some(id) {
        assert legs[i] in legs;
      }
    }
  }

  ghost predicate AllOrNothing(out: seq<Signal>, raw: seq<Signal>, id: string) {
    |Legs(out, id)| == 0 || |Legs(out, id)| == |Legs(raw, id)|
  }

  lemma {:induction false} IdsAreDistinct(raw: seq<Signal>, i: nat, j: nat)
    requires i < j < |Ids(raw)|
    ensures Ids(raw)[i] != Ids(raw)[j]
  {
    var front := Ids(raw[..|raw| - 1]);
    if j < |front| {
      IdsAreDistinct(raw[..|raw| - 1], i, j);
    } else {
      assert Ids(raw)[i] == front[i];
    }
  }

  lemma {:induction false} GroupsComeWhole(cfg: Config, m: Memory, raw: seq<Signal>, ids: seq<string>, id: string)
    requires forall id :: id in ids ==> Legs(raw, id) != []
    requires forall i, j :: 0 <= i < j < |ids| ==> ids[i] != ids[j]
    ensures AllOrNothing(AfterGroups(cfg, m, raw, ids).1, raw, id)
    ensures id !in ids ==> Legs(AfterGroups(cfg, m, raw, ids).1, id) == []
  {
    if ids != [] {
      var front, last := ids[..|ids| - 1], ids[|ids| - 1];
      GroupsComeWhole(cfg, m, raw, front, id);
      var (before, out) := AfterGroups(cfg, m, raw, front);
      LegsHaveGroup(raw, last);
      GroupKeepsItsLabel(cfg, before, last, Legs(raw, last));
      var accepted := AfterGroup(cfg, before, last, Legs(raw, last)).1;
      LegsConcat(out, accepted, id);
      LegsOfOneGroup(accepted, Some(last), id);
    }
  }

  /** Of every group in a batch either every leg is emitted or none. */
  lemma BatchEmitsWholeGroups(cfg: Config, m: Memory, raw: seq<Signal>, id: string)
    ensures AllOrNothing(AfterBatch(cfg, m, raw).1, raw, id)
  {
    var (m', singles) := AfterSingles(cfg, m, Singles(raw));
    SinglesAreUngrouped(raw);
    SinglesHaveNoGroup(cfg, m, raw, Singles(raw));
    LegsOfOneGroup(singles, None, id);
    forall id | id in Ids(raw) ensures Legs(raw, id) != [] { IdsAreGroups(raw, id); }
    forall i, j | 0 <= i < j < |Ids(raw)| ensures Ids(raw)[i] != Ids(raw)[j] { IdsAreDistinct(raw, i, j); }
    GroupsComeWhole(cfg, m', raw, Ids(raw), id);
    LegsConcat(singles, AfterGroups(cfg, m', raw, Ids(raw)).1, id);
  }

  // ---- No repeats inside the window ----------------------------------------------------------------

  /** Emissions with one key are in order of time and at least one window apart. */
  ghost predicate Spaced(log: seq<Emission>, window: int) {
    forall i, j :: 0 <= i < j < |log| && log[i].key == log[j].key ==> log[j].time - log[i].time >= window
  }

  /** The memory knows the latest emission of every key. */
  ghost predicate Remembers(m: Memory) {
    && (forall e :: e in m.log ==> e.key in m.last && e.time <= m.last[e.key])
    && (forall key :: key in m.last ==> Emission(key, m.last[key]) in m.log)
  }

  ghost predicate Sound(m: Memory, window: int) { Spaced(m.log, window) && Remembers(m) }

  lemma AcceptKeepsSound(cfg: Config, m: Memory, key: Key, now: int)
    requires Sound(m, cfg.dedupeWindow) && cfg.dedupeWindow >= 0 && !Duplicate(cfg, m, key, now)
    ensures Sound(Remember(m, key, now), cfg.dedupeWindow)
  {
    var m' := Remember(m, key, now);
    forall i | 0 <= i < |m.log| && m.log[i].key == key ensures now - m.log[i].time >= cfg.dedupeWindow {
      assert m.log[i] in m.log;
    }
    forall k | k in m'.last ensures Emission(k, m'.last[k]) in m'.log {
      if k == key {
        assert m'.log[|m.log|] == Emission(key, now);
      }
    }
    forall e | e in m'.log ensures e.key in m'.last && e.time <= m'.last[e.key] {
      assert e in m.log || e == Emission(key, now);
    }
  }

  lemma SingleKeepsSound(cfg: Config, m: Memory, s: Signal)
    requires Sound(m, cfg.dedupeWindow) && cfg.dedupeWindow >= 0
    ensures Sound(AfterSingle(cfg, m, s).0, cfg.dedupeWindow)
  {
    var (m', final) := Checked(cfg, m, s);
    if final.Some? && !Duplicate(cfg, m', KeyOf(final.value), final.value.createdAt) {
      AcceptKeepsSound(cfg, m', KeyOf(final.value), final.value.createdAt);
    }
  }

  lemma GroupKeepsSound(cfg: Config, m: Memory, id: string, legs: seq<Signal>)
    requires legs != [] && Sound(m, cfg.dedupeWindow) && cfg.dedupeWindow >= 0
    ensures Sound(AfterGroup(cfg, m, id, legs).0, cfg.dedupeWindow)
  {
    CheckedLegsOutcome(cfg, m, legs);
    if |legs| == Expected(legs) && CheckedLegs(cfg, m, legs).1.Some? {
      var sized, m' := CheckedLegs(cfg, m, legs).1.value, Noted(cfg, m, id, legs);
      var final := Resize(sized, BaseQuantity(sized));
      if BaseQuantity(sized) > 0 && !Duplicate(cfg, m', GroupKeyOf(final), final[0].createdAt) {
        AcceptKeepsSound(cfg, m', GroupKeyOf(final), final[0].createdAt);
      }
    }
  }

  lemma {:induction false} SinglesKeepSound(cfg: Config, m: Memory, singles: seq<Signal>)
    requires Sound(m, cfg.dedupeWindow) && cfg.dedupeWindow >= 0
    ensures Sound(AfterSingles(cfg, m, singles).0, cfg.dedupeWindow)
  {
    if singles != [] {
      SinglesKeepSound(cfg, m, singles[..|singles| - 1]);
      SingleKeepsSound(cfg, AfterSingles(cfg, m, singles[..|singles| - 1]).0, singles[|singles| - 1]);
    }
  }

  lemma {:induction false} GroupsKeepSound(cfg: Config, m: Memory, raw: seq<Signal>, ids: seq<string>)
    requires Sound(m, cfg.dedupeWindow) && cfg.dedupeWindow >= 0
    requires forall id :: id in ids ==> Legs(raw, id) != []
    ensures Sound(AfterGroups(cfg, m, raw, ids).0, cfg.dedupeWindow)
  {
    if ids != [] {
      var front, id := ids[..|ids| - 1], ids[|ids| - 1];
      GroupsKeepSound(cfg, m, raw, front);
      GroupKeepsSound(cfg, AfterGroups(cfg, m, raw, front).0, id, Legs(raw, id));
    }
  }

  // ---- The log is what was emitted --------------------------------------------------------------

  function SingleEmissions(out: seq<Signal>): seq<Emission> {
    seq(|out|, i requires 0 <= i < |out| => Emission(KeyOf(out[i]), out[i].createdAt))
  }

  function GroupEmission(legs: seq<Signal>): seq<Emission> {
    if legs == [] then [] else [Emission(GroupKeyOf(legs), legs[0].createdAt)]
  }

  /** One emission for each of these groups that has legs among the emitted signals. */
  function GroupEmissions(out: seq<Signal>, ids: seq<string>): seq<Emission> {
    if ids == [] then []
    else GroupEmissions(out, ids[..|ids| - 1]) + GroupEmission(Legs(out, ids[|ids| - 1]))
  }

  lemma {:induction false} SinglesAreLogged(cfg: Config, m: Memory, singles: seq<Signal>)
    ensures var (m', out) := AfterSingles(cfg, m, singles); m'.log == m.log + SingleEmissions(out)
  {
    if singles != [] {
      var front := singles[..|singles| - 1];
      SinglesAreLogged(cfg, m, front);
      var (before, out) := AfterSingles(cfg, m, front);
      var (after, final) := AfterSingle(cfg, before, singles[|singles| - 1]);
      if final.Some? {
        assert SingleEmissions(out + [final.value])
            == SingleEmissions(out) + [Emission(KeyOf(final.value), final.value.createdAt)];
      }
    }
  }

  lemma GroupIsLogged(cfg: Config, m: Memory, id: string, legs: seq<Signal>)
    requires legs != []
    ensures var (m', out) := AfterGroup(cfg, m, id, legs); m'.log == m.log + GroupEmission(out)
  {
    CheckedLegsOutcome(cfg, m, legs);
  }

  lemma {:induction false} SameEmissions(a: seq<Signal>, b: seq<Signal>, ids: seq<string>)
    requires forall id :: id in ids ==> Legs(a, id) == Legs(b, id)
    ensures GroupEmissions(a, ids) == GroupEmissions(b, ids)
  {
    if ids != [] {
      assert ids[|ids| - 1] in ids;
      SameEmissions(a, b, ids[..|ids| - 1]);
    }
  }

  lemma {:induction false} LegsOfOwnGroup(out: seq<Signal>, id: string)
    requires forall s :: s in out ==> s.group == Some(id)
    ensures Legs(out, id) == out
  {
    if out != [] {
      var front, last := out[..|out| - 1], out[|out| - 1];
      assert out == front + [last] && last in out;
      LegsOfOwnGroup(front, id);
    }
  }

  lemma NewGroupEmission(
    out: seq<Signal>, accepted: seq<Signal>, front: seq<string>, last: string, ids: seq<string>)
    requires ids != [] && front == ids[..|ids| - 1] && last == ids[|ids| - 1]
    requires last !in front && Legs(out, last) == [] && forall s :: s in accepted ==> s.group == Some(last)
    ensures GroupEmissions(out + accepted, ids) == GroupEmissions(out, front) + GroupEmission(accepted)
  {
    forall id | id in front ensures Legs(out + accepted, id) == Legs(out, id) {
      LegsConcat(out, accepted, id);
      LegsOfOneGroup(accepted, Some(last), id);
    }
    SameEmissions(out + accepted, out, front);
    LegsConcat(out, accepted, last);
    LegsOfOwnGroup(accepted, last);
    assert Legs(out + accepted, last) == accepted;
  }

  ghost predicate Different(ids: seq<string>) { forall i, j :: 0 <= i < j < |ids| ==> ids[i] != ids[j] }

  lemma LastIsDifferent(ids: seq<string>)
    requires ids != [] && Different(ids)
    ensures Different(ids[..|ids| - 1]) && ids[|ids| - 1] !in ids[..|ids| - 1]
  {}

  lemma {:induction false} GroupsAreLogged(cfg: Config, m: Memory, raw: seq<Signal>, ids: seq<string>)
    requires Different(ids) && forall id :: id in ids ==> Legs(raw, id) != []
    ensures AfterGroups(cfg, m, raw, ids).0.log == m.log + GroupEmissions(AfterGroups(cfg, m, raw, ids).1, ids)
  {
    if ids != [] {
      var front, last := ids[..|ids| - 1], ids[|ids| - 1];
      var (before, out) := AfterGroups(cfg, m, raw, front);
      LastIsDifferent(ids);
      GroupsAreLogged(cfg, m, raw, front);
      GroupsComeWhole(cfg, m, raw, front, last);
      NextGroupIsLogged(cfg, before, raw, out, front, last, ids, m.log);
    }
  }

  lemma NextGroupIsLogged(
    cfg: Config, m: Memory, raw: seq<Signal>, out: seq<Signal>, front: seq<string>, last: string, ids: seq<string>,
    log: seq<Emission>)
    requires ids != [] && front == ids[..|ids| - 1] && last == ids[|ids| - 1]
    requires Legs(raw, last) != [] && last !in front && Legs(out, last) == []
    requires m.log == log + GroupEmissions(out, front)
    ensures var (after, accepted) := AfterGroup(cfg, m, last, Legs(raw, last));
            after.log == log + GroupEmissions(out + accepted, ids)
  {
    var (after, accepted) := AfterGroup(cfg, m, last, Legs(raw, last));
    GroupIsLogged(cfg, m, last, Legs(raw, last));
    LegsHaveGroup(raw, last);
    GroupKeepsItsLabel(cfg, m, last, Legs(raw, last));
    NewGroupEmission(out, accepted, front, last, ids);
    LogJoins(
      log, GroupEmissions(out, front), GroupEmission(accepted), m.log, after.log, GroupEmissions(out + accepted, ids));
  }

  lemma LogJoins(
    log: seq<Emission>, x: seq<Emission>, y: seq<Emission>, before: seq<Emission>, after: seq<Emission>,
    xy: seq<Emission>)
    requires before == log + x && after == before + y && xy == x + y
    ensures after == log + xy
  {}

  lemma {:induction false} SinglesConcat(a: seq<Signal>, b: seq<Signal>)
    requires (forall s :: s in a ==> s.group.None?) && (forall s :: s in b ==> s.group.Some?)
    ensures Singles(a + b) == a
  {
    if b != [] {
      assert (a + b)[..|a + b| - 1] == a + b[..|b| - 1];
      assert (a + b)[|a + b| - 1] in b;
      SinglesConcat(a, b[..|b| - 1]);
    } else if a != [] {
      assert a + b == a && a == a[..|a| - 1] + [a[|a| - 1]] && a[..|a| - 1] + [] == a[..|a| - 1];
      SinglesConcat(a[..|a| - 1], []);
    }
  }

  lemma {:induction false} GroupsHaveGroup(cfg: Config, m: Memory, raw: seq<Signal>, ids: seq<string>)
    requires forall id :: id in ids ==> Legs(raw, id) != []
    ensures forall s :: s in AfterGroups(cfg, m, raw, ids).1 ==> s.group.Some?
  {
    if ids != [] {
      var front, last := ids[..|ids| - 1], ids[|ids| - 1];
      GroupsHaveGroup(cfg, m, raw, front);
      LegsHaveGroup(raw, last);
      GroupKeepsItsLabel(cfg, AfterGroups(cfg, m, raw, front).0, last, Legs(raw, last));
    }
  }

  /** The log grows by exactly the signals a batch emits: one entry for each single and one for each whole group. */
  lemma BatchIsLogged(cfg: Config, m: Memory, raw: seq<Signal>)
    ensures var (m', out) := AfterBatch(cfg, m, raw);
            m'.log == m.log + SingleEmissions(Singles(out)) + GroupEmissions(out, Ids(raw))
  {
    var (m', singles) := AfterSingles(cfg, m, Singles(raw));
    forall id | id in Ids(raw) ensures Legs(raw, id) != [] { IdsAreGroups(raw, id); }
    forall i, j | 0 <= i < j < |Ids(raw)| ensures Ids(raw)[i] != Ids(raw)[j] { IdsAreDistinct(raw, i, j); }
    var groups := AfterGroups(cfg, m', raw, Ids(raw)).1;
    SinglesAreUngrouped(raw);
    SinglesHaveNoGroup(cfg, m, raw, Singles(raw));
    GroupsHaveGroup(cfg, m', raw, Ids(raw));
    SinglesConcat(singles, groups);
    SinglesAreLogged(cfg, m, Singles(raw));
    assert Different(Ids(raw));
    GroupsAreLogged(cfg, m', raw, Ids(raw));
    forall id ensures Legs(singles + groups, id) == Legs(groups, id) {
      LegsConcat(singles, groups, id);
      LegsOfOneGroup(singles, None, id);
    }
    SameEmissions(singles + groups, groups, Ids(raw));
  }

  datatype Step = Batch(raw: seq<Signal>) | NewPass | ResetDedupe

  function AfterStep(cfg: Config, m: Memory, step: Step): Memory {
    match step
    case Batch(raw) => AfterBatch(cfg, m, raw).0
    case NewPass => m.(records := [], dropped := [])
    case ResetDedupe => m.(last := map[], log := [])
  }

  function AfterSteps(cfg: Config, steps: seq<Step>): Memory {
    if steps == [] then Memory(map[], [], [], [])
    else AfterStep(cfg, AfterSteps(cfg, steps[..|steps| - 1]), steps[|steps| - 1])
  }

  /**
   * In every run, whatever the order of the creation times fed in: the accepted times of one key
   * never decrease and are at least one window apart, since the last reset of the memory.
   */
  lemma {:induction false} EveryRunIsSpaced(cfg: Config, steps: seq<Step>)
    requires cfg.dedupeWindow >= 0
    ensures Sound(AfterSteps(cfg, steps), cfg.dedupeWindow)
  {
    if steps != [] {
      var m, step := AfterSteps(cfg, steps[..|steps| - 1]), steps[|steps| - 1];
      EveryRunIsSpaced(cfg, steps[..|steps| - 1]);
      if step.Batch? {
        SinglesKeepSound(cfg, m, Singles(step.raw));
        forall id | id in Ids(step.raw) ensures Legs(step.raw, id) != [] { IdsAreGroups(step.raw, id); }
        GroupsKeepSound(cfg, AfterSingles(cfg, m, Singles(step.raw)).0, step.raw, Ids(step.raw));
      }
    }
  }

  /** In every run a candidate is refused as a repeat exactly when its key was emitted less than a window ago. */
  lemma RefusedIffRecent(cfg: Config, steps: seq<Step>, key: Key, now: int)
    requires cfg.dedupeWindow >= 0
    ensures var m := AfterSteps(cfg, steps);
            Duplicate(cfg, m, key, now) <==> exists e :: e in m.log && e.key == key && now - e.time < cfg.dedupeWindow
  {
    EveryRunIsSpaced(cfg, steps);
    var m := AfterSteps(cfg, steps);
    if Duplicate(cfg, m, key, now) {
      assert Emission(key, m.last[key]) in m.log;
    }
  }
}
