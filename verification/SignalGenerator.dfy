/**
 * From raw strategy signals to published ones (signals/signal_generator.py): confidence, risk
 * size, tradability gate, all-or-nothing leg groups and the memory against repeats. The risk
 * calculator and the gate are injected.
 */
module SignalGeneration {
  import opened Common
  import Risk
  import opened Tradability
  import OB = OrderBooks

  /** A strategy's signal; `group` is present for the legs of a multi-leg structure. */
  datatype Signal = Signal(
    symbol: string, side: OB.Side, strike: real, price: real, quantity: int, strategy: string,
    createdAt: int, validUntil: int, confidence: Option<real>, contractSize: Option<int>,
    stopLoss: Option<real>, takeProfit: Option<real>,
    group: Option<string>, legCount: Option<int>, legRatio: Option<int>)
  {
    function Units(): int { if contractSize.Some? then contractSize.value else 1000 }

    function Ratio(): int { if legRatio.Some? then legRatio.value else 1 }
  }

  datatype Config = Config(
    dedupeWindow: int, validity: int, minConfidence: Option<real>,
    risk: Signal -> Risk.RiskSuggestion, screener: Option<Signal -> Option<Verdict>>)

  /** What a repeat is recognised by; really a joined text, which is taken to be injective. */
  datatype Key =
    | SingleKey(strategy: string, leg: LegKey)
    | GroupKey(strategy: string, legs: multiset<LegKey>)

  datatype LegKey = LegKey(symbol: string, side: OB.Side, strike: real)

  datatype Emission = Emission(key: Key, time: int)

  datatype Record = Record(symbol: string, side: OB.Side, quantity: int, verdict: Verdict, group: Option<string>)

  datatype Dropped = Dropped(group: string, strategy: string, legs: seq<string>, blockedBy: string)

  /** The generator's memory; `log` remembers every emission since the last reset. */
  datatype Memory = Memory(last: map<Key, int>, records: seq<Record>, dropped: seq<Dropped>, log: seq<Emission>)

  // ---- One signal --------------------------------------------------------------------------

  /** Confidence filter, risk size and validity; None drops the signal. */
  function Sized(cfg: Config, s: Signal): Option<Signal> {
    var confidence := if s.confidence.Some? then s.confidence.value else 0.0;
    if cfg.minConfidence.Some? && confidence < cfg.minConfidence.value then None
    else
      var r := cfg.risk(s);
      if r.quantity <= 0 then None
      else Some(s.(quantity := r.quantity, stopLoss := r.stopLoss, takeProfit := r.takeProfit,
                   contractSize := Some(s.Units()), validUntil := s.createdAt + cfg.validity))
  }

  /** Only a tradable verdict passes; a screening that raises passes nothing and leaves no record. */
  function Passes(cfg: Config, s: Signal): bool {
    cfg.screener.None? || cfg.screener.value(s) == Some(Tradable)
  }

  function RecordsOf(cfg: Config, s: Signal): seq<Record> {
    if cfg.screener.None? || cfg.screener.value(s).None? then []
    else [Record(s.symbol, s.side, s.quantity, cfg.screener.value(s).value, s.group)]
  }

  function LegOf(s: Signal): LegKey { LegKey(s.symbol, s.side, s.strike) }

  function KeyOf(s: Signal): Key { SingleKey(s.strategy, LegOf(s)) }

  predicate Duplicate(cfg: Config, m: Memory, key: Key, now: int) {
    key in m.last && now - m.last[key] < cfg.dedupeWindow
  }

  function Remember(m: Memory, key: Key, now: int): Memory {
    m.(last := m.last[key := now], log := m.log + [Emission(key, now)])
  }

  /** `_post_process` without the memory of repeats: what the screening records and what survives. */
  function Checked(cfg: Config, m: Memory, s: Signal): (Memory, Option<Signal>) {
    var sized := Sized(cfg, s);
    if sized.None? then (m, None)
    else (m.(records := m.records + RecordsOf(cfg, sized.value)), if Passes(cfg, sized.value) then sized else None)
  }

  function AfterSingle(cfg: Config, m: Memory, s: Signal): (Memory, Option<Signal>) {
    var (m', final) := Checked(cfg, m, s);
    if final.None? || Duplicate(cfg, m', KeyOf(final.value), final.value.createdAt) then (m', None)
    else (Remember(m', KeyOf(final.value), final.value.createdAt), final)
  }

  // ---- One leg group -------------------------------------------------------------------------

  predicate LegPasses(cfg: Config, leg: Signal) {
    Sized(cfg, leg).Some? && Passes(cfg, Sized(cfg, leg).value)
  }

  /** Checks the legs in order up to the first that fails. */
  function CheckedLegs(cfg: Config, m: Memory, legs: seq<Signal>): (Memory, Option<seq<Signal>>) {
    if legs == [] then (m, Some([]))
    else
      var (before, sized) := CheckedLegs(cfg, m, legs[..|legs| - 1]);
      if sized.None? then (before, None)
      else
        var (after, final) := Checked(cfg, before, legs[|legs| - 1]);
        (after, if final.None? then None else Some(sized.value + [final.value]))
  }

  function FirstBlocked(cfg: Config, legs: seq<Signal>): (i: nat)
    requires !AllPass(cfg, legs)
    ensures i < |legs| && !LegPasses(cfg, legs[i]) && forall j :: 0 <= j < i ==> LegPasses(cfg, legs[j])
  {
    if !LegPasses(cfg, legs[0]) then 0
    else
      assert !AllPass(cfg, legs[1..]) by {
        var i :| 0 <= i < |legs| && !LegPasses(cfg, legs[i]);
        assert legs[1..][i - 1] == legs[i];
      }
      1 + FirstBlocked(cfg, legs[1..])
  }

  function Symbols(legs: seq<Signal>): seq<string> { seq(|legs|, i requires 0 <= i < |legs| => legs[i].symbol) }

  /** The number of whole structures that the size of this leg allows. */
  function Structures(s: Signal): int { s.quantity / MaxInt(s.Ratio(), 1) }

  function BaseQuantity(sized: seq<Signal>): int
    requires sized != []
  {
    var last := Structures(sized[|sized| - 1]);
    if |sized| == 1 then last else MinInt(BaseQuantity(sized[..|sized| - 1]), last)
  }

  function Resize(sized: seq<Signal>, base: int): seq<Signal> {
    seq(|sized|, i requires 0 <= i < |sized| => sized[i].(quantity := base * sized[i].Ratio()))
  }

  function LegKeys(legs: seq<Signal>): multiset<LegKey> {
    if legs == [] then multiset{} else LegKeys(legs[..|legs| - 1]) + multiset{LegOf(legs[|legs| - 1])}
  }

  function GroupKeyOf(legs: seq<Signal>): Key
    requires legs != []
  {
    GroupKey(legs[0].strategy, LegKeys(legs))
  }

  function Expected(legs: seq<Signal>): int
    requires legs != []
  {
    if legs[0].legCount.Some? then legs[0].legCount.value else |legs|
  }

  /** The memory after checking the legs, with the note about a group that a leg blocked. */
  function Noted(cfg: Config, m: Memory, id: string, legs: seq<Signal>): Memory
    requires legs != []
  {
    var (m', sized) := CheckedLegs(cfg, m, legs);
    CheckedLegsOutcome(cfg, m, legs);
    if sized.Some? then m'
    else
      var blocked := legs[FirstBlocked(cfg, legs)].symbol;
      m'.(dropped := m'.dropped + [Dropped(id, legs[0].strategy, Symbols(legs), blocked)])
  }

  /** `_process_leg_group`: the whole structure at one common size, or nothing. */
  function AfterGroup(cfg: Config, m: Memory, id: string, legs: seq<Signal>): (Memory, seq<Signal>)
    requires legs != []
  {
    if |legs| != Expected(legs) then (m, [])
    else
      var sized, m' := CheckedLegs(cfg, m, legs).1, Noted(cfg, m, id, legs);
      CheckedLegsOutcome(cfg, m, legs);
      if sized.None? then (m', []) else AfterSizing(cfg, m', sized.value)
  }

  function AfterSizing(cfg: Config, m: Memory, sized: seq<Signal>): (Memory, seq<Signal>)
    requires sized != []
  {
    var base := BaseQuantity(sized);
    if base <= 0 then (m, [])
    else
      var final := Resize(sized, base);
      if Duplicate(cfg, m, GroupKeyOf(final), final[0].createdAt) then (m, [])
      else (Remember(m, GroupKeyOf(final), final[0].createdAt), final)
  }

  /** All legs pass and come out sized in order, or some leg blocks the group. */
  lemma {:induction false} CheckedLegsOutcome(cfg: Config, m: Memory, legs: seq<Signal>)
    ensures var (m', sized) := CheckedLegs(cfg, m, legs);
            && m'.last == m.last && m'.log == m.log && m'.dropped == m.dropped
            && (sized.Some? <==> AllPass(cfg, legs))
            && (sized.Some? ==> |sized.value| == |legs|
                                && forall i :: 0 <= i < |legs| ==> Sized(cfg, legs[i]) == Some(sized.value[i]))
  {
    if legs != [] {
      var front, last := legs[..|legs| - 1], legs[|legs| - 1];
      CheckedLegsOutcome(cfg, m, front);
      AllPassAppend(cfg, front, last);
      assert legs == front + [last];
    }
  }

  ghost predicate AllPass(cfg: Config, legs: seq<Signal>) { forall leg :: leg in legs ==> LegPasses(cfg, leg) }

  lemma AllPassAppend(cfg: Config, front: seq<Signal>, last: Signal)
    ensures AllPass(cfg, front + [last]) <==> AllPass(cfg, front) && LegPasses(cfg, last)
  {
    if AllPass(cfg, front + [last]) {
      assert last in front + [last];
      forall leg | leg in front ensures LegPasses(cfg, leg) { assert leg in front + [last]; }
    }
  }

  // ---- One batch -----------------------------------------------------------------------------

  function Singles(raw: seq<Signal>): seq<Signal> {
    if raw == [] then []
    else Singles(raw[..|raw| - 1]) + if raw[|raw| - 1].group.None? then [raw[|raw| - 1]] else []
  }

  function Legs(raw: seq<Signal>, id: string): seq<Signal> {
    if raw == [] then []
    else Legs(raw[..|raw| - 1], id) + if raw[|raw| - 1].group == Some(id) then [raw[|raw| - 1]] else []
  }

  /** The group ids in order of first appearance. */
  function Ids(raw: seq<Signal>): seq<string> {
    if raw == [] then []
    else
      var before, g := Ids(raw[..|raw| - 1]), raw[|raw| - 1].group;
      if g.None? || g.value in before then before else before + [g.value]
  }

  lemma {:induction false} IdsAreGroups(raw: seq<Signal>, id: string)
    ensures id in Ids(raw) <==> Legs(raw, id) != []
  {
    if raw != [] {
      var front, g := raw[..|raw| - 1], raw[|raw| - 1].group;
      IdsAreGroups(front, id);
      if g == Some(id) {
        assert id in Ids(raw) by {
          if id !in Ids(front) { assert Ids(raw)[|Ids(front)|] == id; }
        }
        assert Legs(raw, id)[|Legs(front, id)|] == raw[|raw| - 1];
      } else {
        assert Legs(raw, id) == Legs(front, id);
      }
    }
  }

  function AfterSingles(cfg: Config, m: Memory, singles: seq<Signal>): (Memory, seq<Signal>) {
    if singles == [] then (m, [])
    else
      var (before, out) := AfterSingles(cfg, m, singles[..|singles| - 1]);
      var (after, final) := AfterSingle(cfg, before, singles[|singles| - 1]);
      (after, if final.Some? then out + [final.value] else out)
  }

  function AfterGroups(cfg: Config, m: Memory, raw: seq<Signal>, ids: seq<string>): (Memory, seq<Signal>)
    requires forall id :: id in ids ==> Legs(raw, id) != []
  {
    if ids == [] then (m, [])
    else
      var (before, out) := AfterGroups(cfg, m, raw, ids[..|ids| - 1]);
      var (after, accepted) := AfterGroup(cfg, before, ids[|ids| - 1], Legs(raw, ids[|ids| - 1]));
      (after, out + accepted)
  }

  /** `_process_batch`: the single signals first, then the groups in order of first appearance. */
  function AfterBatch(cfg: Config, m: Memory, raw: seq<Signal>): (Memory, seq<Signal>) {
    var (m', singles) := AfterSingles(cfg, m, Singles(raw));
    assert forall id :: id in Ids(raw) ==> Legs(raw, id) != [] by {
      forall id | id in Ids(raw) ensures Legs(raw, id) != [] { IdsAreGroups(raw, id); }
    }
    var (m'', groups) := AfterGroups(cfg, m', raw, Ids(raw));
    (m'', singles + groups)
  }

  method Partition(raw: seq<Signal>) returns (singles: seq<Signal>, ids: seq<string>, groups: map<string, seq<Signal>>)
    ensures singles == Singles(raw) && ids == Ids(raw)
    ensures forall id :: id in ids ==> id in groups && groups[id] == Legs(raw, id) != []
  {
    singles, ids, groups := [], [], map[];
    for i := 0 to |raw|
      invariant singles == Singles(raw[..i]) && ids == Ids(raw[..i])
      invariant forall id :: id in groups <==> id in ids
      invariant forall id :: id in groups ==> groups[id] == Legs(raw[..i], id)
    {
      assert raw[..i + 1][..i] == raw[..i];
      if raw[i].group.Some? {
        var id := raw[i].group.value;
        IdsAreGroups(raw[..i], id);
        if id !in groups {
          ids, groups := ids + [id], groups[id := []];
        }
        groups := groups[id := groups[id] + [raw[i]]];
      } else {
        singles := singles + [raw[i]];
      }
    }
    assert raw[..|raw|] == raw;
    forall id | id in ids ensures Legs(raw, id) != [] { IdsAreGroups(raw, id); }
  }

  method MinStructures(sized: seq<Signal>) returns (base: int)
    requires sized != []
    ensures base == BaseQuantity(sized)
  {
    base := Structures(sized[0]);
    for i := 1 to |sized|
      invariant base == BaseQuantity(sized[..i])
    {
      assert sized[..i + 1][..i] == sized[..i];
      base := MinInt(base, Structures(sized[i]));
    }
    assert sized[..|sized|] == sized;
  }

  method ResizeLegs(sized: seq<Signal>, base: int) returns (final: seq<Signal>)
    ensures final == Resize(sized, base)
  {
    final := sized;
    for i := 0 to |sized|
      invariant |final| == |sized|
      invariant forall j :: 0 <= j < i ==> final[j] == sized[j].(quantity := base * sized[j].Ratio())
      invariant forall j :: i <= j < |sized| ==> final[j] == sized[j]
    {
      final := final[i := final[i].(quantity := base * final[i].Ratio())];
    }
  }

  // ---- The generator ---------------------------------------------------------------------------

  class SignalGenerator {
    const cfg: Config
    var lastEmitted: map<Key, int>
    var records: seq<Record>
    var dropped: seq<Dropped>
    ghost var log: seq<Emission>

    constructor (cfg: Config)
      ensures this.cfg == cfg && State() == Memory(map[], [], [], [])
    {
      this.cfg, lastEmitted, records, dropped, log := cfg, map[], [], [], [];
    }

    ghost function State(): Memory
      reads this
    {
      Memory(lastEmitted, records, dropped, log)
    }

    method Accept(key: Key, now: int)
      modifies this
      ensures State() == Remember(old(State()), key, now)
    {
      lastEmitted, log := lastEmitted[key := now], log + [Emission(key, now)];
    }

    method PostProcess(s: Signal, allowDedupe: bool) returns (final: Option<Signal>)
      modifies this
      ensures (State(), final)
           == if allowDedupe then AfterSingle(cfg, old(State()), s) else Checked(cfg, old(State()), s)
    {
      var sized := Sized(cfg, s);
      if sized.None? {
        return None;
      }
      assert records + [] == records;
      if cfg.screener.Some? {
        var verdict := cfg.screener.value(sized.value);
        if verdict.Some? {
          records := records + [Record(sized.value.symbol, sized.value.side, sized.value.quantity, verdict.value,
            sized.value.group)];
        }
        if verdict != Some(Tradable) {
          return None;
        }
      }
      if allowDedupe {
        var key := KeyOf(sized.value);
        if key in lastEmitted && sized.value.createdAt - lastEmitted[key] < cfg.dedupeWindow {
          return None;
        }
        Accept(key, sized.value.createdAt);
      }
      return sized;
    }

    /** The loop over the legs: each is checked in order until one blocks the group. */
    method CheckLegs(id: string, legs: seq<Signal>) returns (sized: Option<seq<Signal>>)
      requires legs != []
      modifies this
      ensures sized == CheckedLegs(cfg, old(State()), legs).1
      ensures State() == Noted(cfg, old(State()), id, legs)
    {
      ghost var before := State();
      CheckedLegsOutcome(cfg, before, legs);
      var done := [];
      for i := 0 to |legs|
        invariant CheckedLegs(cfg, before, legs[..i]) == (State(), Some(done))
      {
        assert legs[..i + 1][..i] == legs[..i];
        var final := PostProcess(legs[i], false);
        if final.None? {
          BlockedHere(cfg, before, legs, i);
          dropped := dropped + [Dropped(id, legs[0].strategy, Symbols(legs), legs[i].symbol)];
          return None;
        }
        done := done + [final.value];
      }
      assert legs[..|legs|] == legs;
      return Some(done);
    }

    method ProcessLegGroup(id: string, legs: seq<Signal>) returns (out: seq<Signal>)
      requires legs != []
      modifies this
      ensures (State(), out) == AfterGroup(cfg, old(State()), id, legs)
    {
      if |legs| != Expected(legs) {
        return [];
      }
      CheckedLegsOutcome(cfg, State(), legs);
      var sized := CheckLegs(id, legs);
      if sized.None? {
        return [];
      }
      var base := MinStructures(sized.value);
      if base <= 0 {
        return [];
      }
      var final := ResizeLegs(sized.value, base);
      var key := GroupKeyOf(final);
      if key in lastEmitted && final[0].createdAt - lastEmitted[key] < cfg.dedupeWindow {
        return [];
      }
      Accept(key, final[0].createdAt);
      return final;
    }

    method ProcessBatch(raw: seq<Signal>) returns (out: seq<Signal>)
      modifies this
      ensures (State(), out) == AfterBatch(cfg, old(State()), raw)
    {
      var singles, ids, groups := Partition(raw);
      var head := ProcessSingles(singles);
      var tail := ProcessGroups(raw, ids, groups);
      return head + tail;
    }

    method ProcessSingles(singles: seq<Signal>) returns (out: seq<Signal>)
      modifies this
      ensures (State(), out) == AfterSingles(cfg, old(State()), singles)
    {
      out := [];
      for i := 0 to |singles|
        invariant AfterSingles(cfg, old(State()), singles[..i]) == (State(), out)
      {
        assert singles[..i + 1][..i] == singles[..i];
        var final := PostProcess(singles[i], true);
        if final.Some? {
          out := out + [final.value];
        }
      }
      assert singles[..|singles|] == singles;
    }

    method ProcessGroups(
      raw: seq<Signal>, ids: seq<string>, groups: map<string, seq<Signal>>) returns (out: seq<Signal>)
      requires forall id :: id in ids ==> id in groups && groups[id] == Legs(raw, id) != []
      modifies this
      ensures (State(), out) == AfterGroups(cfg, old(State()), raw, ids)
    {
      out := [];
      for i := 0 to |ids|
        invariant AfterGroups(cfg, old(State()), raw, ids[..i]) == (State(), out)
      {
        assert ids[..i + 1][..i] == ids[..i];
        var accepted := ProcessLegGroup(ids[i], groups[ids[i]]);
        out := out + accepted;
      }
      assert ids[..|ids|] == ids;
    }

    method ResetDedupeCache()
      modifies this
      ensures State() == old(State()).(last := map[], log := [])
    {
      lastEmitted, log := map[], [];
    }
  }

  lemma BlockedHere(cfg: Config, m: Memory, legs: seq<Signal>, i: nat)
    requires i < |legs| && CheckedLegs(cfg, m, legs[..i]).1.Some? && CheckedLegs(cfg, m, legs[..i + 1]).1.None?
    ensures !AllPass(cfg, legs) && FirstBlocked(cfg, legs) == i
    ensures CheckedLegs(cfg, m, legs) == CheckedLegs(cfg, m, legs[..i + 1])
  {
    CheckedLegsOutcome(cfg, m, legs[..i]);
    CheckedLegsOutcome(cfg, m, legs[..i + 1]);
    forall j | 0 <= j < i ensures LegPasses(cfg, legs[j]) {
      assert legs[..i][j] in legs[..i];
    }
    assert !LegPasses(cfg, legs[i]) by {
      var leg :| leg in legs[..i + 1] && !LegPasses(cfg, leg);
    }
    assert legs[i] in legs;
    BlockedStays(cfg, m, legs, i + 1);
  }

  lemma {:induction false} BlockedStays(cfg: Config, m: Memory, legs: seq<Signal>, n: nat)
    requires n <= |legs| && CheckedLegs(cfg, m, legs[..n]).1.None?
    ensures CheckedLegs(cfg, m, legs) == CheckedLegs(cfg, m, legs[..n])
  {
    if n == |legs| {
      assert legs[..n] == legs;
    } else {
      assert legs[..|legs| - 1][..n] == legs[..n];
      BlockedStays(cfg, m, legs[..|legs| - 1], n);
    }
  }
}
