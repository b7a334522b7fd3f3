/** Nothing that works and is new gets lost: what a batch of the signal generator has to emit. */
module SignalDelivery {
  import opened Common
  import opened Tradability
  import opened SignalGeneration
  import opened SignalGuarantees

  /** Every raw signal is either a single or a leg of its own group, and its group is looked at. */
  lemma {:induction false} BatchIsDivided(raw: seq<Signal>, s: Signal, id: string)
    ensures s in Singles(raw) <==> s in raw && s.group.None?
    ensures s in Legs(raw, id) <==> s in raw && s.group == Some(id)
    ensures s in raw && s.group == Some(id) ==> id in Ids(raw)
  {
    if raw != [] {
      var front, last := raw[..|raw| - 1], raw[|raw| - 1];
      BatchIsDivided(front, s, id);
      assert raw == front + [last];
      IdsAreGroups(raw, id);
    }
  }

  /** This key was emitted less than a window before `now`. */
  predicate Recent(cfg: Config, m: Memory, key: Key, now: int) {
    key in m.last && now < m.last[key] + cfg.dedupeWindow
  }

  ghost predicate SameFor(m: Memory, m': Memory, key: Key) {
    (key in m'.last <==> key in m.last) && (key in m.last ==> m'.last[key] == m.last[key])
  }

  // ---- Singles ------------------------------------------------------------------------------------

  lemma OtherSingleLeavesKey(cfg: Config, m: Memory, s: Signal, key: Key)
    requires KeyOf(s) != key
    ensures SameFor(m, AfterSingle(cfg, m, s).0, key)
  {}

  lemma {:induction false} OtherSinglesLeaveKey(cfg: Config, m: Memory, singles: seq<Signal>, key: Key)
    requires forall i :: 0 <= i < |singles| ==> KeyOf(singles[i]) != key
    ensures SameFor(m, AfterSingles(cfg, m, singles).0, key)
  {
    if singles != [] {
      var front := singles[..|singles| - 1];
      OtherSinglesLeaveKey(cfg, m, front, key);
      OtherSingleLeavesKey(cfg, AfterSingles(cfg, m, front).0, singles[|singles| - 1], key);
    }
  }

  lemma {:induction false} FreshIsEmitted(cfg: Config, m: Memory, singles: seq<Signal>, i: nat, out: Signal)
    requires i < |singles| && SizedAs(cfg, singles[i], out) && Works(cfg, singles[i], out)
    requires !Recent(cfg, m, KeyOf(singles[i]), singles[i].createdAt)
    requires forall j :: 0 <= j < i ==> KeyOf(singles[j]) != KeyOf(singles[i])
    ensures out in AfterSingles(cfg, m, singles).1
  {
    var front, s := singles[..|singles| - 1], singles[i];
    if i < |singles| - 1 {
      FreshIsEmitted(cfg, m, front, i, out);
    } else {
      OtherSinglesLeaveKey(cfg, m, front, KeyOf(s));
      SingleIsEmittedIff(cfg, AfterSingles(cfg, m, front).0, s, out, KeyOf(s));
    }
  }

  /** A single that works comes out of its batch, unless its key was emitted recently or came before it. */
  lemma FreshSingleIsEmitted(cfg: Config, m: Memory, raw: seq<Signal>, i: nat, s: Signal, out: Signal)
    requires i < |Singles(raw)| && s == Singles(raw)[i] && SizedAs(cfg, s, out) && Works(cfg, s, out)
    requires !Recent(cfg, m, SingleKey(s.strategy, LegKey(s.symbol, s.side, s.strike)), s.createdAt)
    requires forall j :: 0 <= j < i ==> KeyOf(Singles(raw)[j]) != KeyOf(s)
    ensures out in AfterBatch(cfg, m, raw).1
  {
    FreshIsEmitted(cfg, m, Singles(raw), i, out);
  }

  // ---- Groups -------------------------------------------------------------------------------------

  lemma OtherGroupLeavesKey(cfg: Config, m: Memory, id: string, legs: seq<Signal>, key: Key)
    requires legs != [] && GroupKeyOf(legs) != key
    ensures SameFor(m, AfterGroup(cfg, m, id, legs).0, key)
  {
    CheckedLegsOutcome(cfg, m, legs);
    var sized := CheckedLegs(cfg, m, legs).1;
    if sized.Some? {
      SameLegKeys(Resize(sized.value, BaseQuantity(sized.value)), legs);
    }
  }

  ghost predicate OtherKeys(raw: seq<Signal>, ids: seq<string>, key: Key) {
    forall i :: 0 <= i < |ids| ==> Legs(raw, ids[i]) != [] && GroupKeyOf(Legs(raw, ids[i])) != key
  }

  lemma {:induction false} OtherGroupsLeaveKey(
    cfg: Config, m: Memory, raw: seq<Signal>, ids: seq<string>, key: Key)
    requires OtherKeys(raw, ids, key)
    ensures SameFor(m, AfterGroups(cfg, m, raw, ids).0, key)
  {
    if ids != [] {
      var front, last := ids[..|ids| - 1], ids[|ids| - 1];
      OtherGroupsLeaveKey(cfg, m, raw, front, key);
      OtherGroupLeavesKey(cfg, AfterGroups(cfg, m, raw, front).0, last, Legs(raw, last), key);
    }
  }

  /** The group is complete, every leg works and allows one structure. */
  ghost predicate GroupWorks(cfg: Config, legs: seq<Signal>, sized: seq<Signal>) {
    && legs != [] && |sized| == |legs| && (legs[0].legCount.Some? ==> legs[0].legCount.value == |legs|)
    && (forall i :: 0 <= i < |legs| ==> SizedAs(cfg, legs[i], sized[i]) && Works(cfg, legs[i], sized[i]))
    && (forall i :: 0 <= i < |legs| ==> cfg.risk(legs[i]).quantity >= MaxInt(legs[i].Ratio(), 1))
  }

  lemma {:induction false} FreshGroupComesOut(
    cfg: Config, m: Memory, raw: seq<Signal>, ids: seq<string>, k: nat, sized: seq<Signal>, key: Key)
    requires k < |ids| && (forall id :: id in ids ==> Legs(raw, id) != []) && OtherKeys(raw, ids[..k], key)
    requires GroupWorks(cfg, Legs(raw, ids[k]), sized)
    requires key == GroupKey(Legs(raw, ids[k])[0].strategy, Structure(Legs(raw, ids[k])))
    requires !Recent(cfg, m, key, Legs(raw, ids[k])[0].createdAt)
    ensures exists s :: s in AfterGroups(cfg, m, raw, ids).1 && s.group == Some(ids[k])
  {
    var front, legs := ids[..|ids| - 1], Legs(raw, ids[k]);
    if k < |ids| - 1 {
      assert front[..k] == ids[..k];
      FreshGroupComesOut(cfg, m, raw, front, k, sized, key);
      var s :| s in AfterGroups(cfg, m, raw, front).1 && s.group == Some(ids[k]);
      assert s in AfterGroups(cfg, m, raw, ids).1;
    } else {
      var before := AfterGroups(cfg, m, raw, front).0;
      assert front == ids[..k];
      OtherGroupsLeaveKey(cfg, m, raw, front, key);
      CompleteGroupIsEmittedIff(cfg, before, ids[k], legs, sized, key);
      FirstLegIsLabelled(cfg, before, raw, ids[k]);
      assert AfterGroup(cfg, before, ids[k], legs).1[0] in AfterGroups(cfg, m, raw, ids).1;
    }
  }

  lemma FirstLegIsLabelled(cfg: Config, m: Memory, raw: seq<Signal>, id: string)
    requires Legs(raw, id) != [] && AfterGroup(cfg, m, id, Legs(raw, id)).1 != []
    ensures AfterGroup(cfg, m, id, Legs(raw, id)).1[0].group == Some(id)
  {
    LegsHaveGroup(raw, id);
    EmittedLegsAreSized(cfg, m, id, Legs(raw, id), AfterGroup(cfg, m, id, Legs(raw, id)).1);
  }

  /**
   * A complete group whose legs all work comes out of its batch with all its legs, unless its
   * structure was emitted recently or an earlier group of the batch has the same.
   */
  lemma FreshGroupIsEmitted(
    cfg: Config, m: Memory, raw: seq<Signal>, k: nat, id: string, legs: seq<Signal>, sized: seq<Signal>, key: Key)
    requires k < |Ids(raw)| && id == Ids(raw)[k] && legs == Legs(raw, id) && GroupWorks(cfg, legs, sized)
    requires key == GroupKey(legs[0].strategy, Structure(legs)) && !Recent(cfg, m, key, legs[0].createdAt)
    requires OtherKeys(raw, Ids(raw)[..k], key)
    ensures |Legs(AfterBatch(cfg, m, raw).1, id)| == |legs|
  {
    forall g | g in Ids(raw) ensures Legs(raw, g) != [] { IdsAreGroups(raw, g); }
    var (m', singles) := AfterSingles(cfg, m, Singles(raw));
    OtherSinglesLeaveKey(cfg, m, Singles(raw), key);
    FreshGroupComesOut(cfg, m', raw, Ids(raw), k, sized, key);
    var s :| s in AfterGroups(cfg, m', raw, Ids(raw)).1 && s.group == Some(id);
    BatchIsDivided(AfterBatch(cfg, m, raw).1, s, id);
    BatchEmitsWholeGroups(cfg, m, raw, id);
  }
}
