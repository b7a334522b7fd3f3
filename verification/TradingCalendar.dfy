/**
 * The trading calendar (market/trading_calendar.py): weekends, learned holidays and a fixed table
 * for the days beyond the observed history. Dates are proleptic ordinals, day 1 being a Monday.
 */
module TradingCalendars {
  import opened Common

  /** Thursday and Friday. */
  predicate Weekend(day: int) { (day + 6) % 7 == 3 || (day + 6) % 7 == 4 }

  /** The third and fourth day behind every Monday, day 1 being one. */
  lemma WeekendAfterMonday(monday: int, n: int)
    requires (monday - 1) % 7 == 0 && 0 <= n < 7
    ensures Weekend(monday + n) <==> n == 3 || n == 4
  {
    assert (monday + n + 6) % 7 == n by {
      assert monday - 1 == 7 * ((monday - 1) / 7);
      assert monday + n + 6 == 7 * ((monday - 1) / 7 + 1) + n;
    }
  }

  /** A learner put off until the first real question: the days it would bring, or a failed fetch. */
  datatype Learner = NoLearner | Brings(days: seq<int>) | Fails

  datatype Known = Known(holidays: set<int>, observedFrom: Option<int>, observedTo: Option<int>)

  function DaySet(days: seq<int>): set<int> { set i | 0 <= i < |days| :: days[i] }

  function First(days: seq<int>): (m: int)
    requires days != []
    ensures m in DaySet(days) && forall d :: d in DaySet(days) ==> m <= d
  {
    if |days| == 1 then assert days[0] in DaySet(days); days[0]
    else
      SetAppend(days);
      MinInt(First(days[..|days| - 1]), days[|days| - 1])
  }

  function Last(days: seq<int>): (m: int)
    requires days != []
    ensures m in DaySet(days) && forall d :: d in DaySet(days) ==> d <= m
  {
    if |days| == 1 then assert days[0] in DaySet(days); days[0]
    else
      SetAppend(days);
      MaxInt(Last(days[..|days| - 1]), days[|days| - 1])
  }

  lemma SetAppend(days: seq<int>)
    requires days != []
    ensures DaySet(days) == DaySet(days[..|days| - 1]) + {days[|days| - 1]}
  {
    var front, last := days[..|days| - 1], days[|days| - 1];
    forall d ensures d in DaySet(days) <==> d in DaySet(front) + {last} {
      if d in DaySet(front) {
        var i :| 0 <= i < |front| && front[i] == d;
        assert days[i] == d;
      }
      if d in DaySet(days) {
        var i :| 0 <= i < |days| && days[i] == d;
        assert i < |front| ==> front[i] == d;
      }
      assert days[|days| - 1] == last;
    }
  }

  /** Weekdays of an interval without a trade. */
  function Gaps(from: int, to: int, traded: set<int>): set<int> {
    set d | from <= d <= to && !Weekend(d) && d !in traded
  }

  /** What the calendar knows after seeing these trading days. */
  function Learned(k: Known, days: seq<int>): Known {
    if |DaySet(days)| < 2 then k
    else
      DaysExist(days);
      Known(k.holidays + Gaps(First(days), Last(days), DaySet(days)),
            Some(if k.observedFrom.None? then First(days) else MinInt(k.observedFrom.value, First(days))),
            Some(if k.observedTo.None? then Last(days) else MaxInt(k.observedTo.value, Last(days))))
  }

  lemma DaysExist(days: seq<int>)
    requires |DaySet(days)| >= 2
    ensures days != []
  {
    assert days == [] ==> DaySet(days) == {};
  }

  /** The answer, with nothing left to learn. */
  predicate Holiday(k: Known, fixed: int -> bool, day: int) {
    Weekend(day) || day in k.holidays || (!(k.observedTo.Some? && day <= k.observedTo.value) && fixed(day))
  }

  function Settled(k: Known, learner: Learner): Known { if learner.Brings? then Learned(k, learner.days) else k }

  function TradingDays(k: Known, fixed: int -> bool, from: int, to: int): set<int> {
    set d | from <= d <= to && !Holiday(k, fixed, d)
  }

  ghost predicate HasWeekday(from: int, to: int) { exists d :: from <= d <= to && !Weekend(d) }

  class TradingCalendar {
    const fixed: int -> bool
    var holidays: set<int>
    var observedFrom: Option<int>
    var observedTo: Option<int>
    var learner: Learner

    constructor (fixed: int -> bool, holidays: set<int>)
      ensures this.fixed == fixed && State() == Known(holidays, None, None) && learner == NoLearner
    {
      this.fixed, this.holidays, observedFrom, observedTo, learner := fixed, holidays, None, None, NoLearner;
    }

    function State(): Known
      reads this
    {
      Known(holidays, observedFrom, observedTo)
    }

    /** The walk from the first to the last traded day. */
    method MarkGaps(first: int, last: int, traded: set<int>) returns (learned: int)
      requires first <= last
      modifies this`holidays
      ensures holidays == old(holidays) + Gaps(first, last, traded)
      ensures learned == |holidays| - |old(holidays)|
    {
      learned := 0;
      var cursor := first;
      while cursor <= last
        invariant first <= cursor <= last + 1
        invariant holidays == old(holidays) + Gaps(first, cursor - 1, traded)
        invariant learned == |holidays| - |old(holidays)|
      {
        GapStep(old(holidays), holidays, first, cursor, traded);
        if !Weekend(cursor) && cursor !in traded && cursor !in holidays {
          holidays := holidays + {cursor};
          learned := learned + 1;
        }
        cursor := cursor + 1;
      }
    }

    method LearnFromHistory(days: seq<int>) returns (learned: int)
      modifies this
      ensures State() == Learned(old(State()), days) && learner == old(learner)
      ensures learned == |holidays| - |old(holidays)|
    {
      if |DaySet(days)| < 2 {
        return 0;
      }
      DaysExist(days);
      var first, last := First(days), Last(days);
      learned := MarkGaps(first, last, DaySet(days));
      observedFrom := Some(if observedFrom.None? then first else MinInt(observedFrom.value, first));
      observedTo := Some(if observedTo.None? then last else MaxInt(observedTo.value, last));
    }

    method AddHolidays(days: set<int>)
      modifies this`holidays
      ensures State() == old(State()).(holidays := old(holidays) + days)
    {
      holidays := holidays + days;
    }

    method DeferLearning(learner: Learner)
      modifies this`learner
      ensures this.learner == learner
    {
      this.learner := learner;
    }

    /** A weekend is answered before any learning; anything else uses the learner up, once. */
    method IsHoliday(day: int) returns (r: bool)
      modifies this
      ensures r == Holiday(State(), fixed, day)
      ensures Weekend(day) ==> State() == old(State()) && learner == old(learner)
      ensures !Weekend(day) ==> State() == Settled(old(State()), old(learner)) && learner == NoLearner
    {
      if Weekend(day) {
        return true;
      }
      var pending := learner;
      learner := NoLearner;
      if pending.Brings? {
        var _ := LearnFromHistory(pending.days);
      }
      if day in holidays {
        return true;
      }
      if observedTo.Some? && day <= observedTo.value {
        return false;
      }
      return fixed(day);
    }

    /** Counts by asking day after day; the first weekday asked may still make the calendar learn. */
    method TradingDaysBetween(start: int, end: int) returns (count: int)
      modifies this
      ensures count == |TradingDays(State(), fixed, start, end)|
      ensures HasWeekday(start, end) ==> State() == Settled(old(State()), old(learner)) && learner == NoLearner
      ensures !HasWeekday(start, end) ==> State() == old(State()) && learner == old(learner)
    {
      if end < start {
        OnlyWeekends(State(), fixed, start, end);
        return 0;
      }
      ghost var known, settled, asked := State(), Settled(State(), learner), false;
      var cursor := start;
      count := 0;
      OnlyWeekends(known, fixed, start, start - 1);
      while cursor <= end
        invariant start <= cursor <= end + 1 && (asked <==> HasWeekday(start, cursor - 1))
        invariant count == |TradingDays(if asked then settled else known, fixed, start, cursor - 1)|
        invariant if asked then State() == settled && learner == NoLearner
                  else State() == known && learner == old(learner)
      {
        var holiday := IsHoliday(cursor);
        WeekdayStep(start, cursor);
        OnlyWeekends(known, fixed, start, cursor - 1);
        OnlyWeekends(settled, fixed, start, cursor - 1);
        asked := asked || !Weekend(cursor);
        CountStep(if asked then settled else known, fixed, start, cursor);
        if !holiday {
          count := count + 1;
        }
        cursor := cursor + 1;
      }
    }
  }

  lemma GapStep(before: set<int>, holidays: set<int>, first: int, cursor: int, traded: set<int>)
    requires first <= cursor && holidays == before + Gaps(first, cursor - 1, traded)
    ensures (if !Weekend(cursor) && cursor !in traded && cursor !in holidays then holidays + {cursor} else holidays)
         == before + Gaps(first, cursor, traded)
  {
    assert Gaps(first, cursor, traded)
        == Gaps(first, cursor - 1, traded) + if !Weekend(cursor) && cursor !in traded then {cursor} else {};
  }

  lemma OnlyWeekends(k: Known, fixed: int -> bool, from: int, to: int)
    ensures !HasWeekday(from, to) ==> TradingDays(k, fixed, from, to) == {}
  {}

  lemma WeekdayStep(from: int, to: int)
    requires from <= to
    ensures HasWeekday(from, to) <==> HasWeekday(from, to - 1) || !Weekend(to)
  {
    if !Weekend(to) {
      assert from <= to <= to && !Weekend(to);
    }
  }

  lemma CountStep(k: Known, fixed: int -> bool, start: int, cursor: int)
    requires start <= cursor
    ensures |TradingDays(k, fixed, start, cursor)|
         == |TradingDays(k, fixed, start, cursor - 1)| + if Holiday(k, fixed, cursor) then 0 else 1
  {
    assert TradingDays(k, fixed, start, cursor)
        == TradingDays(k, fixed, start, cursor - 1) + if Holiday(k, fixed, cursor) then {} else {cursor};
  }

  // ---- What learning means -----------------------------------------------------------------------

  /**
   * After learning, a weekday between the first and the last traded day is a trading day exactly
   * when it was traded and was not a known holiday before.
   */
  lemma LearnedRangeIsExact(k: Known, fixed: int -> bool, days: seq<int>, d: int)
    requires |DaySet(days)| >= 2 && days != [] && First(days) <= d <= Last(days) && !Weekend(d)
    ensures Holiday(Learned(k, days), fixed, d) <==> !(d in DaySet(days) && d !in k.holidays)
  {}

  /** So for days that were no known holidays the count between them is their number, weekends aside. */
  lemma CountIsNumberOfDays(k: Known, fixed: int -> bool, days: seq<int>)
    requires |DaySet(days)| >= 2 && days != [] && DaySet(days) !! k.holidays
    ensures TradingDays(Learned(k, days), fixed, First(days), Last(days)) == set d | d in DaySet(days) && !Weekend(d)
  {
    forall d
      ensures d in TradingDays(Learned(k, days), fixed, First(days), Last(days)) <==> d in DaySet(days) && !Weekend(d)
    {
      if First(days) <= d <= Last(days) && !Weekend(d) {
        LearnedRangeIsExact(k, fixed, days, d);
      }
    }
  }

  function AfterHistories(k: Known, histories: seq<seq<int>>): Known {
    if histories == [] then k else Learned(AfterHistories(k, histories[..|histories| - 1]), histories[|histories| - 1])
  }

  /** However much is learned later, a known holiday stays one. */
  lemma {:induction false} HolidaysStay(k: Known, fixed: int -> bool, histories: seq<seq<int>>, d: int)
    requires d in k.holidays
    ensures d in AfterHistories(k, histories).holidays && Holiday(AfterHistories(k, histories), fixed, d)
  {
    if histories != [] {
      HolidaysStay(k, fixed, histories[..|histories| - 1], d);
    }
  }

  // ---- What many histories mean -----------------------------------------------------------------

  /** The range of this history, from its first to its last day, covers the day; one day alone covers nothing. */
  ghost predicate Covers(days: seq<int>, d: int) { |DaySet(days)| >= 2 && days != [] && First(days) <= d <= Last(days) }

  /** Some history covers the weekday and has no trade on it. */
  ghost predicate Lacking(histories: seq<seq<int>>, d: int) {
    !Weekend(d) && exists i :: 0 <= i < |histories| && Covers(histories[i], d) && d !in DaySet(histories[i])
  }

  /** Some history covers the day, or the range that was observed before them does. */
  ghost predicate Covered(k: Known, histories: seq<seq<int>>, d: int) {
    || (k.observedFrom.Some? && k.observedTo.Some? && k.observedFrom.value <= d <= k.observedTo.value)
    || exists i :: 0 <= i < |histories| && Covers(histories[i], d)
  }

  /** The day lies behind the end of every history and of the range observed before them. */
  ghost predicate Beyond(k: Known, histories: seq<seq<int>>, d: int) {
    && (k.observedTo.Some? ==> k.observedTo.value < d)
    && forall i :: 0 <= i < |histories| && |DaySet(histories[i])| >= 2 && histories[i] != [] ==> Last(histories[i]) < d
  }

  lemma LackingSplits(histories: seq<seq<int>>, d: int)
    requires histories != []
    ensures var front, last := histories[..|histories| - 1], histories[|histories| - 1];
            Lacking(histories, d)
            <==> Lacking(front, d) || (!Weekend(d) && Covers(last, d) && d !in DaySet(last))
  {
    var front := histories[..|histories| - 1];
    if i :| 0 <= i < |front| && Covers(front[i], d) && d !in DaySet(front[i]) {
      assert histories[i] == front[i];
    }
    if i :| 0 <= i < |histories| && Covers(histories[i], d) && d !in DaySet(histories[i]) {
      assert i < |front| ==> front[i] == histories[i];
    }
  }

  /** Exactly the days that some covering history lacks become holidays, whatever the others say. */
  lemma {:induction false} LearnedAreTheLacking(k: Known, histories: seq<seq<int>>, d: int)
    ensures d in AfterHistories(k, histories).holidays <==> d in k.holidays || Lacking(histories, d)
  {
    if histories != [] {
      LearnedAreTheLacking(k, histories[..|histories| - 1], d);
      LackingSplits(histories, d);
      var last := histories[|histories| - 1];
      if |DaySet(last)| >= 2 { DaysExist(last); }
    }
  }

  lemma BeyondSplits(k: Known, histories: seq<seq<int>>, d: int)
    requires histories != []
    ensures var front, last := histories[..|histories| - 1], histories[|histories| - 1];
            Beyond(k, histories, d)
            <==> Beyond(k, front, d) && (|DaySet(last)| >= 2 && last != [] ==> Last(last) < d)
  {
    var front, last := histories[..|histories| - 1], histories[|histories| - 1];
    assert histories == front + [last];
    if Beyond(k, front, d) && (|DaySet(last)| >= 2 && last != [] ==> Last(last) < d) {
      forall i | 0 <= i < |histories| && |DaySet(histories[i])| >= 2 && histories[i] != []
        ensures Last(histories[i]) < d
      {
        assert i < |front| ==> histories[i] == front[i];
      }
    }
    if Beyond(k, histories, d) {
      forall i | 0 <= i < |front| && |DaySet(front[i])| >= 2 && front[i] != [] ensures Last(front[i]) < d {
        assert histories[i] == front[i];
      }
    }
  }

  lemma {:induction false} ObservedIsTheLast(k: Known, histories: seq<seq<int>>, d: int)
    ensures var k' := AfterHistories(k, histories);
            k'.observedTo.Some? && d <= k'.observedTo.value <==> !Beyond(k, histories, d)
  {
    if histories != [] {
      ObservedIsTheLast(k, histories[..|histories| - 1], d);
      BeyondSplits(k, histories, d);
      var last := histories[|histories| - 1];
      if |DaySet(last)| >= 2 { DaysExist(last); }
    }
  }

  /**
   * The whole answer after any list of histories: weekends, known holidays, weekdays that a
   * covering history lacks, and behind the end of all history the days of the fixed table.
   */
  lemma AnswerIsExact(k: Known, fixed: int -> bool, histories: seq<seq<int>>, d: int)
    ensures Holiday(AfterHistories(k, histories), fixed, d)
            <==> Weekend(d) || d in k.holidays || Lacking(histories, d) || (Beyond(k, histories, d) && fixed(d))
  {
    LearnedAreTheLacking(k, histories, d);
    ObservedIsTheLast(k, histories, d);
  }

  lemma CoveredIsNotBeyond(k: Known, histories: seq<seq<int>>, d: int)
    requires Covered(k, histories, d)
    ensures !Beyond(k, histories, d)
  {
    if i :| 0 <= i < |histories| && Covers(histories[i], d) {
      assert |DaySet(histories[i])| >= 2 && histories[i] != [] && d <= Last(histories[i]);
    }
  }

  /** The answer if the fixed table spoke for every day that no history covers. */
  ghost predicate HolidayByCoverage(k: Known, fixed: int -> bool, histories: seq<seq<int>>, d: int) {
    || Weekend(d) || d in AfterHistories(k, histories).holidays
    || (!Covered(k, histories, d) && fixed(d))
  }

  /**
   * The fixed table speaks only where no history covers the day. It does not speak everywhere
   * there: exactly its unlearned weekdays before the first history, or in a gap between two, count
   * as trading days although nothing was observed.
   */
  lemma UncoveredDaysCountAsOpen(k: Known, fixed: int -> bool, histories: seq<seq<int>>, d: int)
    ensures Holiday(AfterHistories(k, histories), fixed, d) ==> HolidayByCoverage(k, fixed, histories, d)
    ensures Holiday(AfterHistories(k, histories), fixed, d) != HolidayByCoverage(k, fixed, histories, d)
            <==> !Covered(k, histories, d) && !Beyond(k, histories, d) && fixed(d) && !Weekend(d)
                 && d !in k.holidays && !Lacking(histories, d)
  {
    AnswerIsExact(k, fixed, histories, d);
    LearnedAreTheLacking(k, histories, d);
    if Covered(k, histories, d) {
      CoveredIsNotBeyond(k, histories, d);
    }
  }

  const NOTHING_KNOWN := Known({}, None, None)

  /** Histories of days 1, 2 and of days 98, 99 leave day 50 of the table open. */
  lemma GapBetweenHistories(fixed: int -> bool, early: seq<int>, late: seq<int>)
    requires fixed(50) && early == [1, 2] && late == [98, 99]
    ensures !Holiday(AfterHistories(NOTHING_KNOWN, [early, late]), fixed, 50)
    ensures HolidayByCoverage(NOTHING_KNOWN, fixed, [early, late], 50)
  {
    RangeOf(early, 1, 2);
    RangeOf(late, 98, 99);
    assert !Covers(early, 50) && !Covers(late, 50);
    assert [early, late][1] == late && !Beyond(NOTHING_KNOWN, [early, late], 50);
    UncoveredDaysCountAsOpen(NOTHING_KNOWN, fixed, [early, late], 50);
  }

  /** Day 2 was traded, and is a holiday after a thinner history of the same range. */
  lemma ThinnerHistoryCloses(fixed: int -> bool, full: seq<int>, thin: seq<int>)
    requires full == [1, 2, 8] && thin == [1, 8]
    ensures 2 in DaySet(full) && Holiday(AfterHistories(NOTHING_KNOWN, [full, thin]), fixed, 2)
  {
    RangeOf(thin, 1, 8);
    assert full[1] == 2;
    assert [full, thin][1] == thin && Covers(thin, 2) && 2 !in DaySet(thin);
    AnswerIsExact(NOTHING_KNOWN, fixed, [full, thin], 2);
  }

  lemma RangeOf(days: seq<int>, first: int, last: int)
    requires days == [first, last] && first < last
    ensures DaySet(days) == {first, last} && |DaySet(days)| == 2 && First(days) == first && Last(days) == last
  {
    assert days[0] == first && days[1] == last;
  }
}
