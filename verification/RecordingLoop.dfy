/**
 * The recording schedule (market/schedule.py) and the loop that follows it
 * (scripts/record_market.py). Local times are microseconds from some local midnight, in a zone
 * of fixed offset.
 */
module Schedules {
  import opened Common

  const SECOND := 1_000_000
  const DAY := 86_400 * SECOND

  function Midnight(t: int): int { t - t % DAY }

  /** The session of a day with its closing grace, as times of day. */
  datatype Window = Window(start: int, end: int, graceSeconds: int) {
    predicate Valid() { 0 <= start < end < DAY && graceSeconds >= 0 }

    predicate Contains(t: int) { Midnight(t) + start <= t <= Midnight(t) + end + graceSeconds * SECOND }

    predicate AfterClose(t: int) { t > Midnight(t) + end && Contains(t) }
  }

  datatype Decision = NotTradingDay | OutsideWindow | ClosingGrace | SessionOpen {
    predicate Records() { ClosingGrace? || SessionOpen? }
  }

  function Decide(t: int, window: Window, tradingDay: bool): Decision {
    if !tradingDay then NotTradingDay
    else if !window.Contains(t) then OutsideWindow
    else if window.AfterClose(t) then ClosingGrace
    else SessionOpen
  }

  /** Each answer by its own condition, in times of day: the session, and the grace behind it. */
  lemma DecisionByTime(t: int, window: Window, tradingDay: bool, time: int)
    requires window.Valid() && time == t % DAY
    ensures Decide(t, window, tradingDay).NotTradingDay? <==> !tradingDay
    ensures Decide(t, window, tradingDay).SessionOpen? <==> tradingDay && window.start <= time <= window.end
    ensures Decide(t, window, tradingDay).ClosingGrace?
            <==> tradingDay && window.end < time <= window.end + window.graceSeconds * SECOND
    ensures Decide(t, window, tradingDay).OutsideWindow?
            <==> tradingDay && (time < window.start || time > window.end + window.graceSeconds * SECOND)
  {
    var grace := window.graceSeconds * SECOND;
    assert grace >= 0 && t == Midnight(t) + time;
  }

  /** The next aligned moment strictly after `now`; alignment starts at local midnight. */
  function NextTick(now: int, interval: int): int
    requires interval > 0
  {
    Midnight(now) + ((now - Midnight(now)) / interval + 1) * interval
  }

  function SkippedTicks(expected: int, actual: int, interval: int): int
    requires interval > 0
  {
    MaxInt((actual - expected) / interval, 0)
  }

  /** The start of the slot that `t` lies in. */
  function SlotOf(t: int, interval: int): int
    requires interval > 0
  {
    Midnight(t) + (t - Midnight(t)) / interval * interval
  }

  // ---- Alignment -----------------------------------------------------------------------------

  lemma Division(x: int, i: int)
    requires i > 0
    ensures x / i * i == x - x % i && 0 <= x % i < i
    ensures (x / i + 1) * i == x - x % i + i
  {}

  lemma IntMulLe(a: int, b: int, c: int)
    requires a <= b && c >= 0
    ensures a * c <= b * c
  {}

  lemma FloorMonotone(x: int, y: int, i: int)
    requires i > 0 && x <= y
    ensures x / i <= y / i && x / i * i <= y / i * i
  {
    var p, q := x / i, y / i;
    Division(x, i);
    Division(y, i);
    if q + 1 <= p {
      IntMulLe(q + 1, p, i);
    }
    IntMulLe(MinInt(p, q), q, i);
  }

  lemma LaterMidnight(a: int, b: int)
    requires a <= b
    ensures Midnight(a) <= Midnight(b)
    ensures Midnight(a) != Midnight(b) ==> Midnight(b) > a
  {
    FloorMonotone(a, b, DAY);
    Division(a, DAY);
    Division(b, DAY);
    if Midnight(a) != Midnight(b) && Midnight(b) <= a {
      FloorMonotone(Midnight(b), a, DAY);
      Division(Midnight(b), DAY);
    }
  }

  lemma TickOf(now: int, interval: int)
    requires interval > 0
    ensures NextTick(now, interval) == SlotOf(now, interval) + interval
    ensures SlotOf(now, interval) <= now < NextTick(now, interval) <= now + interval
    ensures SlotOf(now, interval) >= Midnight(now)
  {
    Division(now - Midnight(now), interval);
    FloorMonotone(0, now - Midnight(now), interval);
  }

  /** `next_tick` is the first moment after `now` on the grid of `now`'s day. */
  lemma NextTickIsFirst(now: int, interval: int, k: int)
    requires interval > 0
    ensures NextTick(now, interval) > now
    ensures (NextTick(now, interval) - Midnight(now)) % interval == 0
    ensures Midnight(now) + k * interval > now ==> Midnight(now) + k * interval >= NextTick(now, interval)
  {
    MultipleHasNoRemainder((now - Midnight(now)) / interval + 1, interval);
    TickOf(now, interval);
    var x := now - Midnight(now);
    Division(x, interval);
    if k <= x / interval {
      IntMulLe(k, x / interval, interval);
    } else {
      IntMulLe(x / interval + 1, k, interval);
    }
  }

  lemma IntDistribute(a: int, b: int, c: int)
    ensures (a - b) * c == a * c - b * c
  {}

  lemma RemaindersAgree(x: int, y: int, i: int)
    requires i > 0
    ensures x % i == y % i <==> (x - y) % i == 0
  {
    Division(x, i);
    Division(y, i);
    Division(x - y, i);
    QuotientsTell(x / i, y / i, (x - y) / i, x % i, y % i, (x - y) % i, i);
  }

  /** Quotients and remainders of two numbers and of their difference. */
  lemma QuotientsTell(a: int, b: int, c: int, rx: int, ry: int, r: int, i: int)
    requires i > 0 && 0 <= rx < i && 0 <= ry < i && 0 <= r < i
    requires a * i + rx - (b * i + ry) == c * i + r
    ensures rx == ry <==> r == 0
  {
    IntDistribute(a, b, i);
    IntDistribute(a - b, c, i);
    if rx == ry || r == 0 {
      SmallMultiple(a - b - c, i);
    }
  }

  lemma MultipleHasNoRemainder(q: int, i: int)
    requires i > 0
    ensures q * i % i == 0
  {
    Division(q * i, i);
    var p := q * i / i;
    assert (q - p) * i == q * i % i;
    SmallMultiple(q - p, i);
  }

  lemma SmallMultiple(p: int, i: int)
    requires i > 0 && -i < p * i < i
    ensures p == 0
  {
    if p >= 1 {
      IntMulLe(1, p, i);
    } else if p <= -1 {
      IntMulLe(p, -1, i);
    }
  }

  /** The documented count of missed slots and the next tick fit exactly when the wake-up day's grid
   * contains the expected tick. */
  lemma NextTickAfterDelay(expected: int, actual: int, interval: int)
    requires interval > 0 && actual >= expected
    ensures NextTick(actual, interval) == expected + (SkippedTicks(expected, actual, interval) + 1) * interval
            <==> (expected - Midnight(actual)) % interval == 0
  {
    var x, y := actual - Midnight(actual), actual - expected;
    Division(x, interval);
    Division(y, interval);
    FloorMonotone(0, y, interval);
    RemaindersAgree(x, y, interval);
    assert x - y == expected - Midnight(actual);
  }

  /** On the day of the tick it always fits. */
  lemma SameDayCount(before: int, expected: int, actual: int, interval: int)
    requires interval > 0 && expected == NextTick(before, interval) && actual >= expected
             && Midnight(actual) == Midnight(before)
    ensures NextTick(actual, interval) == expected + (SkippedTicks(expected, actual, interval) + 1) * interval
  {
    MultipleHasNoRemainder((before - Midnight(before)) / interval + 1, interval);
    NextTickAfterDelay(expected, actual, interval);
  }

  /** Over midnights it fits exactly when the interval divides the days between. */
  lemma OtherDayCount(before: int, expected: int, actual: int, interval: int)
    requires interval > 0 && expected == NextTick(before, interval) && actual >= expected
    ensures NextTick(actual, interval) == expected + (SkippedTicks(expected, actual, interval) + 1) * interval
            <==> (Midnight(actual) - Midnight(before)) % interval == 0
  {
    var k := (before - Midnight(before)) / interval + 1;
    NextTickAfterDelay(expected, actual, interval);
    RemaindersAgree(expected, Midnight(actual), interval);
    RemaindersAgree(Midnight(actual), Midnight(before), interval);
    RemaindersAgree(expected, Midnight(before), interval);
    assert expected - Midnight(before) == k * interval;
    MultipleHasNoRemainder(k, interval);
  }

  /** For instance it does not fit with seven hours, if one sleeps from one evening to the next day's noon. */
  lemma SevenHoursDoNotFit(interval: int, before: int, expected: int, actual: int)
    requires interval == 25_200 * SECOND && before == 72_000 * SECOND && actual == 129_600 * SECOND
    requires expected == NextTick(before, interval)
    ensures actual >= expected
    ensures NextTick(actual, interval) != expected + (SkippedTicks(expected, actual, interval) + 1) * interval
  {
    assert Midnight(before) == 0 && Midnight(actual) == DAY;
    TickOf(before, interval);
    assert DAY == 3 * interval + 10_800 * SECOND;
    OtherDayCount(before, expected, actual, interval);
  }

  /** Whoever waits for the next tick after `now` wakes in a later slot than anything up to `now`. */
  lemma WakesInLaterSlot(earlier: int, now: int, woken: int, interval: int)
    requires interval > 0 && earlier <= now && woken >= NextTick(now, interval)
    ensures SlotOf(earlier, interval) < SlotOf(woken, interval)
  {
    TickOf(earlier, interval);
    TickOf(now, interval);
    TickOf(woken, interval);
    LaterMidnight(now, woken);
    if Midnight(now) == Midnight(woken) {
      var x, y := now - Midnight(now), woken - Midnight(now);
      Division(x, interval);
      MultipleHasNoRemainder(x / interval + 1, interval);
      FloorMonotone((x / interval + 1) * interval, y, interval);
      Division((x / interval + 1) * interval, interval);
    }
  }
}

/** The loop: one target at a time, always computed from the clock. */
module RecordingLoop {
  import opened Common
  import opened Schedules

  datatype Exit = Ok | Failed | Misuse

  /** One round: the clock when it asked, the tick it waited for, when it woke, and what a recording returned. */
  datatype Round = Round(asked: int, target: int, moment: int, exit: Option<Exit>)

  /** The clock never runs backwards. */
  ghost predicate Monotone(readings: seq<int>) {
    forall i, j :: 0 <= i <= j < |readings| ==> readings[i] <= readings[j]
  }

  /** A failing calendar must not stop the recording. */
  function TradingDay(calendar: int -> Option<bool>, t: int): bool {
    calendar(Midnight(t)).None? || calendar(Midnight(t)).value
  }

  /** A day the calendar does not rule out, from the opening to the end of the grace. */
  ghost predicate InSession(t: int, window: Window, calendar: int -> Option<bool>) {
    && calendar(Midnight(t)) != Some(false)
    && Midnight(t) + window.start <= t <= Midnight(t) + window.end + window.graceSeconds * SECOND
  }

  lemma RecordsInSession(t: int, window: Window, calendar: int -> Option<bool>)
    ensures Decide(t, window, TradingDay(calendar, t)).Records() <==> InSession(t, window, calendar)
  {}

  ghost predicate RoundSound(r: Round, window: Window, calendar: int -> Option<bool>, interval: int)
    requires interval > 0
  {
    && r.target == NextTick(r.asked, interval) && r.moment >= r.target
    && (r.exit.Some? <==> InSession(r.moment, window, calendar))
  }

  ghost predicate Progress(rounds: seq<Round>, interval: int)
    requires interval > 0
  {
    forall i, j :: 0 <= i < j < |rounds| ==>
      rounds[i].moment <= rounds[j].asked && rounds[i].target < rounds[j].target
        && SlotOf(rounds[i].moment, interval) < SlotOf(rounds[j].moment, interval)
  }

  function CountExit(rounds: seq<Round>, e: Exit): nat {
    if rounds == [] then 0
    else CountExit(rounds[..|rounds| - 1], e) + if rounds[|rounds| - 1].exit == Some(e) then 1 else 0
  }

  /**
   * Reads the clock until `target` has come; the sleeps in between are bounded by one second and
   * may last longer. None when the readings end, which stands for an interrupt.
   */
  method SleepUntil(target: int, readings: seq<int>, from: nat) returns (next: nat, awake: bool)
    requires from <= |readings|
    ensures from <= next <= |readings| && (awake ==> from < next && readings[next - 1] >= target)
    ensures !awake ==> next == |readings|
    ensures forall i :: from <= i < (if awake then next - 1 else next) ==> readings[i] < target
  {
    next := from;
    while next < |readings|
      invariant from <= next <= |readings| && forall i :: from <= i < next ==> readings[i] < target
    {
      var now := readings[next];
      next := next + 1;
      if target - now <= 0 {
        return next, true;
      }
    }
    return next, false;
  }

  ghost predicate Past(moment: int, readings: seq<int>, next: int) {
    forall i :: 0 <= next <= i < |readings| ==> moment <= readings[i]
  }

  /**
   * One round asks at reading `from`, sleeps through every reading before its target, is woken by
   * the first that is not, and takes the one behind as its moment, the last before `next`.
   */
  ghost predicate RoundAt(r: Round, readings: seq<int>, from: int, next: int) {
    && 0 <= from && from + 3 <= next <= |readings| && r.asked == readings[from] && r.moment == readings[next - 1]
    && readings[next - 2] >= r.target && forall i :: from < i < next - 2 ==> readings[i] < r.target
  }

  /** The rounds use the readings up from the first one on, each right behind the one before. */
  ghost predicate Consecutive(rounds: seq<Round>, readings: seq<int>, at: seq<nat>) {
    && |at| == |rounds| + 1 && at[0] == 0
    && forall i :: 0 <= i < |rounds| ==> RoundAt(rounds[i], readings, at[i], at[i + 1])
  }

  /** What the recordings of these rounds returned, in order. */
  function ExitsOf(rounds: seq<Round>): seq<Exit> {
    if rounds == [] then []
    else
      var e := rounds[|rounds| - 1].exit;
      ExitsOf(rounds[..|rounds| - 1]) + if e.Some? then [e.value] else []
  }

  /** The readings end before another round has woken up and looked at the clock. */
  ghost predicate ReadingsEnd(readings: seq<int>, from: int, interval: int)
    requires interval > 0 && from >= 0
  {
    from < |readings| ==> forall i :: from < i < |readings| - 1 ==> readings[i] < NextTick(readings[from], interval)
  }

  /** Another round would wake up and record. */
  ghost predicate WouldRecord(
    readings: seq<int>, from: int, window: Window, calendar: int -> Option<bool>, interval: int)
    requires interval > 0
  {
    exists r, next ::
      && RoundAt(r, readings, from, next) && r.target == NextTick(r.asked, interval)
      && InSession(r.moment, window, calendar)
  }

  /** The loop ends only on misuse, with the readings, or where a recording would need another result. */
  ghost predicate Ends(
    exit: Exit, readings: seq<int>, from: int, rounds: seq<Round>, results: seq<Exit>, window: Window,
    calendar: int -> Option<bool>, interval: int)
    requires interval > 0 && from >= 0
  {
    || exit.Misuse?
    || ReadingsEnd(readings, from, interval)
    || (ExitsOf(rounds) == results && WouldRecord(readings, from, window, calendar, interval))
  }

  /** What the loop knows after reading the clock `next` times. */
  ghost predicate LoopSound(
    rounds: seq<Round>, readings: seq<int>, next: int, window: Window, calendar: int -> Option<bool>, interval: int)
    requires interval > 0
  {
    && (forall i :: 0 <= i < |rounds| ==> RoundSound(rounds[i], window, calendar, interval))
    && (forall i :: 0 <= i < |rounds| ==> Past(rounds[i].moment, readings, next))
    && Progress(rounds, interval)
  }

  lemma RoundKeepsSound(
    rounds: seq<Round>, r: Round, readings: seq<int>, clock: nat, next: nat, window: Window,
    calendar: int -> Option<bool>, interval: int)
    requires interval > 0 && Monotone(readings) && clock < next <= |readings|
    requires LoopSound(rounds, readings, clock, window, calendar, interval) && RoundSound(r, window, calendar, interval)
    requires r.asked == readings[clock] && r.moment == readings[next - 1]
    ensures LoopSound(rounds + [r], readings, next, window, calendar, interval)
  {
    forall i | 0 <= i < |rounds|
      ensures rounds[i].moment <= r.asked && rounds[i].target < r.target
      ensures SlotOf(rounds[i].moment, interval) < SlotOf(r.moment, interval)
      ensures Past(rounds[i].moment, readings, next)
    {
      assert Past(rounds[i].moment, readings, clock);
      TickOf(readings[clock], interval);
      WakesInLaterSlot(rounds[i].moment, readings[clock], r.moment, interval);
    }
    assert Past(r.moment, readings, next);
  }

  lemma RoundIsConsecutive(rounds: seq<Round>, r: Round, readings: seq<int>, at: seq<nat>, next: nat)
    requires Consecutive(rounds, readings, at) && RoundAt(r, readings, at[|rounds|], next)
    ensures Consecutive(rounds + [r], readings, at + [next])
  {
    forall i | 0 <= i <= |rounds| ensures RoundAt((rounds + [r])[i], readings, (at + [next])[i], (at + [next])[i + 1]) {
      if i < |rounds| { assert RoundAt(rounds[i], readings, at[i], at[i + 1]); }
    }
  }

  lemma RoundIsCounted(rounds: seq<Round>, r: Round)
    ensures forall e :: CountExit(rounds + [r], e) == CountExit(rounds, e) + if r.exit == Some(e) then 1 else 0
    ensures ExitsOf(rounds + [r]) == ExitsOf(rounds) + if r.exit.Some? then [r.exit.value] else []
  {
    assert (rounds + [r])[..|rounds|] == rounds;
  }

  ghost predicate NeverMisused(rounds: seq<Round>) { forall i :: 0 <= i < |rounds| ==> rounds[i].exit != Some(Misuse) }

  /** One pass through the loop body up to the recording; None when the readings end. */
  method NextRound(readings: seq<int>, window: Window, calendar: int -> Option<bool>, interval: int, from: nat)
    returns (next: nat, round: Option<Round>, records: bool)
    requires interval > 0 && from < |readings|
    ensures from < next <= |readings| && (round.None? ==> ReadingsEnd(readings, from, interval))
    ensures round.Some? ==> RoundAt(round.value, readings, from, next) && round.value.exit.None?
                            && round.value.target == NextTick(readings[from], interval)
    ensures round.Some? ==> (records <==> InSession(round.value.moment, window, calendar))
  {
    var target := NextTick(readings[from], interval);
    var awake: bool;
    next, awake := SleepUntil(target, readings, from + 1);
    if !awake || next == |readings| {
      return |readings|, None, false;
    }
    var moment := readings[next];
    next := next + 1;
    records := Decide(moment, window, TradingDay(calendar, moment)).Records();
    RecordsInSession(moment, window, calendar);
    round := Some(Round(readings[from], target, moment, None));
  }

  lemma RoundIsSound(
    waited: Round, r: Round, readings: seq<int>, from: int, next: int, window: Window, calendar: int -> Option<bool>,
    interval: int)
    requires interval > 0 && Monotone(readings) && RoundAt(waited, readings, from, next)
    requires waited.target == NextTick(readings[from], interval) && r == waited.(exit := r.exit)
    requires r.exit.Some? <==> InSession(waited.moment, window, calendar)
    ensures RoundSound(r, window, calendar, interval) && RoundAt(r, readings, from, next)
  {}

  /** The rounds so far: where they read, what the recordings returned, and what each of them is. */
  ghost predicate Story(
    rounds: seq<Round>, readings: seq<int>, at: seq<nat>, next: int, exits: seq<Exit>, window: Window,
    calendar: int -> Option<bool>, interval: int)
    requires interval > 0
  {
    && Consecutive(rounds, readings, at) && at[|rounds|] == next && ExitsOf(rounds) == exits
    && LoopSound(rounds, readings, next, window, calendar, interval)
  }

  lemma StoryGoesOn(
    rounds: seq<Round>, waited: Round, r: Round, readings: seq<int>, at: seq<nat>, clock: nat, next: nat,
    exits: seq<Exit>, window: Window, calendar: int -> Option<bool>, interval: int)
    requires interval > 0 && Monotone(readings) && Story(rounds, readings, at, clock, exits, window, calendar, interval)
    requires RoundAt(waited, readings, clock, next) && waited.target == NextTick(readings[clock], interval)
    requires r == waited.(exit := r.exit) && (r.exit.Some? <==> InSession(waited.moment, window, calendar))
    ensures Story(
              rounds + [r], readings, at + [next], next, exits + if r.exit.Some? then [r.exit.value] else [], window,
              calendar, interval)
  {
    RoundIsSound(waited, r, readings, clock, next, window, calendar, interval);
    RoundKeepsSound(rounds, r, readings, clock, next, window, calendar, interval);
    RoundIsConsecutive(rounds, r, readings, at, next);
    RoundIsCounted(rounds, r);
  }

  /**
   * `_loop_forever` for any non-decreasing clock, any calendar and any recording results: the
   * rounds use up the readings, wake at the first that has reached their target, targets strictly
   * increase, no slot is recorded twice, a recording happens exactly inside the window on a
   * trading day and gets the next result, and only misuse or an interrupt ends the loop.
   */
  method LoopForever(
    readings: seq<int>, window: Window, calendar: int -> Option<bool>, results: seq<Exit>, interval: int)
    returns (rounds: seq<Round>, exit: Exit, recorded: nat, failed: nat, ghost at: seq<nat>)
    requires interval > 0 && window.Valid() && Monotone(readings)
    ensures Consecutive(rounds, readings, at) && ExitsOf(rounds) <= results
    ensures Ends(exit, readings, at[|rounds|], rounds, results, window, calendar, interval)
    ensures forall i :: 0 <= i < |rounds| ==> RoundSound(rounds[i], window, calendar, interval)
    ensures Progress(rounds, interval)
    ensures recorded == CountExit(rounds, Exit.Ok) && failed == CountExit(rounds, Failed)
    ensures exit.Misuse? <==> rounds != [] && rounds[|rounds| - 1].exit == Some(Misuse)
    ensures !exit.Failed? && NeverMisused(if exit.Misuse? then rounds[..|rounds| - 1] else rounds)
  {
    rounds, recorded, failed, at := [], 0, 0, [0];
    var next, used := 0, 0;
    while next < |readings|
      invariant 0 <= next <= |readings| && 0 <= used <= |results|
      invariant Story(rounds, readings, at, next, results[..used], window, calendar, interval) && NeverMisused(rounds)
      invariant recorded == CountExit(rounds, Exit.Ok) && failed == CountExit(rounds, Failed)
      decreases |readings| - next
    {
      ghost var clock := next;
      var waited: Option<Round>, records: bool;
      next, waited, records := NextRound(readings, window, calendar, interval, next);
      if waited.None? || (records && used == |results|) {
        assert waited.Some? ==> WouldRecord(readings, clock, window, calendar, interval);
        return rounds, Exit.Ok, recorded, failed, at;
      }
      var round := waited.value;
      ghost var before := results[..used];
      if records {
        round, used := round.(exit := Some(results[used])), used + 1;
      }
      assert results[..used] == before + if round.exit.Some? then [round.exit.value] else [];
      StoryGoesOn(rounds, waited.value, round, readings, at, clock, next, before, window, calendar, interval);
      RoundIsCounted(rounds, round);
      assert (rounds + [round])[..|rounds|] == rounds;
      rounds, at := rounds + [round], at + [next];
      if records {
        match results[used - 1]
        case Misuse => return rounds, Misuse, recorded, failed, at;
        case Ok => recorded := recorded + 1;
        case Failed => failed := failed + 1;
      }
    }
    exit := Exit.Ok;
  }
}
