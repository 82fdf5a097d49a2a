/**
 * The dashboard's period calculator: from a list of "HH:MM" period
 * boundaries and the wall-clock time it finds the active period (the first
 * boundary still ahead, otherwise tomorrow's first boundary), the time left
 * until that boundary, the "start - end" label and the 1-based period
 * number. An empty or unavailable list gives the zero-period state.
 */
module Periods {
  import opened Wrappers
  import opened Text

  const MinutesPerDay: int := 24 * 60

  /** The wall clock read to the minute ("now" is a parameter of the model). */
  datatype Clock = Clock(hour: nat, minute: nat)

  predicate ValidClock(c: Clock) {
    c.hour < 24 && c.minute < 60
  }

  /** `toLocaleTimeString` with two-digit hour and minute and a 24-hour clock. */
  function ClockText(c: Clock): string {
    Pad2(c.hour) + ":" + Pad2(c.minute)
  }

  /** The text before the first ':' (the first field of `split(":")`). */
  function FieldBeforeColon(s: string): (r: string)
    ensures |r| <= |s| && r == s[..|r|] && ':' !in r
    ensures |r| < |s| ==> s[|r|] == ':'
    ensures ':' in s ==> |r| < |s|
  {
    if s == [] || s[0] == ':' then [] else [s[0]] + FieldBeforeColon(s[1..])
  }

  /** `hourStr` of `const [hourStr, minuteStr] = timeStr.split(":")`. */
  function HourField(s: string): (r: string)
    requires ':' in s
    ensures |r| < |s|
  {
    FieldBeforeColon(s)
  }

  /** `minuteStr`: the second field of `split(":")`. */
  function MinuteField(s: string): string
    requires ':' in s
  {
    FieldBeforeColon(s[|HourField(s)| + 1..])
  }

  /** A time string on which neither `parseInt` call yields NaN. */
  predicate WellFormedTime(s: string) {
    ':' in s ==> ParsesAsInt(HourField(s)) && ParsesAsInt(MinuteField(s))
  }

  /** `convertTimeStringToMinutes`: minutes since midnight, 0 without a colon. */
  function ConvertTimeStringToMinutes(s: string): (minutes: nat)
    requires WellFormedTime(s)
    ensures ':' !in s ==> minutes == 0
  {
    if ':' in s then ParseInt(HourField(s)) * 60 + ParseInt(MinuteField(s)) else 0
  }

  lemma {:induction false} FieldOfNumeral(d: string, rest: string)
    requires AllDigits(d)
    ensures FieldBeforeColon(d + ":" + rest) == d
    decreases |d|
  {
    if d != [] {
      assert (d + ":" + rest)[1..] == d[1..] + ":" + rest;
      FieldOfNumeral(d[1..], rest);
      assert [d[0]] + d[1..] == d;
    } else {
      assert (d + ":" + rest)[0] == ':';
    }
  }

  /** "H:M" with numeric parts converts to H * 60 + M. */
  lemma ConvertNumericParts(h: string, m: string)
    requires AllDigits(h) && AllDigits(m) && |h| > 0 && |m| > 0
    ensures WellFormedTime(h + ":" + m)
    ensures ConvertTimeStringToMinutes(h + ":" + m) == DigitsValue(h) * 60 + DigitsValue(m)
  {
    var s := h + ":" + m;
    assert s[|h|] == ':';
    FieldOfNumeral(h, m);
    assert s[|h| + 1..] == m;
    assert FieldBeforeColon(m) == m;
    LeadingDigitsOfNumeral(h, []);
    LeadingDigitsOfNumeral(m, []);
    assert h + [] == h && m + [] == m;
  }

  /** Minutes since midnight of a clock reading. */
  function ClockMinutes(c: Clock): nat {
    c.hour * 60 + c.minute
  }

  /** The displayed time of day converts back to the clock reading. */
  lemma ClockTextMinutes(c: Clock)
    ensures WellFormedTime(ClockText(c))
    ensures ConvertTimeStringToMinutes(ClockText(c)) == ClockMinutes(c)
  {
    ConvertNumericParts(Pad2(c.hour), Pad2(c.minute));
  }

  predicate WellFormedPeriods(periods: seq<string>) {
    forall i :: 0 <= i < |periods| ==> WellFormedTime(periods[i])
  }

  /** `data.periods.map(convertTimeStringToMinutes)`. */
  function BoundaryMinutes(periods: seq<string>): (times: seq<nat>)
    requires WellFormedPeriods(periods)
    ensures |times| == |periods|
    ensures forall i :: 0 <= i < |periods| ==> times[i] == ConvertTimeStringToMinutes(periods[i])
  {
    if periods == [] then []
    else [ConvertTimeStringToMinutes(periods[0])] + BoundaryMinutes(periods[1..])
  }

  /** The first boundary strictly later than `now`, or `|times|` when there is none. */
  function FirstLaterIndex(times: seq<int>, now: int): (k: nat)
    ensures k <= |times|
    ensures forall j :: 0 <= j < k ==> times[j] <= now
    ensures k < |times| ==> now < times[k]
  {
    if times == [] then 0
    else if now < times[0] then 0
    else 1 + FirstLaterIndex(times[1..], now)
  }

  /**
   * The index of the active period: the first boundary strictly later than
   * `now`, or 0 (tomorrow's first boundary) when every boundary has passed.
   */
  function ActiveIndex(times: seq<int>, now: int): (idx: nat)
    ensures |times| > 0 ==> idx < |times|
  {
    var k := FirstLaterIndex(times, now);
    if k < |times| then k else 0
  }

  /**
   * The active index is the first boundary strictly later than `now` when
   * there is one, and 0 when every boundary has passed.
   */
  lemma ActiveIndexIsFirstLater(times: seq<int>, now: int)
    ensures (exists i :: 0 <= i < |times| && now < times[i]) ==>
      now < times[ActiveIndex(times, now)] &&
      forall j :: 0 <= j < ActiveIndex(times, now) ==> times[j] <= now
    ensures (forall i :: 0 <= i < |times| ==> times[i] <= now) ==> ActiveIndex(times, now) == 0
  {
    var k := FirstLaterIndex(times, now);
    if k == |times| {
      assert forall i :: 0 <= i < |times| ==> times[i] <= now;
    }
  }

  /** The `for` loop with `break` that picks `currentPeriodIndex`. */
  method FindPeriodIndex(periodTimes: seq<int>, currentTime: int) returns (currentPeriodIndex: nat)
    ensures currentPeriodIndex == ActiveIndex(periodTimes, currentTime)
  {
    currentPeriodIndex := 0;
    for i := 0 to |periodTimes|
      invariant currentPeriodIndex == 0
      invariant forall j :: 0 <= j < i ==> periodTimes[j] <= currentTime
    {
      if currentTime < periodTimes[i] {
        currentPeriodIndex := i;
        assert FirstLaterIndex(periodTimes, currentTime) == i;
        return;
      }
      if i == |periodTimes| - 1 {
        currentPeriodIndex := 0;
      }
    }
    assert FirstLaterIndex(periodTimes, currentTime) == |periodTimes|;
  }

  /** JavaScript's `%`: the remainder takes the sign of the dividend. */
  function JsRemainder(a: int, b: int): int
    requires b > 0
  {
    if a >= 0 then a % b else -((-a) % b)
  }

  /**
   * Minutes until the boundary at `idx`: the boundary itself when it is
   * still ahead, otherwise tomorrow's first boundary, reduced modulo a day
   * when that lies past midnight.
   */
  function RemainingMinutes(times: seq<int>, idx: nat, now: int): int
    requires idx < |times|
  {
    var next := if now < times[idx] then times[idx] else times[0] + MinutesPerDay;
    var remaining := next - now;
    if next > MinutesPerDay then JsRemainder(remaining, MinutesPerDay) else remaining
  }

  /** "start - end": the active boundary and the one before it, cyclically. */
  function PeriodLabel(periods: seq<string>, idx: nat): string
    requires idx < |periods|
  {
    var start :=
      if idx > 0 then periods[idx - 1]
      else if |periods| > 0 then periods[|periods| - 1]
      else "00:00";
    start + " - " + periods[idx]
  }

  /** The `PeriodInfo` record the dashboard keeps. */
  datatype PeriodInfo = PeriodInfo(
    currentPeriod: string,
    currentPeriodNumber: string,
    timeRemaining: int,
    currentTime: string,
    periodsPerDay: nat,
    workingHours: nat)

  /** The state reported when there are no periods. */
  function NoPeriodInfo(now: Clock): PeriodInfo {
    PeriodInfo("", "0", 0, ClockText(now), 0, 0)
  }

  /** The period information for a non-empty boundary list. */
  function PeriodFor(periods: seq<string>, now: Clock): PeriodInfo
    requires |periods| > 0 && WellFormedPeriods(periods) && ValidClock(now)
  {
    var currentTime := ClockMinutes(now);
    var times := BoundaryMinutes(periods);
    var idx := ActiveIndex(times, currentTime);
    PeriodInfo(
      PeriodLabel(periods, idx),
      NatToString(idx + 1),
      RemainingMinutes(times, idx, currentTime) * 60,
      ClockText(now),
      |periods|,
      8)
  }

  method MinutesUntilBoundary(periodTimes: seq<int>, currentPeriodIndex: nat, currentTime: int) returns (timeRemainingMinutes: int)
    requires currentPeriodIndex < |periodTimes|
    ensures timeRemainingMinutes == RemainingMinutes(periodTimes, currentPeriodIndex, currentTime)
  {
    var nextPeriodTimeMinutes :=
      if currentTime < periodTimes[currentPeriodIndex] then periodTimes[currentPeriodIndex]
      else periodTimes[0] + MinutesPerDay;
    timeRemainingMinutes := nextPeriodTimeMinutes - currentTime;
    if nextPeriodTimeMinutes > MinutesPerDay {
      timeRemainingMinutes := JsRemainder(timeRemainingMinutes, MinutesPerDay);
    }
  }

  /** Reads the clock as the text the browser shows and converts that text to minutes. */
  method ReadCurrentTime(now: Clock) returns (currentTimeStr: string, currentTime: nat)
    requires ValidClock(now)
    ensures currentTimeStr == ClockText(now) && currentTime == ClockMinutes(now)
  {
    currentTimeStr := ClockText(now);
    ClockTextMinutes(now);
    currentTime := ConvertTimeStringToMinutes(currentTimeStr);
  }

  /** The period computation as the source writes it, step by step. */
  method CalculatePeriodInfo(periods: seq<string>, now: Clock) returns (info: PeriodInfo)
    requires |periods| > 0 && WellFormedPeriods(periods) && ValidClock(now)
    ensures info == PeriodFor(periods, now)
  {
    var currentTimeStr, currentTime := ReadCurrentTime(now);
    var periodTimes := BoundaryMinutes(periods);

    var currentPeriodIndex := FindPeriodIndex(periodTimes, currentTime);
    assert currentPeriodIndex < |periods|;

    var timeRemainingMinutes := MinutesUntilBoundary(periodTimes, currentPeriodIndex, currentTime);
    var timeRemainingSeconds := timeRemainingMinutes * 60;

    var currentPeriodNumber := NatToString(currentPeriodIndex + 1);

    var periodTimeDisplay := PeriodLabel(periods, currentPeriodIndex);

    info := PeriodInfo(periodTimeDisplay, currentPeriodNumber, timeRemainingSeconds,
                       currentTimeStr, |periods|, 8);
    assert info.currentPeriod == PeriodFor(periods, now).currentPeriod;
    assert info.timeRemaining == PeriodFor(periods, now).timeRemaining;
  }

  /** What a `/getPeriods` or `/getCurrentPeriod` request produced. */
  datatype PeriodsReply =
    | FetchFailed                                   // threw, or `!response.ok`
    | Reply(success: bool, periods: Option<seq<string>>)

  /** `data.success && data.periods && data.periods.length > 0`. */
  predicate HasUsablePeriods(reply: PeriodsReply) {
    reply.Reply? && reply.success && reply.periods.Some? && |reply.periods.value| > 0
  }

  predicate WellFormedReply(reply: PeriodsReply) {
    HasUsablePeriods(reply) ==> WellFormedPeriods(reply.periods.value)
  }

  /**
   * The outcome of `fetchGlobalPeriodInfo`. Its calculation is written out a
   * second time in the source, the same as in `fetchUserPeriodInfo` apart
   * from comments, so both outcomes are built from `PeriodFor`.
   */
  function GlobalPeriodInfo(global: PeriodsReply, now: Clock): PeriodInfo
    requires WellFormedReply(global) && ValidClock(now)
  {
    if HasUsablePeriods(global) then PeriodFor(global.periods.value, now) else NoPeriodInfo(now)
  }

  /**
   * The outcome of `fetchUserPeriodInfo`: the user's own list when usable;
   * otherwise (empty list, unsuccessful reply or failed request) whatever the
   * global fallback produces, which overwrites the interim zero state.
   */
  function UserPeriodInfo(user: PeriodsReply, global: PeriodsReply, now: Clock): PeriodInfo
    requires WellFormedReply(user) && WellFormedReply(global) && ValidClock(now)
  {
    if HasUsablePeriods(user) then PeriodFor(user.periods.value, now) else GlobalPeriodInfo(global, now)
  }

  // ---------------------------------------------------------------------------
  // Properties of the period calculator

  /** The period number is 1-based and lies in [1, N] for N boundaries. */
  lemma PeriodNumberInRange(periods: seq<string>, now: Clock)
    requires |periods| > 0 && WellFormedPeriods(periods) && ValidClock(now)
    ensures ParsesAsInt(PeriodFor(periods, now).currentPeriodNumber)
    ensures 1 <= ParseInt(PeriodFor(periods, now).currentPeriodNumber) <= |periods|
    ensures PeriodFor(periods, now).periodsPerDay == |periods|
  {
    var idx := ActiveIndex(BoundaryMinutes(periods), ClockMinutes(now));
    ParseIntOfNatToString(idx + 1, []);
    assert NatToString(idx + 1) + [] == NatToString(idx + 1);
  }

  /**
   * Remaining minutes, for boundaries and a clock inside one day: the
   * distance to the boundary when one is still ahead (always positive);
   * otherwise the distance to tomorrow's first boundary, which the modulo
   * step turns into 0 exactly when that boundary is now and not midnight.
   */
  lemma RemainingMinutesBounds(times: seq<nat>, now: nat)
    requires |times| > 0 && now < MinutesPerDay
    requires forall i :: 0 <= i < |times| ==> times[i] < MinutesPerDay
    ensures 0 <= RemainingMinutes(times, ActiveIndex(times, now), now) <= MinutesPerDay
    ensures (exists i :: 0 <= i < |times| && now < times[i]) ==>
      RemainingMinutes(times, ActiveIndex(times, now), now) == times[ActiveIndex(times, now)] - now > 0
    ensures RemainingMinutes(times, ActiveIndex(times, now), now) == 0 <==>
      (forall i :: 0 <= i < |times| ==> times[i] <= now) && times[0] == now && now > 0
    ensures RemainingMinutes(times, ActiveIndex(times, now), now) == MinutesPerDay <==>
      (forall i :: 0 <= i < |times| ==> times[i] <= now) && times[0] == now && now == 0
  {
    var idx := ActiveIndex(times, now);
    ActiveIndexIsFirstLater(times, now);
    if forall i :: 0 <= i < |times| ==> times[i] <= now {
      assert idx == 0 && times[0] <= now;
    } else {
      var i :| 0 <= i < |times| && now < times[i];
      assert now < times[idx];
    }
  }

  /**
   * Whatever the boundaries (even past midnight, such as "25:00"), the
   * countdown for a clock reading within the day lies in 0..1440 minutes:
   * a next boundary past midnight is reduced modulo a day.
   */
  lemma RemainingNonNegative(times: seq<nat>, now: nat)
    requires |times| > 0 && now < MinutesPerDay
    ensures 0 <= RemainingMinutes(times, ActiveIndex(times, now), now) <= MinutesPerDay
  {
    ActiveIndexIsFirstLater(times, now);
    if forall i :: 0 <= i < |times| ==> times[i] <= now {
      assert times[0] + MinutesPerDay - now > 0;
    }
  }

  /**
   * The reported state is one the dashboard can hold: a period number that
   * `parseInt` reads and a countdown that is not negative.
   */
  lemma PeriodInfoSane(user: PeriodsReply, global: PeriodsReply, now: Clock)
    requires WellFormedReply(user) && WellFormedReply(global) && ValidClock(now)
    ensures ParsesAsInt(GlobalPeriodInfo(global, now).currentPeriodNumber)
    ensures GlobalPeriodInfo(global, now).timeRemaining >= 0
    ensures ParsesAsInt(UserPeriodInfo(user, global, now).currentPeriodNumber)
    ensures UserPeriodInfo(user, global, now).timeRemaining >= 0
  {
    if HasUsablePeriods(global) {
      PeriodNumberInRange(global.periods.value, now);
      RemainingNonNegative(BoundaryMinutes(global.periods.value), ClockMinutes(now));
    }
    if HasUsablePeriods(user) {
      PeriodNumberInRange(user.periods.value, now);
      RemainingNonNegative(BoundaryMinutes(user.periods.value), ClockMinutes(now));
    }
  }

  /** The seconds shown, for any boundaries, lie in [0, 86400]. */
  lemma RemainingSecondsBounds(periods: seq<string>, now: Clock)
    requires |periods| > 0 && WellFormedPeriods(periods) && ValidClock(now)
    ensures 0 <= PeriodFor(periods, now).timeRemaining <= 86400
  {
    RemainingNonNegative(BoundaryMinutes(periods), ClockMinutes(now));
  }

  /** The two numerals of "30:00". */
  lemma ThirtyAndZero()
    ensures AllDigits("30") && DigitsValue("30") == 30
    ensures AllDigits("00") && DigitsValue("00") == 0
  {
    assert DigitsValue("3") == 3 by { assert "3"[..0] == ""; }
    assert DigitsValue("30") == 30 by { assert "30"[..1] == "3"; }
    assert DigitsValue("0") == 0 by { assert "0"[..0] == ""; }
    assert DigitsValue("00") == 0 by { assert "00"[..1] == "0"; }
  }

  /** "30:00", a boundary past midnight, converts to 1800 minutes. */
  lemma ThirtyOClock()
    ensures WellFormedTime("30:00") && ConvertTimeStringToMinutes("30:00") == 1800
  {
    ThirtyAndZero();
    ConvertNumericParts("30", "00");
    assert "30" + ":" + "00" == "30:00";
  }

  /**
   * A next boundary after 24:00 (more than 1440 minutes) is reduced modulo
   * a day: "30:00" seen at 00:00 is six hours away, not thirty.
   */
  lemma NextBoundaryPastMidnight()
    ensures WellFormedPeriods(["30:00"])
    ensures PeriodFor(["30:00"], Clock(0, 0)).timeRemaining == 6 * 60 * 60
  {
    ThirtyOClock();
    var times := BoundaryMinutes(["30:00"]);
    assert times == [1800];
    assert ActiveIndex(times, 0) == 0;
    assert RemainingMinutes(times, 0, 0) == 360;
  }

  /** The two numerals of "24:00". */
  lemma TwentyFourAndZero()
    ensures AllDigits("24") && DigitsValue("24") == 24
    ensures AllDigits("00") && DigitsValue("00") == 0
  {
    assert DigitsValue("2") == 2 by { assert "2"[..0] == ""; }
    assert DigitsValue("24") == 24 by { assert "24"[..1] == "2"; }
    assert DigitsValue("0") == 0 by { assert "0"[..0] == ""; }
    assert DigitsValue("00") == 0 by { assert "00"[..1] == "0"; }
  }

  /**
   * A next boundary of exactly 24:00 is not reduced, since the reduction
   * applies only beyond 1440 minutes: "24:00" seen at 00:00 is a whole day
   * away.
   */
  lemma MidnightBoundaryNotReduced()
    ensures WellFormedPeriods(["24:00"])
    ensures PeriodFor(["24:00"], Clock(0, 0)).timeRemaining == 24 * 60 * 60
  {
    TwentyFourAndZero();
    ConvertNumericParts("24", "00");
    assert "24" + ":" + "00" == "24:00";
    var times := BoundaryMinutes(["24:00"]);
    assert times == [1440];
    assert ActiveIndex(times, 0) == 0;
    assert RemainingMinutes(times, 0, 0) == 1440;
  }

  /**
   * With a single boundary reached this very minute the countdown shows a
   * whole day when the boundary is midnight ("00:00" at 00:00 gives 86400
   * seconds) and 0 seconds otherwise ("10:00" at 10:00).
   */
  lemma SingleBoundaryReached(boundary: string, now: Clock)
    requires WellFormedTime(boundary) && ValidClock(now)
    requires ConvertTimeStringToMinutes(boundary) == ClockMinutes(now)
    ensures WellFormedPeriods([boundary])
    ensures PeriodFor([boundary], now).timeRemaining == if ClockMinutes(now) == 0 then 86400 else 0
  {
    RemainingMinutesBounds([ClockMinutes(now)], ClockMinutes(now));
  }

  /**
   * The label ends at the active boundary and starts at the boundary before
   * it, taken cyclically: the last one for the first period, never "00:00".
   */
  lemma LabelIsCyclicNeighbours(periods: seq<string>, now: Clock, k: nat)
    requires |periods| > 0 && WellFormedPeriods(periods) && ValidClock(now)
    requires k == ActiveIndex(BoundaryMinutes(periods), ClockMinutes(now))
    ensures PeriodFor(periods, now).currentPeriod ==
      periods[(k + |periods| - 1) % |periods|] + " - " + periods[k]
  {
    assert PeriodFor(periods, now).currentPeriod == PeriodLabel(periods, k);
    PeriodLabelCyclic(periods, k);
  }

  lemma PeriodLabelCyclic(periods: seq<string>, k: nat)
    requires k < |periods|
    ensures PeriodLabel(periods, k) == periods[(k + |periods| - 1) % |periods|] + " - " + periods[k]
  {
    var n := |periods|;
    var j := if k == 0 then n - 1 else k - 1;
    if k == 0 {
      ModOfSmall(j, n);
    } else {
      ModOfShifted(j, n);
    }
    assert (k + n - 1) % n == j;
  }

  lemma ModOfSmall(x: int, n: int)
    requires 0 <= x < n
    ensures x % n == x
  {
  }

  lemma ModOfShifted(x: int, n: int)
    requires 0 <= x < n
    ensures (x + n) % n == x
  {
  }

  /** Without usable periods the result is the zero-period state. */
  lemma NoPeriodsState(user: PeriodsReply, global: PeriodsReply, now: Clock)
    requires WellFormedReply(user) && WellFormedReply(global) && ValidClock(now)
    requires !HasUsablePeriods(user) && !HasUsablePeriods(global)
    ensures var info := UserPeriodInfo(user, global, now);
      info.currentPeriodNumber == "0" && info.timeRemaining == 0 &&
      info.periodsPerDay == 0 && info.currentPeriod == ""
  {
  }

  /**
   * Whatever the replies, "no periods" is reported consistently: a zero
   * count, period number "0" and an empty label go together.
   */
  lemma ZeroPeriodsConsistent(user: PeriodsReply, global: PeriodsReply, now: Clock)
    requires WellFormedReply(user) && WellFormedReply(global) && ValidClock(now)
    ensures var info := UserPeriodInfo(user, global, now);
      (info.periodsPerDay == 0 <==> info.currentPeriodNumber == "0") &&
      (info.periodsPerDay == 0 <==> info.currentPeriod == "")
  {
    var info := UserPeriodInfo(user, global, now);
    if info.periodsPerDay != 0 {
      var periods := if HasUsablePeriods(user) then user.periods.value else global.periods.value;
      assert info == PeriodFor(periods, now);
      PeriodNumberInRange(periods, now);
      assert |info.currentPeriod| >= 3;
    }
  }
}
