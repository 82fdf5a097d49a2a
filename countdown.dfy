/**
 * The countdown arithmetic that the dashboard, the task list and the
 * financial summary each carry a copy of: the one-second tick, the
 * "HH:MM:SS" rendering of a number of seconds and the progress bar width
 * for a six-hour period.
 */
module Countdown {
  import opened Text

  /** The period length the progress bar assumes: six hours. */
  const PeriodDurationSeconds: int := 6 * 60 * 60

  /** One step of the one-second interval: `prev > 0 ? prev - 1 : 0`. */
  function Tick(prev: int): (next: int)
    ensures next >= 0
    ensures prev > 0 ==> next < prev
    ensures prev <= 0 ==> next == 0
  {
    if prev > 0 then prev - 1 else 0
  }

  /** `n` ticks of the interval, starting from `t`. */
  function Ticks(t: int, n: nat): int {
    if n == 0 then t else Tick(Ticks(t, n - 1))
  }

  /** The countdown loses one second per tick until it rests at zero. */
  lemma {:induction false} TicksCountDown(t: nat, n: nat)
    ensures Ticks(t, n) == if t >= n then t - n else 0
  {
    if n > 0 {
      TicksCountDown(t, n - 1);
    }
  }

  /**
   * `formatTimeRemaining` for a period that exists: whole hours, then the
   * minutes and seconds left over, each left-padded to two digits.
   */
  function HmsText(seconds: nat): string {
    var hours := seconds / 3600;
    var minutes := (seconds % 3600) / 60;
    var secs := seconds % 60;
    Pad2(hours) + ":" + Pad2(minutes) + ":" + Pad2(secs)
  }

  /** A text of the form `H:MM:SS`, with at least two digits of hours. */
  predicate IsHmsText(t: string) {
    && |t| >= 8
    && t[|t| - 6] == ':' && t[|t| - 3] == ':'
    && AllDigits(t[..|t| - 6]) && AllDigits(t[|t| - 5..|t| - 3]) && AllDigits(t[|t| - 2..])
  }

  function HoursOf(t: string): nat requires IsHmsText(t) { DigitsValue(t[..|t| - 6]) }
  function MinutesOf(t: string): nat requires IsHmsText(t) { DigitsValue(t[|t| - 5..|t| - 3]) }
  function SecondsOf(t: string): nat requires IsHmsText(t) { DigitsValue(t[|t| - 2..]) }

  /** The number of seconds an `H:MM:SS` text denotes. */
  function HmsValue(t: string): nat
    requires IsHmsText(t)
  {
    HoursOf(t) * 3600 + MinutesOf(t) * 60 + SecondsOf(t)
  }

  lemma SplitSeconds(seconds: nat)
    ensures seconds == (seconds / 3600) * 3600 + ((seconds % 3600) / 60) * 60 + seconds % 60
    ensures (seconds % 3600) / 60 < 60
  {
    var q, r := seconds / 3600, seconds % 3600;
    assert seconds == q * 3600 + r;
    assert r == (r / 60) * 60 + r % 60;
    assert seconds == (q * 60 + r / 60) * 60 + r % 60;
    assert seconds % 60 == r % 60;
  }

  /** Where the three fields of `h:m:s` sit, with two-character minutes and seconds. */
  lemma HmsSlices(h: string, m: string, s: string)
    requires |m| == 2 && |s| == 2
    ensures var t := h + ":" + m + ":" + s;
      && |t| == |h| + 6
      && t[|t| - 6] == ':' && t[|t| - 3] == ':'
      && t[..|t| - 6] == h && t[|t| - 5..|t| - 3] == m && t[|t| - 2..] == s
  {
    var t := h + ":" + m + ":" + s;
    var n := |h|;
    assert t[..n] == h;
    assert t[n + 1..n + 3] == m;
    assert t[n + 4..] == s;
  }

  /** Three numerals joined by colons split back into those numerals. */
  lemma HmsParts(h: string, m: string, s: string)
    requires AllDigits(h) && AllDigits(m) && AllDigits(s)
    requires |h| >= 2 && |m| == 2 && |s| == 2
    ensures IsHmsText(h + ":" + m + ":" + s)
    ensures HoursOf(h + ":" + m + ":" + s) == DigitsValue(h)
    ensures MinutesOf(h + ":" + m + ":" + s) == DigitsValue(m)
    ensures SecondsOf(h + ":" + m + ":" + s) == DigitsValue(s)
  {
    HmsSlices(h, m, s);
  }

  /**
   * The rendered countdown reads back as the number of seconds it was
   * made from, with minutes and seconds below sixty.
   */
  lemma HmsTextRoundTrip(seconds: nat)
    ensures IsHmsText(HmsText(seconds))
    ensures HmsValue(HmsText(seconds)) == seconds
    ensures MinutesOf(HmsText(seconds)) < 60 && SecondsOf(HmsText(seconds)) < 60
  {
    SplitSeconds(seconds);
    HmsParts(Pad2(seconds / 3600), Pad2((seconds % 3600) / 60), Pad2(seconds % 60));
  }

  /** The two sides of a clamp. */
  function Min(a: real, b: real): real { if a <= b then a else b }
  function Max(a: real, b: real): real { if a >= b then a else b }

  /**
   * The progress bar width, in percent, for a period that exists: the
   * elapsed share of six hours, clamped to 0..100.
   */
  function ProgressPercentage(timeRemaining: int): (p: real)
    ensures 0.0 <= p <= 100.0
  {
    var raw := ((PeriodDurationSeconds - timeRemaining) as real / PeriodDurationSeconds as real) * 100.0;
    Max(0.0, Min(100.0, raw))
  }

  /**
   * The bar is empty with six hours or more left, full with nothing left,
   * and in between grows linearly with the elapsed time.
   */
  lemma ProgressShape(timeRemaining: int)
    ensures timeRemaining >= PeriodDurationSeconds ==> ProgressPercentage(timeRemaining) == 0.0
    ensures timeRemaining <= 0 ==> ProgressPercentage(timeRemaining) == 100.0
    ensures 0 <= timeRemaining <= PeriodDurationSeconds ==>
      ProgressPercentage(timeRemaining) == (PeriodDurationSeconds - timeRemaining) as real / 216.0
  {
  }

  /** Less time left never shows less progress. */
  lemma ProgressMonotone(t1: int, t2: int)
    requires t1 <= t2
    ensures ProgressPercentage(t1) >= ProgressPercentage(t2)
  {
  }

  /** A tick never moves the bar backwards. */
  lemma TickAdvancesProgress(t: int)
    ensures ProgressPercentage(Tick(t)) >= ProgressPercentage(t)
  {
    if t > 0 {
      ProgressMonotone(Tick(t), t);
    }
  }
}
