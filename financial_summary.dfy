/**
 * The period part of the financial summary card: whether periods exist,
 * the countdown text, the progress bar and what the panel shows.
 */
module FinancialSummary {
  import opened Wrappers
  import opened Text
  import Countdown

  /** A period count of zero is how the dashboard says that there are no periods. */
  predicate HasPeriods(totalPeriods: int) {
    totalPeriods > 0
  }

  /** The countdown text: all zeros without periods, `HH:MM:SS` otherwise. */
  function FormatTimeRemaining(totalPeriods: int, seconds: nat): (s: string)
    ensures !HasPeriods(totalPeriods) ==> s == "00:00:00"
    ensures HasPeriods(totalPeriods) ==>
      Countdown.IsHmsText(s) && Countdown.HmsValue(s) == seconds &&
      Countdown.MinutesOf(s) < 60 && Countdown.SecondsOf(s) < 60
  {
    if !HasPeriods(totalPeriods) then "00:00:00"
    else
      Countdown.HmsTextRoundTrip(seconds);
      Countdown.HmsText(seconds)
  }

  /** The progress bar width: 0 without periods, the clamped share otherwise. */
  function TimeProgressPercentage(totalPeriods: int, timeRemaining: int): (p: real)
    ensures 0.0 <= p <= 100.0
    ensures !HasPeriods(totalPeriods) ==> p == 0.0
    ensures HasPeriods(totalPeriods) && timeRemaining >= Countdown.PeriodDurationSeconds ==> p == 0.0
    ensures HasPeriods(totalPeriods) && timeRemaining <= 0 ==> p == 100.0
  {
    Countdown.ProgressShape(timeRemaining);
    if HasPeriods(totalPeriods) then Countdown.ProgressPercentage(timeRemaining) else 0.0
  }

  /** What the period panel shows. */
  datatype PeriodPanel = PeriodPanel(
    noPeriodsBadge: bool,       // the "No Periods" badge
    activePeriod: string,       // the "Active Period" line
    progressBar: Option<real>,  // the bar's width in percent, when a bar is drawn
    timeLine: string)           // the "Time Remaining" line

  /** The period panel for the given props. */
  function PeriodInformation(currentPeriod: string, totalPeriods: int, timeRemaining: nat): PeriodPanel {
    if !HasPeriods(totalPeriods) then
      PeriodPanel(true, "Active Period: 0/0", None, "Time Remaining: 00:00:00")
    else
      PeriodPanel(
        false,
        "Active Period: " + currentPeriod + " / " + NatToString(totalPeriods),
        Some(TimeProgressPercentage(totalPeriods, timeRemaining)),
        "Time Remaining: " + FormatTimeRemaining(totalPeriods, timeRemaining))
  }

  /**
   * Without periods the panel is always the same, "0/0" and all zeros with
   * no bar, whatever period and remaining time it is handed.
   */
  lemma NoPeriodPanelIsFixed(currentPeriod: string, otherPeriod: string, totalPeriods: int,
                             timeRemaining: nat, otherTime: nat)
    requires !HasPeriods(totalPeriods)
    ensures PeriodInformation(currentPeriod, totalPeriods, timeRemaining) ==
      PeriodInformation(otherPeriod, totalPeriods, otherTime)
    ensures PeriodInformation(currentPeriod, totalPeriods, timeRemaining).noPeriodsBadge
    ensures PeriodInformation(currentPeriod, totalPeriods, timeRemaining).activePeriod == "Active Period: 0/0"
    ensures PeriodInformation(currentPeriod, totalPeriods, timeRemaining).timeLine ==
      "Time Remaining: " + FormatTimeRemaining(totalPeriods, timeRemaining)
    ensures PeriodInformation(currentPeriod, totalPeriods, timeRemaining).progressBar.None?
  {
  }

  /**
   * With periods the panel has no badge, draws a bar within 0..100, and
   * its time line reads back as the remaining seconds.
   */
  lemma PeriodPanelContents(currentPeriod: string, totalPeriods: int, timeRemaining: nat)
    requires HasPeriods(totalPeriods)
    ensures var panel := PeriodInformation(currentPeriod, totalPeriods, timeRemaining);
      && !panel.noPeriodsBadge
      && panel.progressBar.Some? && 0.0 <= panel.progressBar.value <= 100.0
      && |panel.timeLine| > 16 && panel.timeLine[..16] == "Time Remaining: "
      && Countdown.IsHmsText(panel.timeLine[16..])
      && Countdown.HmsValue(panel.timeLine[16..]) == timeRemaining
  {
    var panel := PeriodInformation(currentPeriod, totalPeriods, timeRemaining);
    var text := FormatTimeRemaining(totalPeriods, timeRemaining);
    assert panel.timeLine[16..] == text;
  }
}
