/**
 * The task list view: which tasks it shows, the fields it fills in on
 * those task objects, the total it adds up, and the countdown it shows
 * (its own two-hour timer when the dashboard passes none).
 */
module TaskList {
  import opened Wrappers
  import opened Text
  import Countdown
  import opened Tasks

  /** A period of "0" is how the dashboard says that there are no periods. */
  predicate HasPeriods(selectedPeriod: string) {
    selectedPeriod != "0"
  }

  /** The countdown text: all zeros without periods, `HH:MM:SS` otherwise. */
  function FormatTimeRemaining(selectedPeriod: string, seconds: nat): (s: string)
    ensures !HasPeriods(selectedPeriod) ==> s == "00:00:00"
    ensures HasPeriods(selectedPeriod) ==>
      Countdown.IsHmsText(s) && Countdown.HmsValue(s) == seconds &&
      Countdown.MinutesOf(s) < 60 && Countdown.SecondsOf(s) < 60
  {
    if !HasPeriods(selectedPeriod) then "00:00:00"
    else
      Countdown.HmsTextRoundTrip(seconds);
      Countdown.HmsText(seconds)
  }

  /** The progress bar width: 0 without periods, the clamped share otherwise. */
  function TimeProgressPercentage(selectedPeriod: string, timeRemaining: int): (p: real)
    ensures 0.0 <= p <= 100.0
    ensures !HasPeriods(selectedPeriod) ==> p == 0.0
    ensures HasPeriods(selectedPeriod) && timeRemaining >= Countdown.PeriodDurationSeconds ==> p == 0.0
    ensures HasPeriods(selectedPeriod) && timeRemaining <= 0 ==> p == 100.0
  {
    Countdown.ProgressShape(timeRemaining);
    if HasPeriods(selectedPeriod) then Countdown.ProgressPercentage(timeRemaining) else 0.0
  }

  // ---------------------------------------------------------------------------
  // Filling in missing fields

  /**
   * The fields one pass of the `filteredTasks` map fills in on the task at
   * position `index` of the filtered list, in the order the source does it.
   */
  function Normalised(r: TaskRecord, index: nat): TaskRecord {
    var withId :=
      if !PresentText(r.id) then r.(id := Some("task-" + NatToString(index))) else r;
    var withCost :=
      if withId.totalPrice == 0.0 && PresentNumber(withId.cost)
      then withId.(totalPrice := withId.cost.value) else withId;
    var withProduct :=
      if withCost.totalPrice == 0.0 && !PresentNumber(withCost.cost)
         && withCost.price != 0.0 && withCost.quantity != 0.0
      then withCost.(totalPrice := withCost.price * withCost.quantity) else withCost;
    if withProduct.taskLabel == "" && PresentText(withProduct.board)
    then withProduct.(taskLabel := withProduct.board.value) else withProduct
  }

  /**
   * Field by field: a missing id becomes `task-<index>`; the total price is
   * the first of the total price, the cost and price times quantity that is
   * non-zero (0 when none is); a missing label is taken from the board;
   * nothing else changes.
   */
  lemma NormalisedFields(r: TaskRecord, index: nat)
    ensures Normalised(r, index).id ==
      if PresentText(r.id) then r.id else Some("task-" + NatToString(index))
    ensures Normalised(r, index).totalPrice ==
      if r.totalPrice != 0.0 then r.totalPrice
      else if PresentNumber(r.cost) then r.cost.value
      else if r.price != 0.0 && r.quantity != 0.0 then r.price * r.quantity
      else 0.0
    ensures Normalised(r, index).taskLabel ==
      if r.taskLabel == "" && PresentText(r.board) then r.board.value else r.taskLabel
    ensures var n := Normalised(r, index);
      n.period == r.period && n.stock == r.stock && n.taskType == r.taskType &&
      n.price == r.price && n.extra == r.extra && n.quantity == r.quantity &&
      n.board == r.board && n.cost == r.cost && n.userId == r.userId
  {
  }

  /**
   * Rendering again changes nothing: every filled-in field is now present,
   * so a second pass, at whatever position, leaves the task as it is.
   */
  lemma NormalisedIdempotent(r: TaskRecord, i: nat, j: nat)
    ensures PresentText(Normalised(r, i).id)
    ensures Normalised(Normalised(r, i), j) == Normalised(r, i)
  {
    var n := Normalised(r, i);
    NormalisedFields(r, i);
    NormalisedFields(n, j);
    if r.totalPrice == 0.0 && !PresentNumber(r.cost) && r.price != 0.0 && r.quantity != 0.0 {
      assert n.totalPrice != 0.0;
    }
  }

  /** The body of the `filteredTasks` map for one task object. */
  method NormaliseTask(task: Task, index: nat)
    modifies task
    ensures task.Snapshot() == Normalised(old(task.Snapshot()), index)
  {
    if !PresentText(task.id) {
      task.id := Some("task-" + NatToString(index));
    }
    if task.totalPrice == 0.0 && PresentNumber(task.cost) {
      task.totalPrice := task.cost.value;
    }
    if task.totalPrice == 0.0 && !PresentNumber(task.cost) && task.price != 0.0 && task.quantity != 0.0 {
      task.totalPrice := task.price * task.quantity;
    }
    if task.taskLabel == "" && PresentText(task.board) {
      task.taskLabel := task.board.value;
    }
  }

  /**
   * `filteredTasks`: the tasks of the selected period, in their order,
   * each filled in place according to its position in that list; tasks of
   * other periods are left alone.
   */
  method NormaliseTasks(tasks: seq<Task>, selectedPeriod: string) returns (filtered: seq<Task>)
    requires Distinct(tasks)
    modifies tasks
    ensures filtered == old(InPeriod(tasks, selectedPeriod))
    ensures forall i :: 0 <= i < |filtered| ==> filtered[i] in tasks
    ensures forall i :: 0 <= i < |filtered| ==>
      filtered[i].Snapshot() == Normalised(old(filtered[i].Snapshot()), i)
    ensures forall t :: t in tasks && t !in filtered ==> unchanged(t)
  {
    filtered := InPeriod(tasks, selectedPeriod);
    InPeriodDistinct(tasks, selectedPeriod);
    InPeriodMembers(tasks, selectedPeriod);
    for index := 0 to |filtered|
      modifies filtered
      invariant forall k :: 0 <= k < index ==>
        filtered[k].Snapshot() == Normalised(old(filtered[k].Snapshot()), k)
      invariant forall k :: index <= k < |filtered| ==>
        filtered[k].Snapshot() == old(filtered[k].Snapshot())
    {
      assert forall k :: 0 <= k < |filtered| && k != index ==> filtered[k] != filtered[index];
      NormaliseTask(filtered[index], index);
    }
  }

  // ---------------------------------------------------------------------------
  // The total

  /** `totalCost`: the left-to-right sum of the total prices. */
  function TotalCost(ts: seq<Task>): real
    reads ts
  {
    if ts == [] then 0.0 else TotalCost(ts[..|ts| - 1]) + ts[|ts| - 1].totalPrice
  }

  /** The total of two lists put together is the sum of their totals. */
  lemma {:induction false} TotalCostAppend(a: seq<Task>, b: seq<Task>)
    ensures TotalCost(a + b) == TotalCost(a) + TotalCost(b)
    decreases |b|
  {
    if b == [] {
      assert a + b == a;
    } else {
      assert (a + b)[..|a + b| - 1] == a + b[..|b| - 1];
      TotalCostAppend(a, b[..|b| - 1]);
    }
  }

  /**
   * The total of the selected period and the total of the other periods
   * add up to the total of the whole list.
   */
  lemma {:induction false} TotalCostSplitsByPeriod(ts: seq<Task>, p: string)
    ensures TotalCost(InPeriod(ts, p)) + TotalCost(OutsidePeriod(ts, p)) == TotalCost(ts)
  {
    if ts != [] {
      TotalCostSplitsByPeriod(ts[1..], p);
      assert ts == [ts[0]] + ts[1..];
      TotalCostAppend([ts[0]], ts[1..]);
      TotalCostAppend([ts[0]], InPeriod(ts[1..], p));
      TotalCostAppend([ts[0]], OutsidePeriod(ts[1..], p));
    }
  }

  /** With no negative prices the total is not negative either. */
  lemma {:induction false} TotalCostNonNegative(ts: seq<Task>)
    requires forall i :: 0 <= i < |ts| ==> ts[i].totalPrice >= 0.0
    ensures TotalCost(ts) >= 0.0
  {
    if ts != [] {
      TotalCostNonNegative(ts[..|ts| - 1]);
    }
  }

  // ---------------------------------------------------------------------------
  // The list's own countdown

  /** The fallback the list counts down from when it has periods: two hours. */
  const FallbackSeconds: int := 2 * 60 * 60

  /** What the synchronising effect sets the countdown to. */
  function InitialTime(externalTimeRemaining: Option<int>, selectedPeriod: string): int {
    if externalTimeRemaining.Some? then externalTimeRemaining.value
    else if HasPeriods(selectedPeriod) then FallbackSeconds
    else 0
  }

  /** The list ticks by itself only without an external time and with periods. */
  predicate RunsOwnTimer(externalTimeRemaining: Option<int>, selectedPeriod: string) {
    externalTimeRemaining.None? && HasPeriods(selectedPeriod)
  }

  /**
   * Without an external time the list shows two hours counting down to zero
   * when there are periods, and a countdown that stays at zero otherwise.
   */
  lemma OwnCountdown(selectedPeriod: string, n: nat)
    ensures HasPeriods(selectedPeriod) ==>
      RunsOwnTimer(None, selectedPeriod) &&
      Countdown.Ticks(InitialTime(None, selectedPeriod), n) ==
        if n <= FallbackSeconds then FallbackSeconds - n else 0
    ensures !HasPeriods(selectedPeriod) ==>
      !RunsOwnTimer(None, selectedPeriod) && InitialTime(None, selectedPeriod) == 0
  {
    Countdown.TicksCountDown(FallbackSeconds, n);
  }

  /** The list's `timeRemaining` state. */
  class TaskListTimer {
    var timeRemaining: int

    /** `useState(externalTimeRemaining || 0)`. */
    constructor (externalTimeRemaining: Option<int>)
      ensures timeRemaining == externalTimeRemaining.GetOr(0)
    {
      timeRemaining := externalTimeRemaining.GetOr(0);
    }

    /** The effect that runs whenever the external time or the period changes. */
    method Sync(externalTimeRemaining: Option<int>, selectedPeriod: string)
      modifies this
      ensures timeRemaining == InitialTime(externalTimeRemaining, selectedPeriod)
    {
      if externalTimeRemaining.Some? {
        timeRemaining := externalTimeRemaining.value;
      } else if HasPeriods(selectedPeriod) {
        timeRemaining := FallbackSeconds;
      } else {
        timeRemaining := 0;
      }
    }

    /** One second: only the list's own interval, when it runs, moves the countdown. */
    method Tick(externalTimeRemaining: Option<int>, selectedPeriod: string)
      modifies this
      ensures RunsOwnTimer(externalTimeRemaining, selectedPeriod) ==>
        timeRemaining == Countdown.Tick(old(timeRemaining))
      ensures !RunsOwnTimer(externalTimeRemaining, selectedPeriod) ==>
        timeRemaining == old(timeRemaining)
      ensures old(timeRemaining) >= 0 ==> 0 <= timeRemaining <= old(timeRemaining)
    {
      if RunsOwnTimer(externalTimeRemaining, selectedPeriod) {
        timeRemaining := Countdown.Tick(timeRemaining);
      }
    }
  }
}
