# TaskSidekick dashboard: a Dafny model

This project models the three React components that make up the signed-in
view of TaskSidekick: the dashboard, the task list and the financial
summary card.

- **The period calculator** (`Periods`). The dashboard turns a list of
  `"HH:MM"` period boundaries and the time of day into period information:
  - the active period, which is the first boundary still ahead, or
    tomorrow's first boundary once all have passed;
  - its 1-based number;
  - the seconds left until that boundary;
  - a `"start - end"` label.

  An empty, unsuccessful or failed reply gives the zero-period state
  (period `"0"`, no time left, no periods). The user's own list is tried
  first and the global list is the fallback. The calculation is a method
  written step by step, like the source (including its `for` loop with
  `break`). It is proved equal to a functional definition, and the
  properties are proved about that definition.
- **The dashboard state** (`Dashboard.Dashboard`, a class whose fields are
  the component's state):
  - the six-hour `1 → 2 → 3 → 1` period cycle;
  - the one-second countdown;
  - the two period fetches;
  - loading the financial figures;
  - loading tasks, which creates fresh task objects;
  - acknowledging one task;
  - acknowledging every task of the current period: one request per
    task, in order, then the period's tasks are pruned.

  Server replies are parameters. The request bodies the dashboard sends
  are results.
- **Task objects** (`Tasks.Task`). They are objects, not values, because
  the task list fills in missing fields on the very objects the dashboard
  holds. The filters the dashboard and the list apply are functions over
  sequences of these objects, and their partition, membership, order and
  idempotence properties are proved.
- **The task list** (`TaskList`):
  - which tasks it shows;
  - the in-place normalisation of missing ids, totals and labels, proved
    against a function on field snapshots and proved idempotent;
  - the total it adds up;
  - the `HH:MM:SS` countdown, proved to read back as its number of seconds;
  - the progress bar;
  - its own two-hour fallback timer.
- **The financial summary** (`FinancialSummary`): the same countdown and
  bar, keyed on a period count instead of a period number, and what its
  period panel shows.

Shared text and arithmetic live in `Text`: digits, `parseInt`,
`toString` and `padStart`. `Countdown` holds the tick, the `HH:MM:SS`
rendering and the progress percentage.

Some behaviours of the code are worth stating outright:

- **Countdown range.** For boundaries before 24:00 the countdown can
  reach 86400 seconds. That happens at 00:00 when every boundary is
  `"00:00"`. It is 0 seconds when no boundary is later than now, the first
  boundary is the current minute, and that minute is not midnight.
  Otherwise, when a boundary is still ahead, it is the positive distance to
  that boundary. `RemainingMinutesBounds` states these cases, and
  `SingleBoundaryReached` gives them for a single boundary. A next boundary
  after 24:00 is reduced modulo a day: `"30:00"` seen at 00:00 is six
  hours away, not thirty (`NextBoundaryPastMidnight`). A next boundary of
  exactly 24:00 is not reduced: `"24:00"` seen at 00:00 shows 86400 seconds
  (`MidnightBoundaryNotReduced`). For any boundaries
  the countdown stays within 0..86400 seconds (`RemainingSecondsBounds`).
- **Label start.** The `"00:00"` default start in the label is never used
  by the code. The first period always starts at the last boundary
  (`LabelIsCyclicNeighbours`).
- **Fallback timer.** A comment in `taskList.tsx` speaks of a six-hour
  fallback. The code sets two hours (`TaskList.FallbackSeconds`).
- **Two copies of the calculation.** `fetchUserPeriodInfo` and
  `fetchGlobalPeriodInfo` each carry the period calculation. The copies
  (dashboard.tsx lines 109-180 and 219-290) are identical apart from
  comments, so it is modelled once, as `CalculatePeriodInfo` and
  `PeriodFor`.

## Model

| member | source | states |
|---|---|---|
| Text.NatToString | frontend/src/components/dashboard.tsx:154 | `toString` of a natural number is a non-empty numeral without a leading zero whose decimal value is the number |
| Text.LeadingDigits | frontend/src/components/dashboard.tsx:44-45 | the digits `parseInt` reads are the longest all-digit prefix: the next character, if any, is not a digit |
| Text.ParseInt | frontend/src/components/dashboard.tsx:44-45 | definition: `parseInt(s, 10)` on a digit-led text is the decimal value of its leading digits |
| Text.LeadingDigitsOfNumeral | frontend/src/components/dashboard.tsx:44-45 | a numeral followed by a non-digit is read up to the non-digit and no further |
| Text.ParseIntOfNatToString | frontend/src/components/dashboard.tsx:78-79 | `parseInt` of `n.toString()` followed by a non-digit is `n` again |
| Text.ParseNatToString | frontend/src/components/dashboard.tsx:78-79 | `parseInt(n.toString())` is `n`: the period number round-trips through its text |
| Text.PadStart2Value | frontend/src/components/taskList.tsx:72-74 | `padStart(2, "0")` keeps a numeral's value, keeps it all digits and makes it at least two long |
| Text.Pad2 | frontend/src/components/taskList.tsx:72-74 | a padded number is an all-digit text of length at least 2 (exactly 2 below 100) whose value is the number |
| Countdown.Tick | frontend/src/components/dashboard.tsx:88 | one tick never goes below zero, strictly decreases a positive countdown and leaves zero or less at zero |
| Countdown.TicksCountDown | frontend/src/components/dashboard.tsx:86-89 | after `n` ticks a countdown from `t` shows `t - n`, or 0 once `n` reaches `t` |
| Countdown.HmsParts | frontend/src/components/taskList.tsx:72-74 | three numerals joined by colons form an `H:MM:SS` text whose hours, minutes and seconds read back as those numerals |
| Countdown.HmsText | frontend/src/components/taskList.tsx:65-75 | definition: hours, minutes and seconds of the count, each `padStart(2, "0")`, joined by colons |
| Countdown.HmsTextRoundTrip | frontend/src/components/taskList.tsx:65-75 | the rendered `HH:MM:SS` text reads back as the number of seconds it was made from, with minutes and seconds below 60 |
| Countdown.ProgressPercentage | frontend/src/components/taskList.tsx:79-89 | the bar width always lies in 0..100 |
| Countdown.ProgressShape | frontend/src/components/taskList.tsx:79-89 | the bar is empty with six hours or more left, full with nothing left, and linear in the elapsed time in between |
| Countdown.ProgressMonotone | frontend/src/components/taskList.tsx:79-89 | less time left never shows less progress |
| Countdown.TickAdvancesProgress | frontend/src/components/taskList.tsx:57-59 | a tick of the countdown never moves the bar backwards |
| Periods.FieldBeforeColon | frontend/src/components/dashboard.tsx:43 | the first field of `split(":")` is the prefix before the first colon and contains no colon |
| Periods.ConvertTimeStringToMinutes | frontend/src/components/dashboard.tsx:38-49 | a time text without a colon converts to 0 minutes |
| Periods.ConvertNumericParts | frontend/src/components/dashboard.tsx:38-49 | `"H:M"` with numeric parts converts to `H * 60 + M` |
| Periods.ClockTextMinutes | frontend/src/components/dashboard.tsx:111-117 | the displayed `HH:MM` clock text converts back to the clock's minutes since midnight |
| Periods.ReadCurrentTime | frontend/src/components/dashboard.tsx:111-117 | the current time text is the clock's `HH:MM` and the current time is its minutes since midnight |
| Periods.BoundaryMinutes | frontend/src/components/dashboard.tsx:120-122 | the boundaries in minutes are the conversions of the boundary texts, one for one |
| Periods.FirstLaterIndex | frontend/src/components/dashboard.tsx:125-135 | the index found is the first boundary strictly later than now, or the length when every boundary has passed |
| Periods.ActiveIndex | frontend/src/components/dashboard.tsx:125-135 | for a non-empty list the active index is a valid index |
| Periods.ActiveIndexIsFirstLater | frontend/src/components/dashboard.tsx:125-135 | the active period is the first boundary still ahead when there is one, and period 0 (tomorrow's first) when all have passed |
| Periods.FindPeriodIndex | frontend/src/components/dashboard.tsx:125-135 | the loop with `break` finds the active index |
| Periods.MinutesUntilBoundary | frontend/src/components/dashboard.tsx:138-148 | the minutes left are computed as the remaining-minutes definition, including JavaScript's `%` |
| Periods.RemainingMinutes | frontend/src/components/dashboard.tsx:138-148 | definition: minutes to the active boundary when it is ahead, else to tomorrow's first boundary; reduced with JavaScript's `%` when that lies past 24:00 |
| Periods.PeriodLabel | frontend/src/components/dashboard.tsx:156-167 | definition: `"<start> - <end>"`, where the end is the active boundary and the start is the previous one, or the last one for the first period |
| Periods.PeriodFor | frontend/src/components/dashboard.tsx:110-177 | definition: the period information for a non-empty list: label, 1-based number, seconds left, clock text, the list's length and 8 working hours |
| Periods.NoPeriodInfo | frontend/src/components/dashboard.tsx:182-193 | definition: the zero-period state: empty label, period `"0"`, no time, the clock text, no periods and no working hours |
| Periods.GlobalPeriodInfo | frontend/src/components/dashboard.tsx:209-324 | definition: the global list's period information when it is usable, otherwise the zero-period state |
| Periods.UserPeriodInfo | frontend/src/components/dashboard.tsx:97-204 | definition: the user's list's period information when it is usable, otherwise the global outcome |
| Periods.CalculatePeriodInfo | frontend/src/components/dashboard.tsx:110-177 | the step-by-step calculation yields exactly the period information the functional definition gives |
| Periods.PeriodNumberInRange | frontend/src/components/dashboard.tsx:154 | the period number is a numeral in `[1, N]` for `N` boundaries, and the period count is `N` |
| Periods.RemainingMinutesBounds | frontend/src/components/dashboard.tsx:138-148 | within one day the minutes left lie in 0..1440; they are the positive distance to the next boundary when one is ahead; they are 0 exactly when all have passed and the first boundary is now and not midnight; they are 1440 exactly when all have passed, the first boundary is now, and now is midnight |
| Periods.RemainingNonNegative | frontend/src/components/dashboard.tsx:138-148 | for any boundaries, even past midnight, the minutes left for a clock reading within the day lie in 0..1440 |
| Periods.RemainingSecondsBounds | frontend/src/components/dashboard.tsx:138-151 | for any boundaries the seconds shown lie in 0..86400 |
| Periods.ThirtyOClock | frontend/src/components/dashboard.tsx:38-49 | `"30:00"`, a boundary past midnight, converts to 1800 minutes |
| Periods.NextBoundaryPastMidnight | frontend/src/components/dashboard.tsx:138-151 | a boundary of `"30:00"` seen at 00:00 gives 21600 seconds: a next boundary past midnight is reduced modulo a day |
| Periods.MidnightBoundaryNotReduced | frontend/src/components/dashboard.tsx:138-151 | a boundary of `"24:00"` seen at 00:00 gives 86400 seconds: a next boundary of exactly 24:00 is not reduced |
| Periods.SingleBoundaryReached | frontend/src/components/dashboard.tsx:138-151 | a single boundary reached this minute shows 86400 seconds at midnight and 0 seconds otherwise |
| Periods.LabelIsCyclicNeighbours | frontend/src/components/dashboard.tsx:156-167 | the label runs from the boundary before the active one, taken cyclically, to the active one |
| Periods.PeriodLabelCyclic | frontend/src/components/dashboard.tsx:157-167 | the label's start is the previous boundary, or the last one for the first period |
| Periods.PeriodInfoSane | frontend/src/components/dashboard.tsx:170-195 | whatever the replies, the reported period number is a numeral `parseInt` reads and the countdown is not negative |
| Periods.NoPeriodsState | frontend/src/components/dashboard.tsx:291-305 | with no usable user or global list the state is period `"0"`, no time, no periods and an empty label |
| Periods.ZeroPeriodsConsistent | frontend/src/components/dashboard.tsx:170-195 | a zero period count, period number `"0"` and an empty label always go together |
| Tasks.Task.constructor | frontend/src/components/taskList.tsx:3-16 | a new task object holds exactly the given fields |
| Tasks.InPeriod | frontend/src/components/taskList.tsx:93 | filtering never lengthens the list |
| Tasks.OutsidePeriod | frontend/src/components/dashboard.tsx:522-524 | pruning never lengthens the list |
| Tasks.WithoutId | frontend/src/components/dashboard.tsx:470 | removing an id never lengthens the list |
| Tasks.InPeriodMembers | frontend/src/components/dashboard.tsx:485-487 | the tasks of the period are exactly the tasks of the list whose period matches |
| Tasks.OutsidePeriodMembers | frontend/src/components/dashboard.tsx:522-524 | the pruned list holds exactly the tasks whose period differs |
| Tasks.WithoutIdMembers | frontend/src/components/dashboard.tsx:470 | the list without an id holds exactly the tasks carrying another id |
| Tasks.InPeriodAppend | frontend/src/components/taskList.tsx:93 | filtering keeps the order: the filter of a concatenation is the concatenation of the filters |
| Tasks.OutsidePeriodAppend | frontend/src/components/dashboard.tsx:522-524 | pruning keeps the order of the remaining tasks |
| Tasks.WithoutIdAppend | frontend/src/components/dashboard.tsx:470 | removing an id keeps the order of the remaining tasks |
| Tasks.PeriodPartition | frontend/src/components/dashboard.tsx:485-524 | the tasks acknowledged and the tasks kept are together the whole list, each task exactly as often as before |
| Tasks.WithoutIdCount | frontend/src/components/dashboard.tsx:470 | removing an id drops exactly the tasks that carry it and leaves none of them |
| Tasks.OutsidePeriodIdempotent | frontend/src/components/dashboard.tsx:522-524 | pruning a period twice prunes nothing more |
| Tasks.WithoutIdIdempotent | frontend/src/components/dashboard.tsx:470 | removing an id twice removes nothing more |
| Tasks.InPeriodDistinct | frontend/src/components/taskList.tsx:93 | a filtered list of distinct task objects has no repeated object |
| Tasks.OutsidePeriodDistinct | frontend/src/components/dashboard.tsx:522-524 | pruning keeps the task objects distinct |
| Tasks.WithoutIdDistinct | frontend/src/components/dashboard.tsx:470 | removing an id keeps the task objects distinct |
| TaskList.FormatTimeRemaining | frontend/src/components/taskList.tsx:65-75 | without periods the text is `00:00:00`; with periods it is an `H:MM:SS` text that reads back as the seconds, with minutes and seconds below 60 |
| TaskList.TimeProgressPercentage | frontend/src/components/taskList.tsx:77-89 | the bar lies in 0..100; it is 0 without periods; with periods it is empty at six hours or more and full at zero |
| TaskList.HasPeriods | frontend/src/components/taskList.tsx:37 | definition: the list has periods unless the selected period is `"0"` |
| TaskList.Normalised | frontend/src/components/taskList.tsx:94-116 | definition: the fields after one pass of the map, in the source's order: id, then total from cost, then total from price times quantity, then label from board |
| TaskList.NormalisedFields | frontend/src/components/taskList.tsx:94-116 | a missing id becomes `task-<index>`; the total is the first non-zero of total, cost and price times quantity; a missing label comes from the board; nothing else changes |
| TaskList.NormalisedIdempotent | frontend/src/components/taskList.tsx:94-116 | after one pass every task has an id, and a second pass at any position changes nothing |
| TaskList.NormaliseTask | frontend/src/components/taskList.tsx:95-115 | the in-place updates on one task object leave it holding the normalised fields |
| TaskList.NormaliseTasks | frontend/src/components/taskList.tsx:92-116 | the list shown is the tasks of the selected period, in order; each is normalised in place according to its position; tasks of other periods are untouched |
| TaskList.TotalCost | frontend/src/components/taskList.tsx:119-122 | definition: the left-to-right sum of the shown tasks' total prices |
| TaskList.TotalCostAppend | frontend/src/components/taskList.tsx:119-122 | the total of two lists put together is the sum of their totals |
| TaskList.TotalCostSplitsByPeriod | frontend/src/components/taskList.tsx:119-122 | the total of the selected period plus the total of the other periods is the total of the whole list |
| TaskList.TotalCostNonNegative | frontend/src/components/taskList.tsx:119-122 | with no negative prices the total is not negative |
| TaskList.OwnCountdown | frontend/src/components/taskList.tsx:40-62 | without an external time the list counts down from two hours when it has periods, and stays at 0 without a timer otherwise |
| TaskList.TaskListTimer.constructor | frontend/src/components/taskList.tsx:32-34 | the countdown starts at the external time, or 0 when there is none |
| TaskList.TaskListTimer.Sync | frontend/src/components/taskList.tsx:40-50 | the countdown is set to the external time when given, otherwise two hours with periods and 0 without |
| TaskList.TaskListTimer.Tick | frontend/src/components/taskList.tsx:53-62 | only the list's own timer, running without an external time and with periods, moves the countdown, by one tick |
| FinancialSummary.FormatTimeRemaining | frontend/src/components/financialSummary.tsx:27-37 | without periods the text is `00:00:00`; with periods it reads back as the seconds |
| FinancialSummary.TimeProgressPercentage | frontend/src/components/financialSummary.tsx:39-53 | the bar lies in 0..100; it is 0 without periods; with periods it is empty at six hours or more and full at zero |
| FinancialSummary.HasPeriods | frontend/src/components/financialSummary.tsx:24 | definition: the card has periods when the period count is above 0 |
| FinancialSummary.PeriodInformation | frontend/src/components/financialSummary.tsx:89-131 | definition: the badge, the "Active Period" line, the bar width and the "Time Remaining" line the period panel shows |
| FinancialSummary.NoPeriodPanelIsFixed | frontend/src/components/financialSummary.tsx:93-111 | without periods the panel shows the "No Periods" badge, `0/0` and all zeros, with no bar, whatever period and time it is handed |
| FinancialSummary.PeriodPanelContents | frontend/src/components/financialSummary.tsx:113-128 | with periods there is no badge, a bar within 0..100, and a time line that reads back as the remaining seconds |
| Dashboard.FormattedTask | frontend/src/components/dashboard.tsx:397-408 | definition: the task built from a row: id as text, label from the board or "Task", other fields defaulting to empty or 0, total from the cost, the current period and the user's id |
| Dashboard.FormattedTaskNormalised | frontend/src/components/dashboard.tsx:397-408 | for a fetched task the list keeps the label, which is never empty, and the id unless it was empty; the total becomes the cost, else price times quantity, else 0 |
| Dashboard.AckAllRequests | frontend/src/components/dashboard.tsx:490-503 | one request per task, in order, with the user's id, the task's id, no period, and the task's quantity, or 1 when that is 0 |
| Dashboard.LastFinancial | frontend/src/components/dashboard.tsx:505-515 | definition: the figures after a run of replies: those of the last reply that delivers them, else the initial ones |
| Dashboard.LastFinancialNoDelivery | frontend/src/components/dashboard.tsx:505-515 | when no reply delivers figures they stay as they were |
| Dashboard.LastFinancialLastDelivery | frontend/src/components/dashboard.tsx:505-515 | otherwise the figures are those of the last reply that delivers |
| Dashboard.NextPeriod | frontend/src/components/dashboard.tsx:77-80 | the next period is one of the texts `"1"`, `"2"` or `"3"`, and it follows the previous one modulo 3 |
| Dashboard.CycleSteps | frontend/src/components/dashboard.tsx:77-80 | the cycle runs `"1"`, `"2"`, `"3"`, then `"1"` again, and `"0"` steps to `"1"` |
| Dashboard.CycleRepeats | frontend/src/components/dashboard.tsx:76-81 | after its first step the cycle repeats every three steps |
| Dashboard.ViewsAgreeAfterFetch | frontend/src/components/dashboard.tsx:579-595 | right after a period fetch the task list (period `"0"`) and the summary (count 0) agree on whether there are periods |
| Dashboard.CycleSplitsViews | frontend/src/components/dashboard.tsx:76-81 | one cycle step from the zero state makes the task list show period `"1"` with periods while the summary still shows none |
| Dashboard.Dashboard.constructor | frontend/src/components/dashboard.tsx:19-30 | the initial state: no user, no figures, no tasks, period `"0"`, no time, loading |
| Dashboard.Dashboard.Mount | frontend/src/components/dashboard.tsx:54-69 | with a stored user: the user is signed in, the figures are set when the reply delivers them and loading ends, and the period information, period and countdown are those of the user period fetch; without one, nothing changes |
| Dashboard.Dashboard.ResetPeriodTimer | frontend/src/components/dashboard.tsx:72-74 | the countdown is set to six hours and nothing else changes |
| Dashboard.Dashboard.CyclePeriod | frontend/src/components/dashboard.tsx:76-81 | the period becomes the next one of the cycle and nothing else changes |
| Dashboard.Dashboard.Tick | frontend/src/components/dashboard.tsx:86-92 | the countdown ticks once and nothing else changes |
| Dashboard.Dashboard.ApplyPeriodInfo | frontend/src/components/dashboard.tsx:170-180 | the information is stored, and the period and countdown are taken from it |
| Dashboard.Dashboard.FetchGlobalPeriodInfo | frontend/src/components/dashboard.tsx:209-324 | the state holds the global outcome (the calculation or the zero state); the period and countdown follow it, and the task list and the summary card agree on whether there are periods |
| Dashboard.Dashboard.FetchUserPeriodInfo | frontend/src/components/dashboard.tsx:97-204 | the state holds the user's outcome (own list, else the global fallback); the period and countdown follow it, and the task list and the summary card agree on whether there are periods |
| Dashboard.Dashboard.LoadFinancialData | frontend/src/components/dashboard.tsx:330-373 | the figures are replaced, a missing figure read as 0, exactly when the reply delivers them; loading ends |
| Dashboard.Dashboard.LoadTasks | frontend/src/components/dashboard.tsx:380-422 | on success the list is new task objects, one per row in order, formatted for the current period and user; otherwise it is unchanged; loading ends |
| Dashboard.Dashboard.AcknowledgeTask | frontend/src/components/dashboard.tsx:429-482 | without a user nothing happens; otherwise one request with the period is sent, and when figures are delivered they are taken and every task with that id is removed |
| Dashboard.Dashboard.SendAcknowledgements | frontend/src/components/dashboard.tsx:489-519 | the loop sends the acknowledge-all requests in order and ends with the last delivered figures |
| Dashboard.Dashboard.AcknowledgeAll | frontend/src/components/dashboard.tsx:483-532 | without a user nothing happens; otherwise one request per task of the current period, the last delivered figures, and the period's tasks removed whatever the replies |

## Left out

- Network requests, `localStorage`, navigation, logging and the React
  scheduling of effects are not modelled. Each server reply is a parameter
  (`PeriodsReply`, `ServerReply`, `TasksReply`). A thrown error is a failed
  reply. The period, figure and task fetches also treat an error status as
  failed. The acknowledgement handler never checks the status: its reply
  counts as delivered by its `success` field and the figures it carries.
  Each timer firing is one method call.
  Logout, the tab bar and the spinner markup are not modelled.
- The clock is a parameter (`Clock`, hour and minute). `toLocaleTimeString`
  is taken to produce zero-padded `HH:MM` from `00:00` to `23:59`. Some
  runtimes print the midnight hour as `"24:MM"` with `hour12: false`. That
  rendering is not modelled: it makes the current time 1440 plus the
  minutes, and the countdown can then go negative (first boundary `"00:00"`,
  every boundary passed).
- Periods.ConvertTimeStringToMinutes: `parseInt` is modelled on texts that
  start with a digit (`WellFormedTime`). Leading whitespace, signs and the
  NaN that other texts give are not modelled.
- Money and quantities are Dafny `real`s. Floating-point rounding is not
  modelled, and neither is `formatCurrency`, which only formats for display.
- TaskList.FormatTimeRemaining: the seconds are a natural number. Within
  the modelled clock every countdown the source renders is zero or above
  (`PeriodInfoSane`, `Countdown.Tick`). A `"24:MM"` clock reading can make
  it negative, and the formatting of negative seconds is not modelled.
- Task ids are text. Numeric ids and `null` ids are not modelled: a missing
  id prints as `"undefined"` in `fetchTasks`.
- `handleTaskAction` with an action other than the two it knows does
  nothing but set the loading flag. That branch is not modelled.
- `handleAcknowledge` in `taskList.tsx` only forwards to the dashboard's
  handler, so it is not modelled separately.
- TaskList.NormaliseTasks requires that no task object occurs twice in the
  list. Every list the dashboard builds has this property (the class
  invariant `Dashboard.Dashboard.Valid`).
- Dashboard.Dashboard.AcknowledgeAll requires one reply per request it
  sends.
- Dashboard.Dashboard.LoadTasks assumes that a successful reply carries its
  rows. A success without rows throws in the source, which the model does
  not capture.
- The stale figures that "acknowledge all" writes back to `localStorage`
  are not modelled, since storage is left out.
- The task list never runs its own timer under the dashboard, because the
  dashboard always passes a countdown. The timer is modelled on its own
  terms (`TaskListTimer`).
