/**
 * The dashboard's state and the operations that change it: the six-hour
 * 1 -> 2 -> 3 period cycle, the one-second countdown, the two period
 * fetches, loading the financial figures and the tasks, and acknowledging
 * one task or every task of the current period. Server replies are
 * parameters; the requests the dashboard sends are results.
 */
module Dashboard {
  import opened Wrappers
  import opened Text
  import Countdown
  import opened Periods
  import opened Tasks
  import TaskList
  import FinancialSummary

  /** The signed-in user as stored by the login page. */
  datatype UserData = UserData(id: string, name: Option<string>)

  /** The four figures of the summary card. */
  datatype FinancialData = FinancialData(allowance: real, commission: real, spent: real, remaining: real)

  /** The `financial` object of a reply; any figure may be missing. */
  datatype FinancialFields = FinancialFields(
    allowance: Option<real>, commission: Option<real>, spent: Option<real>, remaining: Option<real>)

  /** What a `/getUserData` or `/acknowledgeTask` request produced. */
  datatype ServerReply =
    | RequestFailed                                  // threw, or an error status
    | Responded(success: bool, financial: Option<FinancialFields>)

  /**
   * The reply updates the figures: it succeeded and carries them. A success
   * without figures throws when they are read, which the handler catches.
   */
  predicate Delivers(reply: ServerReply) {
    reply.Responded? && reply.success && reply.financial.Some?
  }

  /** Each figure `|| 0`. */
  function FinancialOf(f: FinancialFields): FinancialData {
    FinancialData(f.allowance.GetOr(0.0), f.commission.GetOr(0.0), f.spent.GetOr(0.0), f.remaining.GetOr(0.0))
  }

  /** One task row of a `/getTasks` reply. */
  datatype TaskRow = TaskRow(
    id: Option<string>, board: Option<string>, stock: Option<string>, taskType: Option<string>,
    price: Option<real>, extra: Option<string>, quantity: Option<real>, cost: Option<real>)

  /** What a `/getTasks` request produced. */
  datatype TasksReply =
    | TasksFailed
    | TasksAnswer(success: bool, rows: seq<TaskRow>)

  /** `value || fallback` for text. */
  function TextOr(s: Option<string>, fallback: string): string {
    if PresentText(s) then s.value else fallback
  }

  /** The template literal `${task.id}`: a missing id prints as "undefined". */
  function IdText(id: Option<string>): string {
    if id.Some? then id.value else "undefined"
  }

  /** The task `fetchTasks` builds from a row; it has no `board` or `cost` of its own. */
  function FormattedTask(row: TaskRow, period: string, userId: Option<string>): TaskRecord {
    TaskRecord(
      Some(IdText(row.id)), period, TextOr(row.board, "Task"), TextOr(row.stock, ""),
      TextOr(row.taskType, ""), row.price.GetOr(0.0), TextOr(row.extra, ""),
      row.quantity.GetOr(0.0), row.cost.GetOr(0.0), None, None, userId)
  }

  /**
   * What the task list fills in on a task the dashboard fetched: it keeps
   * the label (never empty) and the id unless the row's id was the empty
   * text; the total is the row's cost when non-zero, else price times
   * quantity when both are non-zero, else 0.
   */
  lemma FormattedTaskNormalised(row: TaskRow, period: string, userId: Option<string>, index: nat)
    ensures var r := FormattedTask(row, period, userId);
      var n := TaskList.Normalised(r, index);
      && n.taskLabel == r.taskLabel != ""
      && (row.id != Some("") ==> n.id == r.id)
      && n.totalPrice ==
        if r.totalPrice != 0.0 then r.totalPrice
        else if r.price != 0.0 && r.quantity != 0.0 then r.price * r.quantity
        else 0.0
  {
    TaskList.NormalisedFields(FormattedTask(row, period, userId), index);
  }

  /** The request body of an acknowledgement. */
  datatype AckRequest = AckRequest(
    userId: string, taskId: Option<string>, currentPeriod: Option<string>, quantity: Option<real>)

  /** `task.quantity || 1`. */
  function QuantityOrOne(q: real): real {
    if q != 0.0 then q else 1.0
  }

  /** The requests "acknowledge all" sends, one per task, in order. */
  function AckAllRequests(userId: string, ts: seq<Task>): (r: seq<AckRequest>)
    reads ts
    ensures |r| == |ts|
    ensures forall i :: 0 <= i < |ts| ==>
      r[i].userId == userId && r[i].taskId == ts[i].id && r[i].currentPeriod.None? &&
      r[i].quantity == Some(if ts[i].quantity != 0.0 then ts[i].quantity else 1.0)
  {
    if ts == [] then []
    else
      var last := ts[|ts| - 1];
      AckAllRequests(userId, ts[..|ts| - 1]) + [AckRequest(userId, last.id, None, Some(QuantityOrOne(last.quantity)))]
  }

  /** The figures after a run of acknowledgement replies: the last delivered ones. */
  function LastFinancial(init: Option<FinancialData>, replies: seq<ServerReply>): Option<FinancialData> {
    if replies == [] then init
    else
      var last := replies[|replies| - 1];
      if Delivers(last) then Some(FinancialOf(last.financial.value))
      else LastFinancial(init, replies[..|replies| - 1])
  }

  /** With no delivering reply the figures stay as they were. */
  lemma {:induction false} LastFinancialNoDelivery(init: Option<FinancialData>, replies: seq<ServerReply>)
    requires forall i :: 0 <= i < |replies| ==> !Delivers(replies[i])
    ensures LastFinancial(init, replies) == init
  {
    if replies != [] {
      LastFinancialNoDelivery(init, replies[..|replies| - 1]);
    }
  }

  /** Otherwise the figures are those of the last reply that delivers. */
  lemma {:induction false} LastFinancialLastDelivery(init: Option<FinancialData>, replies: seq<ServerReply>, k: nat)
    requires k < |replies| && Delivers(replies[k])
    requires forall j :: k < j < |replies| ==> !Delivers(replies[j])
    ensures LastFinancial(init, replies) == Some(FinancialOf(replies[k].financial.value))
    decreases |replies|
  {
    if k < |replies| - 1 {
      LastFinancialLastDelivery(init, replies[..|replies| - 1], k);
    }
  }

  // ---------------------------------------------------------------------------
  // The fixed period cycle

  /** `((parseInt(p) % 3) + 1).toString()`. */
  function NextPeriod(p: string): (next: string)
    requires ParsesAsInt(p)
    ensures ParsesAsInt(next) && 1 <= ParseInt(next) <= 3
    ensures ParseInt(next) % 3 == (ParseInt(p) + 1) % 3
    ensures next == "1" || next == "2" || next == "3"
  {
    ParseNatToString(ParseInt(p) % 3 + 1);
    NatToString(ParseInt(p) % 3 + 1)
  }

  /** The cycle runs 1, 2, 3 and back to 1; the no-period "0" steps to "1". */
  lemma CycleSteps()
    ensures NextPeriod("0") == "1" && NextPeriod("1") == "2"
    ensures NextPeriod("2") == "3" && NextPeriod("3") == "1"
  {
    assert "0" == NatToString(0) && "1" == NatToString(1);
    assert "2" == NatToString(2) && "3" == NatToString(3);
    ParseNatToString(0);
    ParseNatToString(1);
    ParseNatToString(2);
    ParseNatToString(3);
  }

  /** After its first step the cycle repeats every three steps. */
  lemma CycleRepeats(p: string)
    requires ParsesAsInt(p)
    ensures NextPeriod(NextPeriod(NextPeriod(NextPeriod(p)))) == NextPeriod(p)
  {
    CycleSteps();
    var k := ParseInt(p) % 3 + 1;
    var a := NextPeriod(p);
    assert a == NatToString(k);
    if k == 1 {
      assert a == "1";
      assert NextPeriod(NextPeriod(NextPeriod(a))) == "1";
    } else if k == 2 {
      assert a == "2";
      assert NextPeriod(NextPeriod(NextPeriod(a))) == "2";
    } else {
      assert a == "3";
      assert NextPeriod(NextPeriod(NextPeriod(a))) == "3";
    }
  }

  // ---------------------------------------------------------------------------
  // Agreement of the two views on "are there periods"

  /**
   * Right after a period fetch the task list (period "0" means none) and
   * the summary card (a count of 0 means none) agree on whether there
   * are periods.
   */
  lemma ViewsAgreeAfterFetch(user: PeriodsReply, global: PeriodsReply, now: Clock)
    requires WellFormedReply(user) && WellFormedReply(global) && ValidClock(now)
    ensures var info := UserPeriodInfo(user, global, now);
      TaskList.HasPeriods(info.currentPeriodNumber) <==> FinancialSummary.HasPeriods(info.periodsPerDay)
  {
    ZeroPeriodsConsistent(user, global, now);
  }

  /**
   * The fixed cycle does not consult the period list: once it fires in the
   * zero-period state the task list shows period "1" with a running
   * countdown while the summary card still shows "0/0".
   */
  lemma CycleSplitsViews(now: Clock)
    ensures !FinancialSummary.HasPeriods(NoPeriodInfo(now).periodsPerDay)
    ensures NextPeriod(NoPeriodInfo(now).currentPeriodNumber) == "1"
    ensures TaskList.HasPeriods(NextPeriod(NoPeriodInfo(now).currentPeriodNumber))
  {
    CycleSteps();
  }

  // ---------------------------------------------------------------------------
  // The dashboard

  /** The dashboard component's state. */
  class Dashboard {
    var user: Option<UserData>
    var financial: Option<FinancialData>
    var tasks: seq<Task>
    var currentPeriod: string
    var timeRemaining: int
    var isLoading: bool
    var periodInfo: Option<PeriodInfo>

    /** The period reads as a number, the countdown is not negative, no task is listed twice. */
    ghost predicate Valid()
      reads this
    {
      ParsesAsInt(currentPeriod) && timeRemaining >= 0 && Distinct(tasks)
    }

    /** The initial state of the component. */
    constructor ()
      ensures Valid()
      ensures user.None? && financial.None? && tasks == [] && periodInfo.None?
      ensures currentPeriod == "0" && timeRemaining == 0 && isLoading
    {
      user, financial, tasks, periodInfo := None, None, [], None;
      currentPeriod, timeRemaining, isLoading := "0", 0, true;
    }

    /** The count the summary card is given: `periodInfo?.periodsPerDay || 0`. */
    function SummaryPeriods(): nat
      reads this
    {
      if periodInfo.Some? then periodInfo.value.periodsPerDay else 0
    }

    /**
     * The mount effect: a stored user is signed in and the figures and the
     * user's periods are fetched; without one the page navigates away and
     * the state stays as it is. The two fetches run concurrently but write
     * disjoint parts of the state, so they are taken one after the other.
     */
    method Mount(stored: Option<UserData>, financialReply: ServerReply,
                 userPeriods: PeriodsReply, globalPeriods: PeriodsReply, now: Clock)
      requires Valid() && WellFormedReply(userPeriods) && WellFormedReply(globalPeriods) && ValidClock(now)
      modifies this
      ensures Valid()
      ensures stored.None? ==> unchanged(this)
      ensures stored.Some? ==>
        && user == stored
        && financial == (if Delivers(financialReply) then Some(FinancialOf(financialReply.financial.value))
                         else old(financial))
        && !isLoading
        && periodInfo == Some(UserPeriodInfo(userPeriods, globalPeriods, now))
        && currentPeriod == periodInfo.value.currentPeriodNumber
        && timeRemaining == periodInfo.value.timeRemaining
      ensures tasks == old(tasks)
    {
      if stored.Some? {
        user := stored;
        LoadFinancialData(financialReply);
        FetchUserPeriodInfo(userPeriods, globalPeriods, now);
      }
    }

    /** The period effect's start: the countdown is reset to six hours. */
    method ResetPeriodTimer()
      requires Valid()
      modifies this
      ensures Valid()
      ensures timeRemaining == Countdown.PeriodDurationSeconds
      ensures currentPeriod == old(currentPeriod) && tasks == old(tasks) && user == old(user)
      ensures financial == old(financial) && periodInfo == old(periodInfo) && isLoading == old(isLoading)
    {
      timeRemaining := Countdown.PeriodDurationSeconds;
    }

    /** Every six hours: the next period of the fixed cycle. */
    method CyclePeriod()
      requires Valid()
      modifies this
      ensures Valid()
      ensures currentPeriod == NextPeriod(old(currentPeriod))
      ensures timeRemaining == old(timeRemaining) && tasks == old(tasks) && user == old(user)
      ensures financial == old(financial) && periodInfo == old(periodInfo) && isLoading == old(isLoading)
    {
      currentPeriod := NextPeriod(currentPeriod);
    }

    /** Every second: one tick of the countdown. */
    method Tick()
      requires Valid()
      modifies this
      ensures Valid()
      ensures timeRemaining == Countdown.Tick(old(timeRemaining))
      ensures currentPeriod == old(currentPeriod) && tasks == old(tasks) && user == old(user)
      ensures financial == old(financial) && periodInfo == old(periodInfo) && isLoading == old(isLoading)
    {
      timeRemaining := Countdown.Tick(timeRemaining);
    }

    /** Stores the computed information and takes its period and countdown. */
    method ApplyPeriodInfo(info: PeriodInfo)
      requires Valid() && ParsesAsInt(info.currentPeriodNumber) && info.timeRemaining >= 0
      modifies this
      ensures Valid()
      ensures periodInfo == Some(info)
      ensures currentPeriod == info.currentPeriodNumber && timeRemaining == info.timeRemaining
      ensures tasks == old(tasks) && user == old(user)
      ensures financial == old(financial) && isLoading == old(isLoading)
    {
      periodInfo := Some(info);
      currentPeriod := info.currentPeriodNumber;
      timeRemaining := info.timeRemaining;
    }

    /** `fetchGlobalPeriodInfo`, given the server's reply and the time. */
    method FetchGlobalPeriodInfo(global: PeriodsReply, now: Clock)
      requires Valid() && WellFormedReply(global) && ValidClock(now)
      modifies this
      ensures Valid()
      ensures periodInfo == Some(GlobalPeriodInfo(global, now))
      ensures TaskList.HasPeriods(currentPeriod) <==> FinancialSummary.HasPeriods(SummaryPeriods())
      ensures currentPeriod == periodInfo.value.currentPeriodNumber
      ensures timeRemaining == periodInfo.value.timeRemaining
      ensures tasks == old(tasks) && user == old(user)
      ensures financial == old(financial) && isLoading == old(isLoading)
    {
      PeriodInfoSane(global, global, now);
      ViewsAgreeAfterFetch(global, global, now);
      var info;
      if HasUsablePeriods(global) {
        info := CalculatePeriodInfo(global.periods.value, now);
      } else {
        info := NoPeriodInfo(now);
      }
      ApplyPeriodInfo(info);
    }

    /**
     * `fetchUserPeriodInfo`: the user's own periods when usable; otherwise
     * (after showing the zero state when the server answered) the global
     * fallback, whose outcome is what remains.
     */
    method FetchUserPeriodInfo(userReply: PeriodsReply, global: PeriodsReply, now: Clock)
      requires Valid() && WellFormedReply(userReply) && WellFormedReply(global) && ValidClock(now)
      modifies this
      ensures Valid()
      ensures periodInfo == Some(UserPeriodInfo(userReply, global, now))
      ensures TaskList.HasPeriods(currentPeriod) <==> FinancialSummary.HasPeriods(SummaryPeriods())
      ensures currentPeriod == periodInfo.value.currentPeriodNumber
      ensures timeRemaining == periodInfo.value.timeRemaining
      ensures tasks == old(tasks) && user == old(user)
      ensures financial == old(financial) && isLoading == old(isLoading)
    {
      PeriodInfoSane(userReply, global, now);
      ViewsAgreeAfterFetch(userReply, global, now);
      if HasUsablePeriods(userReply) {
        var info := CalculatePeriodInfo(userReply.periods.value, now);
        ApplyPeriodInfo(info);
      } else {
        if userReply.Reply? {
          ApplyPeriodInfo(NoPeriodInfo(now));
        }
        FetchGlobalPeriodInfo(global, now);
      }
    }

    /** `fetchFinancialAndTasks`: the figures, when the reply delivers them. */
    method LoadFinancialData(reply: ServerReply)
      requires Valid()
      modifies this
      ensures Valid() && !isLoading
      ensures financial == if Delivers(reply) then Some(FinancialOf(reply.financial.value)) else old(financial)
      ensures tasks == old(tasks) && user == old(user) && periodInfo == old(periodInfo)
      ensures currentPeriod == old(currentPeriod) && timeRemaining == old(timeRemaining)
    {
      isLoading := true;
      if Delivers(reply) {
        financial := Some(FinancialOf(reply.financial.value));
      }
      isLoading := false;
    }

    /** The user id the formatted tasks carry: `localUserData?.id`. */
    function UserId(): Option<string>
      reads this
    {
      if user.Some? then Some(user.value.id) else None
    }

    /**
     * `fetchTasks`: on success the list is replaced by new task objects,
     * one per row in order, all of the current period.
     */
    method LoadTasks(reply: TasksReply)
      requires Valid()
      modifies this
      ensures Valid() && !isLoading
      ensures reply.TasksAnswer? && reply.success ==>
        && |tasks| == |reply.rows|
        && forall i :: 0 <= i < |tasks| ==>
             fresh(tasks[i]) && tasks[i].Snapshot() == FormattedTask(reply.rows[i], currentPeriod, UserId())
      ensures !(reply.TasksAnswer? && reply.success) ==> tasks == old(tasks)
      ensures user == old(user) && financial == old(financial) && periodInfo == old(periodInfo)
      ensures currentPeriod == old(currentPeriod) && timeRemaining == old(timeRemaining)
    {
      isLoading := true;
      if reply.TasksAnswer? && reply.success {
        var period, userId := currentPeriod, UserId();
        var formatted: seq<Task> := [];
        for i := 0 to |reply.rows|
          modifies {}
          invariant |formatted| == i
          invariant forall k :: 0 <= k < i ==>
            fresh(formatted[k]) && formatted[k].Snapshot() == FormattedTask(reply.rows[k], period, userId)
          invariant Distinct(formatted)
        {
          var t := new Task(FormattedTask(reply.rows[i], period, userId));
          formatted := formatted + [t];
        }
        tasks := formatted;
      }
      isLoading := false;
    }

    /**
     * `handleTaskAction(task, "acknowledge")`: without a user nothing
     * happens; otherwise one request is sent and, when the reply delivers
     * figures, they are taken and every task with that id is removed.
     */
    method AcknowledgeTask(task: Task, reply: ServerReply) returns (request: Option<AckRequest>)
      requires Valid()
      modifies this
      ensures Valid()
      ensures old(user).None? ==> request.None? && unchanged(this)
      ensures old(user).Some? ==>
        && request == Some(AckRequest(old(user).value.id, task.id, Some(old(currentPeriod)), None))
        && !isLoading
        && tasks == (if Delivers(reply) then WithoutId(old(tasks), task.id) else old(tasks))
        && financial == (if Delivers(reply) then Some(FinancialOf(reply.financial.value)) else old(financial))
      ensures user == old(user) && periodInfo == old(periodInfo)
      ensures currentPeriod == old(currentPeriod) && timeRemaining == old(timeRemaining)
    {
      if user.None? {
        return None;
      }
      isLoading := true;
      request := Some(AckRequest(user.value.id, task.id, Some(currentPeriod), None));
      if Delivers(reply) {
        financial := Some(FinancialOf(reply.financial.value));
        WithoutIdDistinct(tasks, task.id);
        tasks := WithoutId(tasks, task.id);
      }
      isLoading := false;
    }

    /** The sequential loop of "acknowledge all": one request and one reply per task. */
    method SendAcknowledgements(userId: string, current: seq<Task>, replies: seq<ServerReply>)
      returns (requests: seq<AckRequest>)
      requires |replies| == |current|
      modifies this
      ensures requests == old(AckAllRequests(userId, current))
      ensures financial == LastFinancial(old(financial), replies)
      ensures user == old(user) && tasks == old(tasks) && periodInfo == old(periodInfo)
      ensures currentPeriod == old(currentPeriod) && timeRemaining == old(timeRemaining)
      ensures isLoading == old(isLoading)
    {
      requests := [];
      for i := 0 to |current|
        invariant requests == old(AckAllRequests(userId, current[..i]))
        invariant financial == LastFinancial(old(financial), replies[..i])
        invariant user == old(user) && tasks == old(tasks) && periodInfo == old(periodInfo)
        invariant currentPeriod == old(currentPeriod) && timeRemaining == old(timeRemaining)
        invariant isLoading == old(isLoading)
      {
        var t := current[i];
        requests := requests + [AckRequest(userId, t.id, None, Some(QuantityOrOne(t.quantity)))];
        if Delivers(replies[i]) {
          financial := Some(FinancialOf(replies[i].financial.value));
        }
        assert current[..i + 1][..i] == current[..i];
        assert replies[..i + 1][..i] == replies[..i];
      }
      assert current[..|current|] == current;
      assert replies[..|replies|] == replies;
    }

    /**
     * `handleTaskAction(null, "acknowledge-all")`: one request per task of
     * the current period, in order, each reply handled on its own; then
     * every task of the current period is removed, whatever the replies.
     */
    method AcknowledgeAll(replies: seq<ServerReply>) returns (requests: seq<AckRequest>)
      requires Valid()
      requires user.Some? ==> |replies| == |InPeriod(tasks, currentPeriod)|
      modifies this
      ensures Valid()
      ensures old(user).None? ==> requests == [] && unchanged(this)
      ensures old(user).Some? ==>
        && requests == old(AckAllRequests(user.value.id, InPeriod(tasks, currentPeriod)))
        && financial == LastFinancial(old(financial), replies)
        && tasks == OutsidePeriod(old(tasks), old(currentPeriod))
        && !isLoading
      ensures user == old(user) && periodInfo == old(periodInfo)
      ensures currentPeriod == old(currentPeriod) && timeRemaining == old(timeRemaining)
    {
      if user.None? {
        return [];
      }
      isLoading := true;
      var current := InPeriod(tasks, currentPeriod);
      requests := SendAcknowledgements(user.value.id, current, replies);
      OutsidePeriodDistinct(tasks, currentPeriod);
      tasks := OutsidePeriod(tasks, currentPeriod);
      isLoading := false;
    }
  }
}
