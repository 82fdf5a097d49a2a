/**
 * The task objects the dashboard holds and hands to the task list. They are
 * objects rather than values: the task list fills in missing fields on the
 * very objects the dashboard keeps, so both components see the change.
 */
module Tasks {
  import opened Wrappers

  /** The fields of a task at one moment. */
  datatype TaskRecord = TaskRecord(
    id: Option<string>,
    period: string,
    taskLabel: string,
    stock: string,
    taskType: string,
    price: real,
    extra: string,
    quantity: real,
    totalPrice: real,
    board: Option<string>,
    cost: Option<real>,
    userId: Option<string>)

  /** JavaScript truthiness of an optional string: present and non-empty. */
  predicate PresentText(s: Option<string>) {
    s.Some? && s.value != ""
  }

  /** JavaScript truthiness of an optional number: present and non-zero. */
  predicate PresentNumber(x: Option<real>) {
    x.Some? && x.value != 0.0
  }

  /** A task as the UI holds it; its fields are updated in place. */
  class Task {
    var id: Option<string>
    var period: string
    var taskLabel: string
    var stock: string
    var taskType: string
    var price: real
    var extra: string
    var quantity: real
    var totalPrice: real
    var board: Option<string>
    var cost: Option<real>
    var userId: Option<string>

    constructor (r: TaskRecord)
      ensures Snapshot() == r
    {
      id, period, taskLabel, stock, taskType := r.id, r.period, r.taskLabel, r.stock, r.taskType;
      price, extra, quantity, totalPrice := r.price, r.extra, r.quantity, r.totalPrice;
      board, cost, userId := r.board, r.cost, r.userId;
    }

    /** The current field values. */
    function Snapshot(): TaskRecord
      reads this
    {
      TaskRecord(id, period, taskLabel, stock, taskType, price, extra, quantity, totalPrice,
                 board, cost, userId)
    }
  }

  /** No task object occurs twice in the list. */
  predicate Distinct(ts: seq<Task>) {
    forall i, j :: 0 <= i < j < |ts| ==> ts[i] != ts[j]
  }

  /** `tasks.filter(t => t.period === p)`. */
  function InPeriod(ts: seq<Task>, p: string): (r: seq<Task>)
    reads ts
    ensures |r| <= |ts|
  {
    if ts == [] then []
    else if ts[0].period == p then [ts[0]] + InPeriod(ts[1..], p)
    else InPeriod(ts[1..], p)
  }

  /** `tasks.filter(t => t.period !== p)`. */
  function OutsidePeriod(ts: seq<Task>, p: string): (r: seq<Task>)
    reads ts
    ensures |r| <= |ts|
  {
    if ts == [] then []
    else if ts[0].period != p then [ts[0]] + OutsidePeriod(ts[1..], p)
    else OutsidePeriod(ts[1..], p)
  }

  /** `tasks.filter(t => t.id !== id)`. */
  function WithoutId(ts: seq<Task>, id: Option<string>): (r: seq<Task>)
    reads ts
    ensures |r| <= |ts|
  {
    if ts == [] then []
    else if ts[0].id != id then [ts[0]] + WithoutId(ts[1..], id)
    else WithoutId(ts[1..], id)
  }

  /** How many tasks of the list carry the id. */
  function CountWithId(ts: seq<Task>, id: Option<string>): nat
    reads ts
  {
    if ts == [] then 0 else (if ts[0].id == id then 1 else 0) + CountWithId(ts[1..], id)
  }

  // ---------------------------------------------------------------------------
  // Properties of the filters

  /** The filter keeps exactly the tasks of the period. */
  lemma {:induction false} InPeriodMembers(ts: seq<Task>, p: string)
    ensures forall i :: 0 <= i < |InPeriod(ts, p)| ==>
      InPeriod(ts, p)[i] in ts && InPeriod(ts, p)[i].period == p
    ensures forall i :: 0 <= i < |ts| && ts[i].period == p ==> ts[i] in InPeriod(ts, p)
  {
    if ts != [] {
      InPeriodMembers(ts[1..], p);
    }
  }

  /** Pruning a period keeps exactly the tasks of the other periods. */
  lemma {:induction false} OutsidePeriodMembers(ts: seq<Task>, p: string)
    ensures forall i :: 0 <= i < |OutsidePeriod(ts, p)| ==>
      OutsidePeriod(ts, p)[i] in ts && OutsidePeriod(ts, p)[i].period != p
    ensures forall i :: 0 <= i < |ts| && ts[i].period != p ==> ts[i] in OutsidePeriod(ts, p)
  {
    if ts != [] {
      OutsidePeriodMembers(ts[1..], p);
    }
  }

  /** Removing an id keeps exactly the tasks with another id. */
  lemma {:induction false} WithoutIdMembers(ts: seq<Task>, id: Option<string>)
    ensures forall i :: 0 <= i < |WithoutId(ts, id)| ==>
      WithoutId(ts, id)[i] in ts && WithoutId(ts, id)[i].id != id
    ensures forall i :: 0 <= i < |ts| && ts[i].id != id ==> ts[i] in WithoutId(ts, id)
  {
    if ts != [] {
      WithoutIdMembers(ts[1..], id);
    }
  }

  /**
   * Filtering by period keeps the order: the filter of a concatenation is
   * the concatenation of the filters.
   */
  lemma {:induction false} InPeriodAppend(a: seq<Task>, b: seq<Task>, p: string)
    ensures InPeriod(a + b, p) == InPeriod(a, p) + InPeriod(b, p)
  {
    if a != [] {
      assert (a + b)[0] == a[0] && (a + b)[1..] == a[1..] + b;
      InPeriodAppend(a[1..], b, p);
    } else {
      assert a + b == b;
    }
  }

  lemma {:induction false} OutsidePeriodAppend(a: seq<Task>, b: seq<Task>, p: string)
    ensures OutsidePeriod(a + b, p) == OutsidePeriod(a, p) + OutsidePeriod(b, p)
  {
    if a != [] {
      assert (a + b)[0] == a[0] && (a + b)[1..] == a[1..] + b;
      OutsidePeriodAppend(a[1..], b, p);
    } else {
      assert a + b == b;
    }
  }

  lemma {:induction false} WithoutIdAppend(a: seq<Task>, b: seq<Task>, id: Option<string>)
    ensures WithoutId(a + b, id) == WithoutId(a, id) + WithoutId(b, id)
  {
    if a != [] {
      assert (a + b)[0] == a[0] && (a + b)[1..] == a[1..] + b;
      WithoutIdAppend(a[1..], b, id);
    } else {
      assert a + b == b;
    }
  }

  /**
   * The tasks of a period and the others split the list: together they are
   * the list again, each task exactly as often as before.
   */
  lemma {:induction false} PeriodPartition(ts: seq<Task>, p: string)
    ensures multiset(InPeriod(ts, p)) + multiset(OutsidePeriod(ts, p)) == multiset(ts)
    ensures |InPeriod(ts, p)| + |OutsidePeriod(ts, p)| == |ts|
  {
    if ts != [] {
      PeriodPartition(ts[1..], p);
      assert ts == [ts[0]] + ts[1..];
    }
  }

  /** Removing one id drops exactly the tasks that carry it. */
  lemma {:induction false} WithoutIdCount(ts: seq<Task>, id: Option<string>)
    ensures |WithoutId(ts, id)| == |ts| - CountWithId(ts, id)
    ensures CountWithId(WithoutId(ts, id), id) == 0
  {
    if ts != [] {
      WithoutIdCount(ts[1..], id);
    }
  }

  /** Pruning twice prunes nothing more. */
  lemma {:induction false} OutsidePeriodIdempotent(ts: seq<Task>, p: string)
    ensures OutsidePeriod(OutsidePeriod(ts, p), p) == OutsidePeriod(ts, p)
  {
    if ts != [] {
      OutsidePeriodIdempotent(ts[1..], p);
    }
  }

  lemma {:induction false} WithoutIdIdempotent(ts: seq<Task>, id: Option<string>)
    ensures WithoutId(WithoutId(ts, id), id) == WithoutId(ts, id)
  {
    if ts != [] {
      WithoutIdIdempotent(ts[1..], id);
    }
  }

  /** A filter of a list without repeated objects has none either. */
  lemma {:induction false} InPeriodDistinct(ts: seq<Task>, p: string)
    requires Distinct(ts)
    ensures Distinct(InPeriod(ts, p))
  {
    if ts != [] {
      InPeriodDistinct(ts[1..], p);
      InPeriodMembers(ts[1..], p);
      assert ts[0] !in ts[1..];
    }
  }

  lemma {:induction false} OutsidePeriodDistinct(ts: seq<Task>, p: string)
    requires Distinct(ts)
    ensures Distinct(OutsidePeriod(ts, p))
  {
    if ts != [] {
      OutsidePeriodDistinct(ts[1..], p);
      OutsidePeriodMembers(ts[1..], p);
      assert ts[0] !in ts[1..];
    }
  }

  lemma {:induction false} WithoutIdDistinct(ts: seq<Task>, id: Option<string>)
    requires Distinct(ts)
    ensures Distinct(WithoutId(ts, id))
  {
    if ts != [] {
      WithoutIdDistinct(ts[1..], id);
      WithoutIdMembers(ts[1..], id);
      assert ts[0] !in ts[1..];
    }
  }
}
