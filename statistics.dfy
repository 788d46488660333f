/**
 * The statistics panel: a pure derivation over the current task list.
 * Every figure is recomputed from the list; nothing is stored.
 */
module Statistics {
  import opened Wrappers
  import opened Numbers
  import opened Tasks
  import opened App

  /** `tasks.filter(task => task.status === s)`: the tasks with status `s`, in list order. */
  function WithStatus(ts: seq<Task>, s: string): (r: seq<Task>)
    ensures |r| <= |ts|
    ensures forall t :: t in r ==> t in ts && t.status == s
    ensures forall t :: t in ts && t.status == s ==> t in r
  {
    if ts == [] then []
    else (if ts[0].status == s then [ts[0]] else []) + WithStatus(ts[1..], s)
  }

  /** The completed tasks. */
  function Completed(ts: seq<Task>): seq<Task> { WithStatus(ts, COMPLETED) }

  /** The active tasks. */
  function Active(ts: seq<Task>): seq<Task> { WithStatus(ts, ACTIVE) }

  /** The condition the overdue filter applies to an active task. */
  predicate IsOverdue(t: Task, now: int, instant: string -> int)
  {
    HasDueDate(t) && instant(t.dueDate.value) < now
  }

  /**
   * The overdue tasks: the active tasks with a due date whose instant
   * (`instant` stands for date-text parsing) lies before `now`.
   */
  function Overdue(ts: seq<Task>, now: int, instant: string -> int): (r: seq<Task>)
    ensures |r| <= |ts|
    ensures forall t :: t in r ==> t in ts && IsActive(t) && HasDueDate(t) && instant(t.dueDate.value) < now
    ensures forall t :: t in ts && IsActive(t) && IsOverdue(t, now, instant) ==> t in r
  {
    OverdueAmong(Active(ts), now, instant)
  }

  function OverdueAmong(ts: seq<Task>, now: int, instant: string -> int): (r: seq<Task>)
    ensures |r| <= |ts|
    ensures forall t :: t in r ==> t in ts && IsOverdue(t, now, instant)
    ensures forall t :: t in ts && IsOverdue(t, now, instant) ==> t in r
  {
    if ts == [] then []
    else (if IsOverdue(ts[0], now, instant) then [ts[0]] else []) + OverdueAmong(ts[1..], now, instant)
  }

  /** `tasks.reduce((sum, task) => sum + task.expectedDays, 0)`. */
  function TotalExpectedDays(ts: seq<Task>): (r: int)
    ensures (forall i :: 0 <= i < |ts| ==> ts[i].expectedDays >= 1) ==> r >= |ts|
  {
    if ts == [] then 0 else TotalExpectedDays(ts[..|ts| - 1]) + ts[|ts| - 1].expectedDays
  }

  /** `tasks.reduce((sum, task) => sum + task.daysSpent, 0)`. */
  function TotalDaysSpent(ts: seq<Task>): (r: int)
    ensures (forall i :: 0 <= i < |ts| ==> ts[i].daysSpent >= 0) ==> r >= 0
  {
    if ts == [] then 0 else TotalDaysSpent(ts[..|ts| - 1]) + ts[|ts| - 1].daysSpent
  }

  /** What one completed task contributes to the time saved: its underrun, never negative. */
  function Saved(t: Task): (r: nat)
    ensures r >= t.expectedDays - t.daysSpent
    ensures r == 0 || r == t.expectedDays - t.daysSpent
  {
    if t.expectedDays - t.daysSpent > 0 then t.expectedDays - t.daysSpent else 0
  }

  /** The reduce that adds up the positive differences, in list order. */
  function SavedSum(cs: seq<Task>): (r: int)
    ensures r >= 0
  {
    if cs == [] then 0
    else
      var sum := SavedSum(cs[..|cs| - 1]);
      var difference := cs[|cs| - 1].expectedDays - cs[|cs| - 1].daysSpent;
      if difference > 0 then sum + difference else sum
  }

  /** `timeSaved`: the reduce over the completed tasks. */
  function TimeSaved(ts: seq<Task>): (r: int)
    ensures r >= 0
  {
    SavedSum(Completed(ts))
  }

  /** Per-task efficiency: `Math.min(1, daysSpent / expectedDays)`, or 1 when `expectedDays <= 0`. */
  function Efficiency(t: Task): (r: real)
    ensures r <= 1.0
    ensures t.expectedDays <= 0 ==> r == 1.0
    ensures t.daysSpent >= 0 ==> r >= 0.0
    ensures t.expectedDays > 0 && t.daysSpent >= t.expectedDays ==> r == 1.0
  {
    Min(1.0, if t.expectedDays > 0 then t.daysSpent as real / t.expectedDays as real else 1.0)
  }

  /** `totalEfficiency`: the reduce adding every per-task efficiency. */
  function EfficiencySum(cs: seq<Task>): (r: real)
    ensures r <= |cs| as real
    ensures (forall i :: 0 <= i < |cs| ==> cs[i].daysSpent >= 0) ==> r >= 0.0
  {
    if cs == [] then 0.0 else EfficiencySum(cs[..|cs| - 1]) + Efficiency(cs[|cs| - 1])
  }

  /** `getProductivityScore`: the mean efficiency as a rounded percentage, 0 with nothing completed. */
  function ProductivityScore(ts: seq<Task>): (r: int)
    ensures Completed(ts) == [] ==> r == 0
    ensures r <= 100
    ensures (forall t :: t in ts && IsCompleted(t) ==> t.daysSpent >= 0) ==> r >= 0
  {
    var cs := Completed(ts);
    if |cs| == 0 then 0
    else
      var total := EfficiencySum(cs);
      PercentOf(total, |cs| as real);
      assert (forall t :: t in ts && IsCompleted(t) ==> t.daysSpent >= 0) ==> total >= 0.0 by {
        if forall t :: t in ts && IsCompleted(t) ==> t.daysSpent >= 0 {
          assert forall i :: 0 <= i < |cs| ==> cs[i] in cs;
        }
      }
      Round(total / |cs| as real * 100.0)
  }

  /**
   * The position that `reduce((longest, task) => task.daysSpent > longest.daysSpent ? task : longest)`
   * ends on: a task with the most days, the first such one.
   */
  function LongestIndex(a: seq<Task>): (k: nat)
    requires |a| > 0
    ensures k < |a|
    ensures forall j :: 0 <= j < |a| ==> a[j].daysSpent <= a[k].daysSpent
    ensures forall j :: 0 <= j < k ==> a[j].daysSpent < a[k].daysSpent
  {
    if |a| == 1 then 0
    else
      var k := LongestIndex(a[..|a| - 1]);
      if a[|a| - 1].daysSpent > a[k].daysSpent then |a| - 1 else k
  }

  /**
   * `getLongestActiveTask`: absent exactly when no task is active; otherwise
   * an active task with the most days spent, the earliest one on ties.
   */
  function LongestActiveTask(ts: seq<Task>): (r: Option<Task>)
    ensures r.None? <==> Active(ts) == []
    ensures r.Some? ==> r.value in ts && IsActive(r.value)
    ensures r.Some? ==>
              exists k :: (0 <= k < |Active(ts)| && Active(ts)[k] == r.value
                && (forall j :: 0 <= j < |Active(ts)| ==> Active(ts)[j].daysSpent <= r.value.daysSpent)
                && (forall j :: 0 <= j < k ==> Active(ts)[j].daysSpent < r.value.daysSpent))
  {
    var a := Active(ts);
    if |a| == 0 then None else Some(a[LongestIndex(a)])
  }

  /**
   * Width of the overall progress bar: 0 when nothing is planned, otherwise
   * the share of planned days spent, as a percentage capped at 100.
   */
  function OverallProgress(ts: seq<Task>): (r: real)
    ensures r <= 100.0
    ensures TotalExpectedDays(ts) <= 0 ==> r == 0.0
    ensures TotalExpectedDays(ts) > 0 && TotalDaysSpent(ts) >= 0 ==> r >= 0.0
    ensures TotalExpectedDays(ts) > 0 ==>
              (r == 100.0 <==> TotalDaysSpent(ts) >= TotalExpectedDays(ts))
  {
    var expected := TotalExpectedDays(ts);
    var spent := TotalDaysSpent(ts);
    if expected > 0 then
      PercentOf(spent as real, expected as real);
      Min(100.0, spent as real / expected as real * 100.0)
    else 0.0
  }

  /**
   * The completion rate, shown only when some task is completed: the share
   * of completed tasks as a rounded percentage.
   */
  function CompletionRate(ts: seq<Task>): (r: Option<int>)
    ensures r.Some? <==> Completed(ts) != []
    ensures r.Some? ==> 0 <= r.value <= 100
    ensures r.Some? && |Completed(ts)| == |ts| ==> r.value == 100
  {
    var c := |Completed(ts)|;
    if c > 0 then
      PercentOf(c as real, |ts| as real);
      Some(Round(c as real / |ts| as real * 100.0))
    else None
  }

  /** Filtering by status distributes over concatenation (order is kept). */
  lemma {:induction false} WithStatusAppend(a: seq<Task>, b: seq<Task>, s: string)
    ensures WithStatus(a + b, s) == WithStatus(a, s) + WithStatus(b, s)
  {
    if a == [] {
      assert a + b == b;
    } else {
      assert (a + b)[0] == a[0];
      assert (a + b)[1..] == a[1..] + b;
      WithStatusAppend(a[1..], b, s);
      var head := if a[0].status == s then [a[0]] else [];
      calc {
        WithStatus(a + b, s);
        head + WithStatus(a[1..] + b, s);
        head + (WithStatus(a[1..], s) + WithStatus(b, s));
        (head + WithStatus(a[1..], s)) + WithStatus(b, s);
      }
    }
  }

  /** With only the two known statuses, the completed and active tasks partition the list. */
  lemma {:induction false} PartitionCount(ts: seq<Task>)
    requires KnownStatuses(ts)
    ensures |Completed(ts)| + |Active(ts)| == |ts|
  {
    if ts != [] {
      assert KnownStatuses(ts[1..]) by {
        forall i | 0 <= i < |ts[1..]| ensures IsActive(ts[1..][i]) || IsCompleted(ts[1..][i]) {
          assert ts[1..][i] == ts[i + 1];
        }
      }
      PartitionCount(ts[1..]);
      assert IsActive(ts[0]) || IsCompleted(ts[0]) by { assert ts[0] == ts[0 + 0]; }
    }
  }

  /** Lists with the same statuses, position by position, have as many tasks of each status. */
  lemma {:induction false} SameStatusesSameCount(a: seq<Task>, b: seq<Task>, s: string)
    requires |a| == |b|
    requires forall i :: 0 <= i < |a| ==> a[i].status == b[i].status
    ensures |WithStatus(a, s)| == |WithStatus(b, s)|
  {
    if a != [] {
      assert a[0].status == b[0].status;
      SameStatusesSameCount(a[1..], b[1..], s);
    }
  }

  /**
   * Lists that differ in status only at position `k` have counts that differ
   * only by what position `k` contributes.
   */
  lemma {:induction false} StatusesDifferAt(a: seq<Task>, b: seq<Task>, k: nat, s: string)
    requires |a| == |b| && k < |a|
    requires forall i :: 0 <= i < |a| && i != k ==> a[i].status == b[i].status
    ensures |WithStatus(a, s)| - (if a[k].status == s then 1 else 0)
         == |WithStatus(b, s)| - (if b[k].status == s then 1 else 0)
  {
    if k == 0 {
      SameStatusesSameCount(a[1..], b[1..], s);
    } else {
      assert a[0].status == b[0].status;
      assert a[1..][k - 1] == a[k] && b[1..][k - 1] == b[k];
      StatusesDifferAt(a[1..], b[1..], k - 1, s);
    }
  }

  /** Filtering the one-element list `[t]`. */
  lemma WithStatusSingle(t: Task, s: string)
    ensures WithStatus([t], s) == if t.status == s then [t] else []
  {
  }

  /** Adding a task adds it to the end of its own partition and to no other. */
  lemma AddTaskPartitions(ts: seq<Task>, t: Task)
    ensures Completed(AddTask(ts, t)) == Completed(ts) + (if IsCompleted(t) then [t] else [])
    ensures Active(AddTask(ts, t)) == Active(ts) + (if IsActive(t) then [t] else [])
  {
    WithStatusAppend(ts, [t], COMPLETED);
    WithStatusAppend(ts, [t], ACTIVE);
    WithStatusSingle(t, COMPLETED);
    WithStatusSingle(t, ACTIVE);
  }

  /** Adding a task changes the two totals and the time saved by exactly that task's share. */
  lemma AddTaskTotals(ts: seq<Task>, t: Task)
    ensures TotalExpectedDays(AddTask(ts, t)) == TotalExpectedDays(ts) + t.expectedDays
    ensures TotalDaysSpent(AddTask(ts, t)) == TotalDaysSpent(ts) + t.daysSpent
    ensures TimeSaved(AddTask(ts, t)) == TimeSaved(ts) + (if IsCompleted(t) then Saved(t) else 0)
  {
    var r := AddTask(ts, t);
    assert r[..|r| - 1] == ts;
    AddTaskPartitions(ts, t);
    var cs := Completed(r);
    if IsCompleted(t) {
      assert cs[..|cs| - 1] == Completed(ts);
    } else {
      assert cs == Completed(ts);
    }
  }

  /** Updating days spent moves no task between the completed and active partitions. */
  lemma TimeUpdateKeepsPartition(ts: seq<Task>, id: int, days: int)
    ensures |Completed(TimeUpdate(ts, id, days))| == |Completed(ts)|
    ensures |Active(TimeUpdate(ts, id, days))| == |Active(ts)|
  {
    var r := TimeUpdate(ts, id, days);
    SameStatusesSameCount(r, ts, COMPLETED);
    SameStatusesSameCount(r, ts, ACTIVE);
  }

  /** Completing the one active task carrying `id` moves it from the active to the completed count. */
  lemma CompleteTaskMovesOne(ts: seq<Task>, id: int, now: int, k: nat)
    requires k < |ts| && ts[k].id == id && IsActive(ts[k])
    requires forall i :: 0 <= i < |ts| && i != k ==> ts[i].id != id
    ensures |Completed(CompleteTask(ts, id, now))| == |Completed(ts)| + 1
    ensures |Active(CompleteTask(ts, id, now))| == |Active(ts)| - 1
  {
    var r := CompleteTask(ts, id, now);
    StatusesDifferAt(r, ts, k, COMPLETED);
    StatusesDifferAt(r, ts, k, ACTIVE);
  }

  /**
   * A worked case: one completed task overran (10 expected, 15 spent), one
   * finished early (10 expected, 5 spent). Time saved is 5 and the
   * efficiency score is 75.
   */
  lemma OverrunAndEarlyExample(a: Task, b: Task)
    requires a.status == COMPLETED && a.expectedDays == 10 && a.daysSpent == 15
    requires b.status == COMPLETED && b.expectedDays == 10 && b.daysSpent == 5
    ensures TimeSaved([a, b]) == 5
    ensures ProductivityScore([a, b]) == 75
  {
    assert Completed([a, b]) == [a, b] by {
      assert [a, b][1..] == [b];
      assert [b][1..] == [];
    }
    assert [a, b][..1] == [a];
    assert [a][..0] == [];
    assert SavedSum([a]) == 0;
    assert SavedSum([a, b]) == 5;
    assert Efficiency(a) == 1.0;
    assert Efficiency(b) == 0.5;
    assert EfficiencySum([a, b]) == 1.5;
  }
}
