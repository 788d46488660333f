/**
 * What one task item derives from its task: days until the due date, the
 * due-date badge, the progress percentage, and which controls it shows.
 * `instant` stands for parsing the stored due-date text into an instant.
 */
module TaskItem {
  import opened Wrappers
  import opened Numbers
  import opened Tasks
  import opened App
  import opened Statistics

  /**
   * `getDaysUntilDue`: absent without a due date; otherwise the time to the
   * due instant in days, rounded up.
   */
  function DaysUntilDue(t: Task, now: int, instant: string -> int): (r: Option<int>)
    ensures r.None? <==> !HasDueDate(t)
    ensures r.Some? ==> MS_PER_DAY * (r.value - 1) < instant(t.dueDate.value) - now <= MS_PER_DAY * r.value
  {
    if !HasDueDate(t) then None
    else Some(CeilDiv(instant(t.dueDate.value) - now, MS_PER_DAY))
  }

  /** The CSS class of the badge. */
  datatype DueClass = TimeOver | TimeWarning | TimeNeutral

  /** The badge text: "Overdue by N days", "Due today" or "Due in N days". */
  datatype DueLabel = OverdueBy(days: int) | DueToday | DueIn(days: int)

  datatype DueStatus = DueStatus(badge: DueLabel, className: DueClass)

  /**
   * The classification of `getDueDateStatus`: overdue and due today are both
   * "time-over", one to three days is "time-warning", later is "time-neutral".
   */
  function Classify(days: int): (r: DueStatus)
    ensures r.className == TimeOver <==> days <= 0
    ensures r.className == TimeWarning <==> 1 <= days <= 3
    ensures r.className == TimeNeutral <==> days > 3
    ensures r.badge.OverdueBy? <==> days < 0
    ensures r.badge.OverdueBy? ==> r.badge.days == -days && r.badge.days > 0
    ensures r.badge == DueToday <==> days == 0
    ensures r.badge.DueIn? ==> r.badge.days == days && days > 0
  {
    if days < 0 then DueStatus(OverdueBy(-days), TimeOver)
    else if days == 0 then DueStatus(DueToday, TimeOver)
    else if days <= 3 then DueStatus(DueIn(days), TimeWarning)
    else DueStatus(DueIn(days), TimeNeutral)
  }

  /** `getDueDateStatus`: no badge without a due date. */
  function DueDateStatus(t: Task, now: int, instant: string -> int): (r: Option<DueStatus>)
    ensures r.None? <==> !HasDueDate(t)
  {
    match DaysUntilDue(t, now, instant)
    case None => None
    case Some(days) => Some(Classify(days))
  }

  /**
   * `getProgressPercentage`: 0 for a zero target; otherwise the share of the
   * target spent, as a percentage capped at 100.
   */
  function ProgressPercentage(t: Task): (r: real)
    ensures t.expectedDays == 0 ==> r == 0.0
    ensures r <= 100.0
    ensures t.expectedDays > 0 && t.daysSpent >= 0 ==> r >= 0.0
    ensures t.expectedDays > 0 ==> (r == 100.0 <==> t.daysSpent >= t.expectedDays)
  {
    if t.expectedDays == 0 then 0.0
    else Min(100.0, t.daysSpent as real / t.expectedDays as real * 100.0)
  }

  /** The label of the status button; both labels call the completion handler. */
  datatype CompleteButton = MarkComplete | ReopenTask

  /** What the item shows besides its figures. */
  datatype Controls = Controls(timer: bool, button: CompleteButton, completedOn: Option<int>)

  /**
   * The gating of the item: the timer (and so day accrual) only for an
   * active task, "Mark Complete" for an active task and "Reopen Task"
   * otherwise, and the completion date only for a completed, stamped task.
   */
  function ControlsOf(t: Task): (c: Controls)
    ensures c.timer <==> IsActive(t)
    ensures c.button == MarkComplete <==> IsActive(t)
    ensures c.completedOn.Some? <==> IsCompleted(t) && t.completedAt.Some?
    ensures c.completedOn.Some? ==> c.completedOn == t.completedAt
  {
    Controls(
      IsActive(t),
      if IsActive(t) then MarkComplete else ReopenTask,
      if t.completedAt.Some? && IsCompleted(t) then t.completedAt else None)
  }

  /** Progress grows with the days spent, for a positive target. */
  lemma {:induction false} ProgressPercentageMonotone(t: Task, days: int)
    requires t.expectedDays > 0 && t.daysSpent <= days
    ensures ProgressPercentage(t) <= ProgressPercentage(t.(daysSpent := days))
  {
    var e := t.expectedDays as real;
    var x, y := t.daysSpent as real, days as real;
    assert x / e <= y / e by {
      assert (y - x) / e >= 0.0;
      assert y / e - x / e == (y - x) / e;
    }
  }

  /** A task the statistics count as overdue shows a "time-over" badge (overdue or due today). */
  lemma OverdueShowsTimeOver(ts: seq<Task>, t: Task, now: int, instant: string -> int)
    requires t in Overdue(ts, now, instant)
    ensures DueDateStatus(t, now, instant).Some?
    ensures DueDateStatus(t, now, instant).value.className == TimeOver
  {
  }

  /** An active task whose badge reads "Overdue by" is counted as overdue by the statistics. */
  lemma OverdueBadgeIsCounted(ts: seq<Task>, t: Task, now: int, instant: string -> int)
    requires t in ts && IsActive(t)
    requires DueDateStatus(t, now, instant).Some?
    requires DueDateStatus(t, now, instant).value.badge.OverdueBy?
    ensures t in Overdue(ts, now, instant)
  {
    assert IsOverdue(t, now, instant);
  }

  /**
   * Completing or reopening a task switches its controls: the timer is shown
   * exactly when it was not, and a freshly completed task shows its date.
   */
  lemma CompleteTaskSwitchesControls(ts: seq<Task>, id: int, now: int, i: nat)
    requires i < |ts| && ts[i].id == id
    ensures var c := ControlsOf(CompleteTask(ts, id, now)[i]);
      && (c.timer <==> !IsActive(ts[i]))
      && (IsActive(ts[i]) ==> c.completedOn == Some(now))
  {
  }
}
