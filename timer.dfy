/**
 * The timer shown inside an active task: a counter of days spent that
 * advances by itself once per calendar day, up to the whole days elapsed
 * since the task was created, and that the user can nudge by hand.
 *
 * Instants are integer milliseconds; `today` is the number of the current
 * calendar day. The hourly re-check is left to the caller, who invokes
 * `CheckDayCompletion` with the current instant.
 */
module Timer {
  import opened Wrappers
  import opened Numbers
  import opened Tasks

  /** The two state variables of the timer. `lastUpdated` is the day of the last change, if any. */
  datatype State = State(daysSpent: int, lastUpdated: Option<int>)

  /** The state when the timer appears: the task's stored days, never updated. */
  function Mounted(t: Task): (s: State)
    ensures s.daysSpent == t.daysSpent && s.lastUpdated.None?
  {
    State(t.daysSpent, None)
  }

  /** Whole days from `createdAt` to `now`, rounded down (negative when `createdAt` is later). */
  function DaysSinceCreation(createdAt: int, now: int): (r: int)
    ensures MS_PER_DAY * r <= now - createdAt < MS_PER_DAY * (r + 1)
    ensures r < 0 <==> now < createdAt
  {
    FloorDiv(now - createdAt, MS_PER_DAY)
  }

  /** When the automatic check changes the state: not yet updated today, and behind the calendar. */
  predicate Fires(s: State, createdAt: int, now: int, today: int)
  {
    s.lastUpdated != Some(today) && DaysSinceCreation(createdAt, now) > s.daysSpent
  }

  /**
   * `checkDayCompletion`: when it fires, the counter jumps to the whole days
   * since creation and is marked as updated today; otherwise nothing changes.
   */
  function CheckDay(s: State, createdAt: int, now: int, today: int): (r: State)
    ensures r != s <==> Fires(s, createdAt, now, today)
    ensures r != s ==> r.daysSpent == DaysSinceCreation(createdAt, now) && r.lastUpdated == Some(today)
    ensures r.daysSpent >= s.daysSpent
    ensures r.daysSpent <= s.daysSpent || r.daysSpent <= DaysSinceCreation(createdAt, now)
  {
    if s.lastUpdated != Some(today) then
      var daysSinceCreation := DaysSinceCreation(createdAt, now);
      if daysSinceCreation > s.daysSpent then State(daysSinceCreation, Some(today)) else s
    else s
  }

  /** `manuallyAddDay`: one more day, marked as updated today. */
  function AddDay(s: State, today: int): (r: State)
    ensures r.daysSpent == s.daysSpent + 1 && r.lastUpdated == Some(today)
  {
    State(s.daysSpent + 1, Some(today))
  }

  /** `manuallyRemoveDay`: one day fewer, marked as updated today; nothing happens at 0 or below. */
  function RemoveDay(s: State, today: int): (r: State)
    ensures s.daysSpent > 0 ==> r.daysSpent == s.daysSpent - 1 && r.lastUpdated == Some(today)
    ensures s.daysSpent <= 0 ==> r == s
    ensures s.daysSpent >= 0 ==> r.daysSpent >= 0
  {
    if s.daysSpent > 0 then State(s.daysSpent - 1, Some(today)) else s
  }

  /** One run of the automatic check: the current instant and the current day. */
  datatype Tick = Tick(now: int, today: int)

  /** The state after the automatic check has run at each tick in turn. */
  function RunChecks(s: State, createdAt: int, ticks: seq<Tick>): State
    decreases |ticks|
  {
    if ticks == [] then s
    else RunChecks(CheckDay(s, createdAt, ticks[0].now, ticks[0].today), createdAt, ticks[1..])
  }

  predicate Chronological(ticks: seq<Tick>)
  {
    forall i, j :: 0 <= i < j < |ticks| ==> ticks[i].now <= ticks[j].now
  }

  /** Whole days since creation never go down as time goes on. */
  lemma DaysSinceCreationMonotone(createdAt: int, now1: int, now2: int)
    requires now1 <= now2
    ensures DaysSinceCreation(createdAt, now1) <= DaysSinceCreation(createdAt, now2)
  {
  }

  /**
   * However many times the automatic check runs, in chronological order, it
   * never lowers the counter and never takes it past the whole days elapsed
   * at the last run (unless it was already further on).
   */
  lemma {:induction false} RunChecksBounds(s: State, createdAt: int, ticks: seq<Tick>)
    requires |ticks| > 0 && Chronological(ticks)
    decreases |ticks|
    ensures var r := RunChecks(s, createdAt, ticks);
      && s.daysSpent <= r.daysSpent
      && (r.daysSpent <= s.daysSpent || r.daysSpent <= DaysSinceCreation(createdAt, ticks[|ticks| - 1].now))
  {
    var s1 := CheckDay(s, createdAt, ticks[0].now, ticks[0].today);
    var last := ticks[|ticks| - 1].now;
    DaysSinceCreationMonotone(createdAt, ticks[0].now, last);
    if |ticks| > 1 {
      var rest := ticks[1..];
      assert Chronological(rest) by {
        forall i, j | 0 <= i < j < |rest| ensures rest[i].now <= rest[j].now {
          assert rest[i] == ticks[i + 1] && rest[j] == ticks[j + 1];
        }
      }
      assert rest[|rest| - 1] == ticks[|ticks| - 1];
      RunChecksBounds(s1, createdAt, rest);
    } else {
      assert ticks[1..] == [];
    }
  }

  /** Once the check has fired, running it again on the same day changes nothing. */
  lemma CheckDayOncePerDay(s: State, createdAt: int, now1: int, now2: int, today: int)
    requires Fires(s, createdAt, now1, today)
    ensures var r := CheckDay(s, createdAt, now1, today);
      CheckDay(r, createdAt, now2, today) == r
  {
  }

  /** A creation instant in the future never moves a non-negative counter. */
  lemma FutureCreationChangesNothing(s: State, createdAt: int, now: int, today: int)
    requires s.daysSpent >= 0 && now < createdAt
    ensures CheckDay(s, createdAt, now, today) == s
  {
  }

  /** Both manual controls keep the counter non-negative. */
  lemma ManualControlsKeepNonNegative(s: State, today: int)
    requires s.daysSpent >= 0
    ensures AddDay(s, today).daysSpent >= 0 && RemoveDay(s, today).daysSpent >= 0
  {
  }

  /** Adding a day and removing it again restores the count. */
  lemma AddThenRemove(s: State, today: int)
    requires s.daysSpent >= 0
    ensures RemoveDay(AddDay(s, today), today) == State(s.daysSpent, Some(today))
  {
  }

  /** The six messages of `getProgressMessage`, from the least progress to the most. */
  datatype Message = JustStarted | GettingStarted | MakingProgress | HalfwayThere | AlmostDone | TargetReached

  /** The threshold chain applied to a finite progress percentage. */
  function MessageFor(progress: real): Message
  {
    if progress == 0.0 then JustStarted
    else if progress < 25.0 then GettingStarted
    else if progress < 50.0 then MakingProgress
    else if progress < 75.0 then HalfwayThere
    else if progress < 100.0 then AlmostDone
    else TargetReached
  }

  /**
   * `getProgressMessage` for progress `daysSpent / expectedDays * 100`.
   * With `expectedDays == 0` the quotient is infinite or not a number: a
   * negative count (minus infinity) reads "Getting started", every other
   * count fails every comparison and reads "Time target reached!". With a
   * positive target each message covers a quarter of it.
   */
  function ProgressMessage(daysSpent: int, expectedDays: int): (r: Message)
    ensures expectedDays == 0 ==> r == (if daysSpent < 0 then GettingStarted else TargetReached)
    ensures expectedDays != 0 ==> (r == JustStarted <==> daysSpent == 0)
    ensures expectedDays > 0 ==>
      && (r == GettingStarted <==> daysSpent != 0 && 4 * daysSpent < expectedDays)
      && (r == MakingProgress <==> expectedDays <= 4 * daysSpent < 2 * expectedDays)
      && (r == HalfwayThere <==> 2 * expectedDays <= 4 * daysSpent < 3 * expectedDays)
      && (r == AlmostDone <==> 3 * expectedDays <= 4 * daysSpent < 4 * expectedDays)
      && (r == TargetReached <==> daysSpent >= expectedDays)
  {
    if expectedDays == 0 then
      if daysSpent < 0 then GettingStarted else TargetReached
    else
      var d, e := daysSpent as real, expectedDays as real;
      var progress := d / e * 100.0;
      if expectedDays > 0 then
        PercentCompare(d, e, 25.0);
        PercentCompare(d, e, 50.0);
        PercentCompare(d, e, 75.0);
        PercentCompare(d, e, 100.0);
        MessageFor(progress)
      else
        assert d / e * 100.0 == 0.0 <==> d == 0.0 by {
          PercentCompare(-d, -e, 0.0);
          assert -d / -e == d / e;
        }
        MessageFor(progress)
  }

  /**
   * The timer of one task. `taskId`, `createdAt` and `expectedDays` come from
   * the task it was mounted for; `daysSpent` and `lastUpdated` change.
   * Every change is also reported to the task list through the returned
   * value, which is the value the component passes to `onTimeUpdate`.
   */
  class DayCounter {
    const taskId: int
    const createdAt: int
    const expectedDays: int
    var daysSpent: int
    var lastUpdated: Option<int>

    function Current(): State
      reads this
    {
      State(daysSpent, lastUpdated)
    }

    constructor (task: Task)
      ensures taskId == task.id && createdAt == task.createdAt && expectedDays == task.expectedDays
      ensures Current() == Mounted(task)
    {
      taskId := task.id;
      createdAt := task.createdAt;
      expectedDays := task.expectedDays;
      daysSpent := task.daysSpent;
      lastUpdated := None;
    }

    /** `checkDayCompletion`, run at instant `now` on day `today`. */
    method CheckDayCompletion(now: int, today: int) returns (update: Option<int>)
      modifies this
      ensures Current() == CheckDay(old(Current()), createdAt, now, today)
      ensures update == if Fires(old(Current()), createdAt, now, today) then Some(daysSpent) else None
    {
      update := None;
      if lastUpdated != Some(today) {
        var daysSinceCreation := FloorDiv(now - createdAt, MS_PER_DAY);
        if daysSinceCreation > daysSpent {
          daysSpent := daysSinceCreation;
          update := Some(daysSpent);
          lastUpdated := Some(today);
        }
      }
    }

    /** `manuallyAddDay`; the new count is always reported. */
    method ManuallyAddDay(today: int) returns (update: int)
      modifies this
      ensures Current() == AddDay(old(Current()), today)
      ensures update == daysSpent
    {
      daysSpent := daysSpent + 1;
      update := daysSpent;
      lastUpdated := Some(today);
    }

    /** `manuallyRemoveDay`; a count is reported only when it changed. */
    method ManuallyRemoveDay(today: int) returns (update: Option<int>)
      modifies this
      ensures Current() == RemoveDay(old(Current()), today)
      ensures update == if old(daysSpent) > 0 then Some(daysSpent) else None
    {
      update := None;
      if daysSpent > 0 {
        daysSpent := daysSpent - 1;
        update := Some(daysSpent);
        lastUpdated := Some(today);
      }
    }

    /** The message shown under the count. */
    function CurrentMessage(): Message
      reads this
    {
      ProgressMessage(daysSpent, expectedDays)
    }
  }
}
