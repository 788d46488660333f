/**
 * The four list handlers of the application component. Each builds a new
 * task list from the old one (the component hands the result to its state
 * setter); none mutates a task in place.
 */
module App {
  import opened Wrappers
  import opened Tasks

  /** `handleAddTask`: the old list followed by the new task. */
  function AddTask(ts: seq<Task>, t: Task): (r: seq<Task>)
    ensures |r| == |ts| + 1
    ensures r[..|ts|] == ts && r[|ts|] == t
  {
    ts + [t]
  }

  /** The record `{ ...task, daysSpent }`. */
  function WithDays(t: Task, days: int): Task
  {
    t.(daysSpent := days)
  }

  /**
   * `handleTimeUpdate`: every task carrying `id` gets `daysSpent := days`;
   * nothing else in the list changes.
   */
  function TimeUpdate(ts: seq<Task>, id: int, days: int): (r: seq<Task>)
    ensures |r| == |ts|
    ensures forall i :: 0 <= i < |ts| && ts[i].id != id ==> r[i] == ts[i]
    ensures forall i :: 0 <= i < |ts| && ts[i].id == id ==>
              r[i].daysSpent == days && r[i].(daysSpent := ts[i].daysSpent) == ts[i]
  {
    seq(|ts|, i requires 0 <= i < |ts| => if ts[i].id == id then WithDays(ts[i], days) else ts[i])
  }

  /**
   * The record the completion handler builds for a matching task: "active"
   * becomes "completed" stamped with `now`; any other status becomes
   * "active" with the stamp cleared.
   */
  function Toggled(t: Task, now: int): Task
  {
    if t.status == ACTIVE then t.(status := COMPLETED, completedAt := Some(now))
    else t.(status := ACTIVE, completedAt := None)
  }

  /**
   * `handleCompleteTask`: flips the status of every task carrying `id`,
   * stamping or clearing `completedAt`; nothing else in the list changes.
   */
  function CompleteTask(ts: seq<Task>, id: int, now: int): (r: seq<Task>)
    ensures |r| == |ts|
    ensures forall i :: 0 <= i < |ts| && ts[i].id != id ==> r[i] == ts[i]
    ensures forall i :: 0 <= i < |ts| && ts[i].id == id && IsActive(ts[i]) ==>
              IsCompleted(r[i]) && r[i].completedAt == Some(now)
    ensures forall i :: 0 <= i < |ts| && ts[i].id == id && !IsActive(ts[i]) ==>
              IsActive(r[i]) && r[i].completedAt == None
    ensures forall i :: 0 <= i < |ts| ==>
              r[i].(status := ts[i].status, completedAt := ts[i].completedAt) == ts[i]
  {
    seq(|ts|, i requires 0 <= i < |ts| => if ts[i].id == id then Toggled(ts[i], now) else ts[i])
  }

  /** `handleDeleteTask`: keeps, in order, exactly the tasks whose id differs from `id`. */
  function DeleteTask(ts: seq<Task>, id: int): (r: seq<Task>)
    ensures |r| == |ts| - CountId(ts, id)
    ensures forall t :: t in r ==> t in ts && t.id != id
    ensures forall t :: t in ts && t.id != id ==> t in r
  {
    if ts == [] then []
    else if ts[0].id == id then DeleteTask(ts[1..], id)
    else [ts[0]] + DeleteTask(ts[1..], id)
  }

  /** Updating the days of an id that no task carries leaves the list as it was. */
  lemma TimeUpdateMissingId(ts: seq<Task>, id: int, days: int)
    requires CountId(ts, id) == 0
    ensures TimeUpdate(ts, id, days) == ts
  {
  }

  /** Toggling an id that no task carries leaves the list as it was. */
  lemma CompleteTaskMissingId(ts: seq<Task>, id: int, now: int)
    requires CountId(ts, id) == 0
    ensures CompleteTask(ts, id, now) == ts
  {
  }

  /**
   * Toggling twice is a flip, not a set: a task that was "active" is active
   * again with no completion stamp, one that was "completed" is completed
   * again stamped with the second instant, and all other fields are as before.
   */
  lemma CompleteTaskTwice(ts: seq<Task>, id: int, now1: int, now2: int)
    requires KnownStatuses(ts)
    ensures var r := CompleteTask(CompleteTask(ts, id, now1), id, now2);
      && |r| == |ts|
      && forall i :: 0 <= i < |ts| ==>
           && r[i].status == ts[i].status
           && r[i].completedAt ==
                (if ts[i].id != id then ts[i].completedAt
                 else if IsActive(ts[i]) then None
                 else Some(now2))
           && r[i].(completedAt := ts[i].completedAt) == ts[i]
  {
  }

  /** Deleting an id that no task carries leaves the list as it was. */
  lemma {:induction false} DeleteMissingId(ts: seq<Task>, id: int)
    requires CountId(ts, id) == 0
    ensures DeleteTask(ts, id) == ts
  {
    if ts != [] {
      DeleteMissingId(ts[1..], id);
    }
  }

  /** Deletion keeps order: it distributes over concatenation. */
  lemma {:induction false} DeleteAppend(a: seq<Task>, b: seq<Task>, id: int)
    ensures DeleteTask(a + b, id) == DeleteTask(a, id) + DeleteTask(b, id)
  {
    if a == [] {
      assert a + b == b;
    } else {
      assert (a + b)[0] == a[0];
      assert (a + b)[1..] == a[1..] + b;
      DeleteAppend(a[1..], b, id);
      if a[0].id == id {
        calc {
          DeleteTask(a + b, id);
          DeleteTask(a[1..] + b, id);
          DeleteTask(a[1..], id) + DeleteTask(b, id);
        }
      } else {
        calc {
          DeleteTask(a + b, id);
          [a[0]] + DeleteTask(a[1..] + b, id);
          [a[0]] + (DeleteTask(a[1..], id) + DeleteTask(b, id));
          ([a[0]] + DeleteTask(a[1..], id)) + DeleteTask(b, id);
        }
      }
    }
  }

  /** Deleting the same id twice is the same as deleting it once. */
  lemma {:induction false} DeleteIdempotent(ts: seq<Task>, id: int)
    ensures DeleteTask(DeleteTask(ts, id), id) == DeleteTask(ts, id)
  {
    var r := DeleteTask(ts, id);
    assert CountId(r, id) == 0;
    DeleteMissingId(r, id);
  }

  /** One call of `handleTimeUpdate`: the task id and the new count. */
  datatype DaysUpdate = DaysUpdate(id: int, days: int)

  /**
   * Several `handleTimeUpdate` calls issued from one render, as the
   * application runs them: each maps the list `ts` captured by that render
   * and replaces the whole state, so only the last call's list survives.
   */
  function UpdatesFromOneRender(ts: seq<Task>, us: seq<DaysUpdate>): seq<Task>
  {
    if us == [] then ts else TimeUpdate(ts, us[|us| - 1].id, us[|us| - 1].days)
  }

  /**
   * Two timers behind the calendar at load both report: the first report
   * is lost, and the first task keeps its stored count.
   */
  lemma {:induction false} FirstOfTwoUpdatesLost(a: Task, b: Task, x: int, y: int)
    requires a.id != b.id && a.daysSpent != x
    ensures var r := UpdatesFromOneRender([a, b], [DaysUpdate(a.id, x), DaysUpdate(b.id, y)]);
      r[0] == a && r[0].daysSpent != x && r[1].daysSpent == y
  {
    var r := UpdatesFromOneRender([a, b], [DaysUpdate(a.id, x), DaysUpdate(b.id, y)]);
    assert r == TimeUpdate([a, b], b.id, y);
    assert [a, b][0] == a && [a, b][1] == b;
  }

  /**
   * The same calls applied in turn, each to the list the previous one
   * produced (a functional state update): the model's reading of
   * `handleTimeUpdate`.
   */
  function UpdatesInTurn(ts: seq<Task>, us: seq<DaysUpdate>): (r: seq<Task>)
    ensures |r| == |ts|
    ensures forall i :: 0 <= i < |ts| ==> r[i].(daysSpent := ts[i].daysSpent) == ts[i]
  {
    if us == [] then ts
    else TimeUpdate(UpdatesInTurn(ts, us[..|us| - 1]), us[|us| - 1].id, us[|us| - 1].days)
  }

  /**
   * Applied in turn, every update lands: a task carrying the id of call `k`
   * ends with that call's count unless a later call names the same id.
   */
  lemma {:induction false} UpdatesInTurnAllLand(ts: seq<Task>, us: seq<DaysUpdate>, i: nat, k: nat)
    requires i < |ts| && k < |us| && ts[i].id == us[k].id
    requires forall j :: k < j < |us| ==> us[j].id != us[k].id
    ensures UpdatesInTurn(ts, us)[i].daysSpent == us[k].days
  {
    var init := us[..|us| - 1];
    var prev := UpdatesInTurn(ts, init);
    assert prev[i].id == ts[i].id;
    if k < |us| - 1 {
      assert init[k] == us[k];
      forall j | k < j < |init| ensures init[j].id != init[k].id {
        assert init[j] == us[j];
      }
      UpdatesInTurnAllLand(ts, init, i, k);
    }
  }

  /** In turn, the two reports of `FirstOfTwoUpdatesLost` both reach the list. */
  lemma TwoUpdatesInTurnBothLand(a: Task, b: Task, x: int, y: int)
    requires a.id != b.id
    ensures var r := UpdatesInTurn([a, b], [DaysUpdate(a.id, x), DaysUpdate(b.id, y)]);
      r[0].daysSpent == x && r[1].daysSpent == y
  {
    var us := [DaysUpdate(a.id, x), DaysUpdate(b.id, y)];
    UpdatesInTurnAllLand([a, b], us, 0, 0);
    UpdatesInTurnAllLand([a, b], us, 1, 1);
  }
}
