/**
 * The form that creates tasks: four fields of state, a submit handler that
 * refuses a blank name, builds the new task record and resets the fields.
 */
module TaskForm {
  import opened Wrappers
  import opened Tasks
  import opened App
  import opened Statistics
  import Timer
  import TaskItem

  /** The characters `String.prototype.trim` removes: white space and line terminators. */
  predicate IsTrimmed(c: char)
  {
    || c == '\t' || c == '\n' || c == '\U{000B}' || c == '\U{000C}' || c == '\r'
    || c == ' ' || c == '\U{00A0}' || c == '\U{1680}' || ('\U{2000}' <= c <= '\U{200A}')
    || c == '\U{2028}' || c == '\U{2029}' || c == '\U{202F}' || c == '\U{205F}' || c == '\U{3000}'
    || c == '\U{FEFF}'
  }

  /** Drops the leading trimmable characters. */
  function TrimStart(s: string): (r: string)
    ensures |r| <= |s| && r == s[|s| - |r|..]
    ensures forall i :: 0 <= i < |s| - |r| ==> IsTrimmed(s[i])
    ensures r != [] ==> !IsTrimmed(r[0])
  {
    if s != [] && IsTrimmed(s[0]) then TrimStart(s[1..]) else s
  }

  /** Drops the trailing trimmable characters. */
  function TrimEnd(s: string): (r: string)
    ensures |r| <= |s| && r == s[..|r|]
    ensures forall i :: |r| <= i < |s| ==> IsTrimmed(s[i])
    ensures r != [] ==> !IsTrimmed(r[|r| - 1])
  {
    if s != [] && IsTrimmed(s[|s| - 1]) then TrimEnd(s[..|s| - 1]) else s
  }

  /** `trim()`: the text between the leading and the trailing white space. */
  function Trim(s: string): (r: string)
    ensures r == [] <==> forall i :: 0 <= i < |s| ==> IsTrimmed(s[i])
    ensures r != [] ==> !IsTrimmed(r[0]) && !IsTrimmed(r[|r| - 1])
  {
    var head := TrimStart(s);
    assert forall i :: |s| - |head| <= i < |s| ==> s[i] == head[i - (|s| - |head|)];
    TrimEnd(head)
  }

  /** The guard of `handleSubmit`: the name is not blank once trimmed. */
  predicate HasName(name: string)
  {
    Trim(name) != ""
  }

  /** The values the expected-duration selector offers: 1 and 3 days, 1 and 2 weeks, 1, 2, 3 and 6 months. */
  predicate IsExpectedDaysOption(v: int)
  {
    v == 1 || v == 3 || v == 7 || v == 14 || v == 30 || v == 60 || v == 90 || v == 180
  }

  /** The selector's initial and reset value (one week). */
  const DEFAULT_EXPECTED_DAYS: int := 7

  /**
   * The record `handleSubmit` hands to the task list: the fields as typed
   * (the name untrimmed), no days spent, active, created `now`, never
   * completed, and no due date when the date field is empty.
   */
  function NewTask(name: string, description: string, expectedDays: int, dueDate: string, id: int, now: int): (t: Task)
    ensures t.id == id && t.name == name && t.description == description
    ensures t.expectedDays == expectedDays && t.createdAt == now
    ensures t.daysSpent == 0 && IsActive(t) && t.completedAt.None?
    ensures t.dueDate.None? <==> dueDate == ""
    ensures t.dueDate.Some? ==> t.dueDate.value == dueDate && HasDueDate(t)
  {
    Task(id, name, description, expectedDays, 0, if dueDate == "" then None else Some(dueDate),
         ACTIVE, now, None)
  }

  /** A submitted task joins the active tasks and leaves every completed-task figure as it was. */
  lemma SubmittedTaskJoinsActive(ts: seq<Task>, name: string, description: string, expectedDays: int,
                                 dueDate: string, id: int, now: int)
    ensures var t := NewTask(name, description, expectedDays, dueDate, id, now);
      var r := AddTask(ts, t);
      && Active(r) == Active(ts) + [t]
      && Completed(r) == Completed(ts)
      && TimeSaved(r) == TimeSaved(ts)
      && TotalDaysSpent(r) == TotalDaysSpent(ts)
      && LongestActiveTask(r).Some?
      && TaskItem.ControlsOf(t).timer
      && Timer.Mounted(t) == Timer.State(0, None)
  {
    var t := NewTask(name, description, expectedDays, dueDate, id, now);
    AddTaskPartitions(ts, t);
    AddTaskTotals(ts, t);
  }

  /** The form's state: the four input fields. */
  class Form {
    var taskName: string
    var description: string
    var expectedDays: int
    var dueDate: string

    /** The selector only ever holds one of its options. */
    ghost predicate Valid()
      reads this
    {
      IsExpectedDaysOption(expectedDays)
    }

    /** The fields as they are at first and after every successful submission. */
    predicate IsBlank()
      reads this
    {
      taskName == "" && description == "" && expectedDays == DEFAULT_EXPECTED_DAYS && dueDate == ""
    }

    constructor ()
      ensures Valid() && IsBlank()
    {
      taskName := "";
      description := "";
      expectedDays := DEFAULT_EXPECTED_DAYS;
      dueDate := "";
    }

    method EditName(value: string)
      requires Valid()
      modifies this`taskName
      ensures Valid() && taskName == value
    {
      taskName := value;
    }

    method EditDescription(value: string)
      requires Valid()
      modifies this`description
      ensures Valid() && description == value
    {
      description := value;
    }

    method SelectExpectedDays(value: int)
      requires IsExpectedDaysOption(value)
      modifies this`expectedDays
      ensures Valid() && expectedDays == value
    {
      expectedDays := value;
    }

    method EditDueDate(value: string)
      requires Valid()
      modifies this`dueDate
      ensures Valid() && dueDate == value
    {
      dueDate := value;
    }

    /**
     * `handleSubmit`, at instant `now` with the identifier `id` the clock
     * supplies: a blank name adds nothing and changes nothing; otherwise the
     * new task is returned for the task list and the fields are reset.
     */
    method Submit(id: int, now: int) returns (added: Option<Task>)
      requires Valid()
      modifies this
      ensures Valid()
      ensures !HasName(old(taskName)) ==> added.None? && unchanged(this)
      ensures HasName(old(taskName)) ==>
                && added == Some(NewTask(old(taskName), old(description), old(expectedDays), old(dueDate), id, now))
                && IsBlank()
      ensures added.Some? ==> added.value.expectedDays >= 1
    {
      if !HasName(taskName) {
        return None;
      }
      added := Some(NewTask(taskName, description, expectedDays, dueDate, id, now));
      taskName := "";
      description := "";
      expectedDays := DEFAULT_EXPECTED_DAYS;
      dueDate := "";
    }
  }
}
