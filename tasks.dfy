/**
 * The task record that every part of the tracker reads and that the
 * application keeps in one ordered list.
 */
module Tasks {
  import opened Wrappers

  /** Milliseconds in one day (`1000 * 60 * 60 * 24`). */
  const MS_PER_DAY: int := 1000 * 60 * 60 * 24

  /** The two status strings the application writes. */
  const ACTIVE: string := "active"
  const COMPLETED: string := "completed"

  /**
   * One task or project. Instants (`createdAt`, `completedAt`) are integer
   * milliseconds since the epoch; `dueDate` is the date text the user
   * entered, kept verbatim; `status` is the stored string, which is
   * "active" or "completed" for every task the application itself creates.
   */
  datatype Task = Task(
    id: int,
    name: string,
    description: string,
    expectedDays: int,
    daysSpent: int,
    dueDate: Option<string>,
    status: string,
    createdAt: int,
    completedAt: Option<int>)

  predicate IsActive(t: Task) { t.status == ACTIVE }

  predicate IsCompleted(t: Task) { t.status == COMPLETED }

  /** A due date is present when the stored value is a non-empty string (JavaScript truthiness). */
  predicate HasDueDate(t: Task) { t.dueDate.Some? && t.dueDate.value != "" }

  /** Every status in the list is one the application writes. */
  predicate KnownStatuses(ts: seq<Task>)
  {
    forall i :: 0 <= i < |ts| ==> IsActive(ts[i]) || IsCompleted(ts[i])
  }

  /** Number of tasks in `ts` carrying identifier `id`. */
  function CountId(ts: seq<Task>, id: int): (n: nat)
    ensures n <= |ts|
    ensures n == 0 <==> forall i :: 0 <= i < |ts| ==> ts[i].id != id
  {
    if ts == [] then 0 else (if ts[0].id == id then 1 else 0) + CountId(ts[1..], id)
  }
}
