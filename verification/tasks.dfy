/** The pending-task queue (`powermanager.Task`, `_add_task`).

    A task asks for one power operation on one name. The queue is a list kept
    in arrival order; a task is appended only when no equal task is queued. */
module Tasks {

  /** Operation codes of `powermanager.POWER_ON` and `powermanager.POWER_OFF`. */
  const POWER_ON: int := 1
  const POWER_OFF: int := 0

  /** `operation` is an int because the persisted backlog may hold any code;
      `nname` is a node name for power-on and a VM id for power-off. */
  datatype Task = Task(operation: int, nname: string)

  /** `Task.__cmp__(a, b) == 0`: the comparison the queue uses for membership.
      It coincides with structural equality of tasks. */
  function SameTask(a: Task, b: Task): (r: bool)
    ensures r <==> a == b
  {
    a.nname == b.nname && a.operation == b.operation
  }

  /** `task in self._pending_tasks`, decided with `SameTask`. */
  function Queued(q: seq<Task>, t: Task): (r: bool)
    ensures r <==> t in q
  {
    exists u | u in q :: SameTask(u, t)
  }

  /** No task occurs twice in the queue. */
  predicate NoDuplicates(q: seq<Task>)
  {
    forall i, j | 0 <= i < j < |q| :: q[i] != q[j]
  }

  /** `_add_task`: append `t` unless an equal task is already queued. */
  function AddTask(q: seq<Task>, t: Task): (r: seq<Task>)
    ensures t in r
    ensures forall u :: u in r <==> u in q || u == t
    ensures t in q ==> r == q
    ensures t !in q ==> |r| == |q| + 1 && r[|q|] == t
    ensures |q| <= |r| && r[..|q|] == q
    ensures NoDuplicates(q) ==> NoDuplicates(r)
  {
    if Queued(q, t) then q else q + [t]
  }

  /** Re-adding a task leaves the queue unchanged. */
  lemma AddTaskIdempotent(q: seq<Task>, t: Task)
    ensures AddTask(AddTask(q, t), t) == AddTask(q, t)
  {
  }
}
