/**
 * The task list of the progressive-confidence agent page
 * (app/progressive-confidence-agent-tasks): the task record of data.ts and
 * `handleTaskComplete`, which completes a task and promotes the first
 * pending one, as a pure map over the list.
 */
module AgentTasks {
  import opened Wrappers

  datatype ConfidenceLevel = High | Medium | Low

  datatype TaskStatus = Pending | InProgress | NeedsClarification | Complete

  /** `label` is a Dafny keyword, so the label fields are `caption`. */
  datatype ClarificationOption = ClarificationOption(id: string, caption: string)

  datatype Clarification = Clarification(question: string, options: seq<ClarificationOption>)

  datatype Task = Task(
    id: string,
    caption: string,
    confidence: ConfidenceLevel,
    status: TaskStatus,
    dependsOn: Option<seq<string>>,
    clarification: Option<Clarification>)

  /** `tasks.find(t => t.status === 'pending')`, as a position: the first
      pending task, or none when no task is pending. */
  function FirstPending(tasks: seq<Task>): (r: Option<nat>)
    ensures r.None? <==> forall i :: 0 <= i < |tasks| ==> tasks[i].status != Pending
    ensures r.Some? ==>
      && r.value < |tasks| && tasks[r.value].status == Pending
      && forall j :: 0 <= j < r.value ==> tasks[j].status != Pending
  {
    if |tasks| == 0 then None
    else if tasks[0].status == Pending then Some(0)
    else
      match FirstPending(tasks[1..])
      case None => None
      case Some(k) => Some(k + 1)
  }

  /** `nextTask?.id`: the id of the first pending task, if there is one. */
  function NextId(tasks: seq<Task>): (r: Option<string>)
    ensures r.None? <==> FirstPending(tasks).None?
    ensures r.Some? ==> r.value == tasks[FirstPending(tasks).value].id
  {
    match FirstPending(tasks)
    case None => None
    case Some(p) => Some(tasks[p].id)
  }

  /** What the map does to one task: the completed id wins over the
      promoted one, and the spread keeps every field but the status. */
  function Advance(task: Task, taskId: string, nextId: Option<string>): Task
  {
    if task.id == taskId then task.(status := Complete)
    else if nextId == Some(task.id) then task.(status := InProgress)
    else task
  }

  /** `handleTaskComplete(taskId)` applied to the previous list. */
  function HandleTaskComplete(tasks: seq<Task>, taskId: string): (r: seq<Task>)
    // Same length and order; only the status ever changes.
    ensures |r| == |tasks|
    ensures forall i :: 0 <= i < |r| ==> r[i] == tasks[i].(status := r[i].status)
    // Every task carrying the id is complete.
    ensures forall i :: 0 <= i < |r| && tasks[i].id == taskId ==> r[i].status == Complete
    // The first pending task, when it is not the completed one, is in progress
    // (so is any other task sharing its id).
    ensures forall i :: 0 <= i < |r| && tasks[i].id != taskId && NextId(tasks) == Some(tasks[i].id) ==>
      r[i].status == InProgress
    // Every other task is untouched.
    ensures forall i :: 0 <= i < |r| && tasks[i].id != taskId && NextId(tasks) != Some(tasks[i].id) ==>
      r[i] == tasks[i]
  {
    var nextId := NextId(tasks);
    seq(|tasks|, i requires 0 <= i < |tasks| => Advance(tasks[i], taskId, nextId))
  }

  /** Completing the first pending task promotes nobody: the other tasks
      stay as they were, whatever their status. */
  lemma CompletingFirstPendingPromotesNone(tasks: seq<Task>, taskId: string)
    requires FirstPending(tasks).Some? && tasks[FirstPending(tasks).value].id == taskId
    ensures var r := HandleTaskComplete(tasks, taskId);
      forall i :: 0 <= i < |tasks| && tasks[i].id != taskId ==> r[i] == tasks[i]
  {
  }

  /** An unknown id completes nothing, yet the first pending task is still
      promoted. */
  lemma UnknownIdStillPromotes(tasks: seq<Task>, taskId: string)
    requires forall i :: 0 <= i < |tasks| ==> tasks[i].id != taskId
    requires FirstPending(tasks).Some?
    ensures var r := HandleTaskComplete(tasks, taskId);
      && r[FirstPending(tasks).value].status == InProgress
      && forall i :: 0 <= i < |tasks| ==> r[i].status != Complete || tasks[i].status == Complete
  {
  }

  /** With nothing pending and no task carrying the id, the list comes back
      unchanged. */
  lemma NothingToDo(tasks: seq<Task>, taskId: string)
    requires forall i :: 0 <= i < |tasks| ==> tasks[i].id != taskId && tasks[i].status != Pending
    ensures HandleTaskComplete(tasks, taskId) == tasks
  {
  }

  /** After the call at most one id has been promoted: every task that moved
      to in progress carries the id of the task that was first pending. */
  lemma PromotesOnlyFirstPendingId(tasks: seq<Task>, taskId: string)
    ensures var r := HandleTaskComplete(tasks, taskId);
      forall i :: 0 <= i < |tasks| && r[i].status == InProgress && tasks[i].status != InProgress ==>
        && FirstPending(tasks).Some?
        && tasks[i].id == tasks[FirstPending(tasks).value].id
  {
  }
}
