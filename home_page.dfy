/**
 * The page (app/page.tsx): it holds the selected task and its own copy of
 * the task list, in the shape of lib/types.ts, and updates a task's focus
 * time by id.
 */
module HomePage {
  import opened Wrappers
  import opened Types

  /**
   * The list `updateTaskFocusTime` computes: same length and order, every
   * task with the id gets the new focus time and keeps its other fields, and
   * every other task is left exactly as it was.
   */
  function WithFocusTime(tasks: seq<Task>, taskId: string, newFocusTime: int): (r: seq<Task>)
    ensures |r| == |tasks|
    ensures forall i :: 0 <= i < |r| ==>
              r[i].id == tasks[i].id && r[i].text == tasks[i].text && r[i].completed == tasks[i].completed
    ensures forall i :: 0 <= i < |r| && tasks[i].id == taskId ==> r[i].focusTime == newFocusTime
    ensures forall i :: 0 <= i < |r| && tasks[i].id != taskId ==> r[i] == tasks[i]
  {
    if tasks == [] then []
    else
      var head := if tasks[0].id == taskId then tasks[0].(focusTime := newFocusTime) else tasks[0];
      [head] + WithFocusTime(tasks[1..], taskId, newFocusTime)
  }

  /** Of two updates of the same task the later one wins; in particular an update repeated changes nothing more. */
  lemma LaterUpdateWins(tasks: seq<Task>, taskId: string, first: int, second: int)
    ensures WithFocusTime(WithFocusTime(tasks, taskId, first), taskId, second) == WithFocusTime(tasks, taskId, second)
  {
  }

  /** Updating twice with the same arguments is updating once. */
  lemma UpdateIdempotent(tasks: seq<Task>, taskId: string, newFocusTime: int)
    ensures WithFocusTime(WithFocusTime(tasks, taskId, newFocusTime), taskId, newFocusTime)
         == WithFocusTime(tasks, taskId, newFocusTime)
  {
    LaterUpdateWins(tasks, taskId, newFocusTime, newFocusTime);
  }

  /** An id no task has leaves the list as it was. */
  lemma UnknownIdChangesNothing(tasks: seq<Task>, taskId: string, newFocusTime: int)
    requires forall i :: 0 <= i < |tasks| ==> tasks[i].id != taskId
    ensures WithFocusTime(tasks, taskId, newFocusTime) == tasks
  {
  }

  /** Updates of two different tasks can be done in either order. */
  lemma UpdatesOfDifferentTasksCommute(tasks: seq<Task>, a: string, x: int, b: string, y: int)
    requires a != b
    ensures WithFocusTime(WithFocusTime(tasks, a, x), b, y) == WithFocusTime(WithFocusTime(tasks, b, y), a, x)
  {
  }

  /** The page component's state. */
  class Home {
    var selectedTask: Option<Task>
    var tasks: seq<Task>

    /** `useState(null)` and `useState([])`. */
    constructor ()
      ensures selectedTask == None && tasks == []
    {
      selectedTask, tasks := None, [];
    }

    /** `onTaskSelect={setSelectedTask}`: the clicked task becomes the selected one. */
    method SelectTask(task: Task)
      modifies this`selectedTask
      ensures selectedTask == Some(task)
    {
      selectedTask := Some(task);
    }

    /** `updateTaskFocusTime`: only the tasks with the id change, and only in their focus time. */
    method UpdateTaskFocusTime(taskId: string, newFocusTime: int)
      modifies this`tasks
      ensures tasks == WithFocusTime(old(tasks), taskId, newFocusTime)
    {
      tasks := WithFocusTime(tasks, taskId, newFocusTime);
    }

    /** `onTaskAdd`: the new task goes at the end, after the old list unchanged. */
    method OnTaskAdd(task: Task)
      modifies this`tasks
      ensures |tasks| == |old(tasks)| + 1 && tasks[..|old(tasks)|] == old(tasks) && tasks[|old(tasks)|] == task
    {
      tasks := tasks + [task];
    }
  }
}
