/**
 * The task list (components/TaskList.tsx): an input buffer `taskInput` and
 * the list of tasks in the order they were added, mirrored under the key
 * "tasks" of the browser's key/value store.
 */
module TaskListComponent {
  import opened Text

  /** The component's own task record: a numeric id taken from the clock. */
  datatype Task = Task(id: int, text: string, completed: bool)

  const TasksKey := "tasks"

  /** What the mount effect reads: the stored list, or the empty list when the key is absent. */
  function StoredTasks(storage: map<string, seq<Task>>): (r: seq<Task>)
    ensures TasksKey !in storage ==> r == []
    ensures TasksKey in storage ==> r == storage[TasksKey]
  {
    if TasksKey in storage then storage[TasksKey] else []
  }

  /** What a save writes is what the next mount reads, whatever else the store holds. */
  lemma StoredTasksAfterWrite(storage: map<string, seq<Task>>, list: seq<Task>)
    ensures StoredTasks(storage[TasksKey := list]) == list
  {
  }

  /** Writes under other keys are invisible to this component. */
  lemma StoredTasksIgnoresOtherKeys(storage: map<string, seq<Task>>, key: string, list: seq<Task>)
    requires key != TasksKey
    ensures StoredTasks(storage[key := list]) == StoredTasks(storage)
  {
  }

  /**
   * The mounted component. `storage` is the browser store, holding each list
   * itself rather than its JSON text.
   */
  class TaskList {
    var taskInput: string
    var tasks: seq<Task>
    var storage: map<string, seq<Task>>

    /** Reloading the page would show the same list. */
    ghost predicate Persisted()
      reads this
    {
      StoredTasks(storage) == tasks
    }

    /** `useState("")` and `useState([])`, over whatever the store already holds. */
    constructor (storage: map<string, seq<Task>>)
      ensures this.storage == storage && taskInput == [] && tasks == []
    {
      this.storage := storage;
      taskInput, tasks := [], [];
    }

    /** The mount effect: load the saved list, or start empty when there is none. */
    method Load()
      modifies this`tasks
      ensures TasksKey in storage ==> tasks == storage[TasksKey]
      ensures TasksKey !in storage ==> tasks == []
      ensures Persisted()
    {
      tasks := if TasksKey in storage then storage[TasksKey] else [];
    }

    /** The input's change handler. */
    method Edit(value: string)
      modifies this`taskInput
      ensures taskInput == value
    {
      taskInput := value;
    }

    /**
     * `addTask`: a blank input adds nothing; otherwise a task with the
     * untrimmed text, not completed, whose id is the clock reading, goes at
     * the end, the store gets the new list under "tasks" and nothing else,
     * and the input is cleared.
     */
    method AddTask(now: int)
      modifies this
      ensures Trim(old(taskInput)) == [] ==>
                tasks == old(tasks) && taskInput == old(taskInput) && storage == old(storage)
      ensures Trim(old(taskInput)) != [] ==>
                && |tasks| == |old(tasks)| + 1
                && tasks[..|old(tasks)|] == old(tasks)
                && tasks[|old(tasks)|] == Task(now, old(taskInput), false)
                && storage == old(storage)[TasksKey := tasks]
                && taskInput == []
      ensures Trim(old(taskInput)) != [] ==> Persisted()
      ensures old(Persisted()) ==> Persisted()
    {
      if Trim(taskInput) == [] {
        return;
      }
      var newTask := Task(now, taskInput, false);
      var updatedTasks := tasks + [newTask];
      tasks := updatedTasks;
      storage := storage[TasksKey := updatedTasks];
      taskInput := [];
    }
  }
}
