/** The task record shared by the page and the remote store (lib/types.ts). */
module Types {

  /** `focus_time` is a JavaScript number; the model keeps it an integer count of seconds. */
  datatype Task = Task(id: string, text: string, completed: bool, focusTime: int)
}
