# Pomodoro productivity app: a verified model of its state logic

The app is one page with three parts: a 25-minute Pomodoro countdown, a task
list and a newest-first log of markdown notes. The task list and the notes
are kept in the browser's key/value store. This project models the stateful
logic behind those parts in Dafny and proves what each operation does:

- `pomodoro_timer.dfy` covers `components/PomodoroTimer.tsx`. The timer's two
  fields, `timeRemaining` and `isRunning`, live in a class whose Start, Pause,
  Reset and Tick methods are each proved equal to a pure transition on a
  `TimerState` value. An `Event` sequence and its fold `Run` carry the lemmas
  about any mix of button presses and interval firings. `formatTime` is built
  the way the source builds it: `String(n)` becomes `DecimalString`,
  `padStart(2, "0")` becomes `PadStart`, and the two are joined by a colon.
  `ParseDecimal` is the read-back partner of `DecimalString`.
- `notes.dfy` covers `components/Notes.tsx` and `task_list.dfy` covers
  `components/TaskList.tsx`. Each component is a class with its editor or
  input buffer, its list and the store. The store is a `map` from keys to
  lists. `Persisted()` says that reloading would read back the list on screen.
- `home_page.dfy` covers `app/page.tsx`. `WithFocusTime` is the `map` that
  `updateTaskFocusTime` computes, with lemmas about it, and the `Home` class
  applies it to the page's task list. The record comes from `lib/types.ts`
  (`types.dfy`).
- `text.dfy` models JavaScript's `trim` over the ECMAScript WhiteSpace and
  LineTerminator code points. `!s.trim()` in the source is `Trim(s) == []` in
  the model, and `Trim`'s contract proves that this holds exactly when `s` is
  blank.

The clock reading that `Date.now()` supplies is passed in as the parameter
`now`. The once-per-second interval is the `Tick` method, which can only be
called while the timer is running, because the source sets up the interval
only then. The `alert` shown when Start is pressed without a selected task is
the `alerted` result of `Start`.

components/PomodoroTimer.tsx does not stop itself at zero: a tick at zero
leaves it running at zero. It persists nothing and reconciles no elapsed
wall-clock time. `Start` only checks that some task is selected.

## Model

| member | source | states |
|---|---|---|
| Text.LeadingBlanks | components/Notes.tsx:32 | counts the white space at the start: every character before the count is white space, and the one at the count, if any, is not |
| Text.TrailingBlanks | components/TaskList.tsx:20 | counts the white space at the end: every character in the last count positions is white space, and the one just before them, if any, is not |
| Text.TrimStart | components/Notes.tsx:32 | the result is the suffix of the input that starts at its first non-blank character, and everything dropped is white space |
| Text.TrimEnd | components/TaskList.tsx:20 | the result is the prefix of the input that ends at its last non-blank character, and everything dropped is white space |
| Text.Trim | components/TaskList.tsx:20 | `trim()` is empty exactly when the input is all white space; otherwise it starts and ends with a non-blank character |
| PomodoroComponent.DecimalString | components/PomodoroTimer.tsx:34 | `String(n)` has one digit exactly below 10 and at most two exactly below 100 |
| PomodoroComponent.DecimalDigits | components/PomodoroTimer.tsx:34 | `String(n)` is made of digits only |
| PomodoroComponent.DecimalRoundTrip | components/PomodoroTimer.tsx:34 | reading `String(n)` back as a decimal number gives `n` |
| PomodoroComponent.LeadingZerosParse | components/PomodoroTimer.tsx:34 | zero padding on the left does not change the value read back |
| PomodoroComponent.PadStart | components/PomodoroTimer.tsx:34 | `padStart` returns the text unchanged when it is already as long as the width; otherwise the result is exactly the width long, fill characters followed by the text itself |
| PomodoroComponent.PaddedNumber | components/PomodoroTimer.tsx:34 | `String(n).padStart(2, "0")` is all digits, and exactly two of them exactly when `n < 100` |
| PomodoroComponent.PaddedValue | components/PomodoroTimer.tsx:34 | the padded text reads back to `n` |
| PomodoroComponent.TwoDigits | components/PomodoroTimer.tsx:34 | below 100 the padded text is the tens digit followed by the units digit |
| PomodoroComponent.ClockText | components/PomodoroTimer.tsx:34 | the template literal puts the colon third from the end, since the seconds part is two digits below 60, and is 5 long exactly when the minutes are below 100 |
| PomodoroComponent.FormatTime | components/PomodoroTimer.tsx:31-35 | the text has a colon third from the end, and it is exactly 5 long when the input is below 6000 seconds |
| PomodoroComponent.ClockTextReadBack | components/PomodoroTimer.tsx:31-35 | the minutes before the last colon and the seconds after it read back to the numbers they came from |
| PomodoroComponent.FormatTimeRoundTrip | components/PomodoroTimer.tsx:31-35 | for every input, all characters but the colon are digits, the part after the colon reads as seconds below 60, and minutes * 60 + seconds gives the input back |
| PomodoroComponent.FormatTimeClockFace | components/PomodoroTimer.tsx:31-35 | below 6000 seconds the text is "MM:SS": two digits, a colon and two digits, with MM * 60 + SS equal to the input and SS below 60 |
| PomodoroComponent.AfterTick | components/PomodoroTimer.tsx:23 | a tick never leaves the countdown negative, takes one second off a positive countdown, leaves zero at zero, and never changes `isRunning` (no auto-stop) |
| PomodoroComponent.AfterStart | components/PomodoroTimer.tsx:37-43 | without a selected task nothing changes; with one the timer runs and the countdown is untouched |
| PomodoroComponent.AfterPause | components/PomodoroTimer.tsx:60 | Pause stops the timer and leaves the countdown untouched |
| PomodoroComponent.AfterReset | components/PomodoroTimer.tsx:65-68 | from any state, Reset gives a stopped timer at 1500 seconds |
| PomodoroComponent.Step | components/PomodoroTimer.tsx:19-68 | each press or firing keeps the countdown between 0 and 1500; anything but Reset never raises it; a firing while running is `AfterTick`, and a firing while stopped changes nothing, because the interval is armed only while running (lines 21-25) |
| PomodoroComponent.RunStaysInRange | components/PomodoroTimer.tsx:11-68 | whatever the sequence of presses and firings, the countdown stays between 0 and 1500 |
| PomodoroComponent.RunWithoutResetNeverIncreases | components/PomodoroTimer.tsx:19-60 | without a Reset the countdown never goes up |
| PomodoroComponent.TicksSaturate | components/PomodoroTimer.tsx:19-29 | `n` ticks on a running timer leave it running, at `t - n` or at 0 if `n >= t` |
| PomodoroComponent.ResetForgetsHistory | components/PomodoroTimer.tsx:65-68 | everything before a Reset is forgotten, so a second Reset changes nothing more |
| PomodoroComponent.StartWithoutTaskChangesNothing | components/PomodoroTimer.tsx:37-41 | after any history, Start without a task leaves the state as it was |
| PomodoroComponent.RunAppend | components/PomodoroTimer.tsx:19-68 | running two event sequences one after the other is running their concatenation |
| PomodoroComponent.StartThenTenTicks | components/PomodoroTimer.tsx:11-42 | Start with a task at 1500, then ten ticks: 1490 left, still running, shown as "24:50" |
| PomodoroComponent.PomodoroTimer.constructor | components/PomodoroTimer.tsx:11-12 | the timer mounts at 1500 seconds, stopped |
| PomodoroComponent.PomodoroTimer.Tick | components/PomodoroTimer.tsx:19-29 | the interval callback, only while running, updates the fields as `AfterTick` says and keeps them in range |
| PomodoroComponent.PomodoroTimer.Start | components/PomodoroTimer.tsx:37-43 | `startPomodoro` updates the fields as `AfterStart` says, and alerts exactly when no task is selected |
| PomodoroComponent.PomodoroTimer.Pause | components/PomodoroTimer.tsx:60 | the Pause button updates the fields as `AfterPause` says |
| PomodoroComponent.PomodoroTimer.Reset | components/PomodoroTimer.tsx:65-68 | the Reset button updates the fields as `AfterReset` says |
| PomodoroComponent.PomodoroTimer.Display | components/PomodoroTimer.tsx:55 | the face shown is always "MM:SS": two digits, a colon, two digits of seconds below 60, with MM * 60 + SS equal to `timeRemaining` |
| NotesComponent.StoredNotes | components/Notes.tsx:26 | the mount effect reads the list stored under "notes", or the empty list when the key is absent |
| NotesComponent.StoredNotesAfterWrite | components/Notes.tsx:26-41 | what a save writes under "notes" is exactly what the next mount reads |
| NotesComponent.StoredNotesIgnoresOtherKeys | components/Notes.tsx:26 | writes under any other key do not change what the notes component reads |
| NotesComponent.Notes.constructor | components/Notes.tsx:19-20 | the editor starts empty and the list starts empty |
| NotesComponent.Notes.Load | components/Notes.tsx:23-29 | on mount the list is the stored "notes" entry, or empty when the key is absent, so it is persisted |
| NotesComponent.Notes.Edit | components/Notes.tsx:54 | the editor takes the new value, or the empty string when the value is undefined |
| NotesComponent.Notes.SaveNote | components/Notes.tsx:31-43 | a blank buffer changes nothing; otherwise the untrimmed text and the clock reading become note 0, the old notes follow in order, the store holds the new list under "notes" and nothing else changes in it, and the editor is cleared |
| TaskListComponent.StoredTasks | components/TaskList.tsx:15 | the mount effect reads the list stored under "tasks", or the empty list when the key is absent |
| TaskListComponent.StoredTasksAfterWrite | components/TaskList.tsx:15-25 | what adding a task writes under "tasks" is exactly what the next mount reads |
| TaskListComponent.StoredTasksIgnoresOtherKeys | components/TaskList.tsx:15 | writes under any other key do not change what the task list reads |
| TaskListComponent.TaskList.constructor | components/TaskList.tsx:11-12 | the input starts empty and the list starts empty |
| TaskListComponent.TaskList.Load | components/TaskList.tsx:14-17 | on mount the list is the stored "tasks" entry, or empty when the key is absent, so it is persisted |
| TaskListComponent.TaskList.Edit | components/TaskList.tsx:36 | the input takes the typed value |
| TaskListComponent.TaskList.AddTask | components/TaskList.tsx:19-27 | a blank input changes nothing; otherwise the old list is an unchanged prefix and the one new task at the end has the untrimmed text, is not completed and has the clock reading as id; the store holds the new list under "tasks" and nothing else changes in it, and the input is cleared |
| HomePage.WithFocusTime | app/page.tsx:15-21 | same length and order; every task with the id gets the new focus time and keeps id, text and completed; every other task is unchanged |
| HomePage.LaterUpdateWins | app/page.tsx:15-21 | of two updates of the same id, the later value is the one that stays |
| HomePage.UpdateIdempotent | app/page.tsx:15-21 | applying the same update twice is applying it once |
| HomePage.UnknownIdChangesNothing | app/page.tsx:16-20 | when no task has the id, the list is unchanged |
| HomePage.UpdatesOfDifferentTasksCommute | app/page.tsx:15-21 | updates of two different ids give the same list in either order |
| HomePage.Home.constructor | app/page.tsx:10-11 | no task is selected and the page's list is empty |
| HomePage.Home.SelectTask | app/page.tsx:45 | the clicked task becomes the selected task |
| HomePage.Home.UpdateTaskFocusTime | app/page.tsx:15-21 | the page's list becomes `WithFocusTime` of the old one |
| HomePage.Home.OnTaskAdd | app/page.tsx:46 | the new task goes at the end, after the old list unchanged |

## Left out

- PomodoroComponent.FormatTime: takes a non-negative number of seconds. The only caller passes `timeRemaining`, which `RunStaysInRange` keeps between 0 and 1500, so JavaScript's formatting of negative or fractional input is not modelled.
- PomodoroComponent.PomodoroTimer.Tick: requires the timer to be running, because the source arms the interval only while `isRunning` is true. The scheduling itself (`setInterval`, `clearInterval`, effect clean-up) is host timer plumbing and is not modelled.
- React state batching: a handler's `set...` calls are applied in order, and the final state is the same.
- Rendering: the JSX, CSS classes, the `hydrated` guards that skip the server-side render, and the markdown editor and preview libraries.
- `alert`, `Date.now()` and `toLocaleString` are UI, clock and locale calls. The alert is the `alerted` result of `Start`, the clock reading is the `now` parameter, and date display is left out.
- `localStorage` and `JSON.parse`/`JSON.stringify`: the store holds the lists themselves rather than their JSON text. Each component sees the store as a map of its own list type, because the two components use different keys and the serialiser is not visible.
- TaskListComponent.Task: the component's own record with a numeric id. It is kept apart from the `lib/types.ts` record with a string id that the page uses, as in the source.
- Types.Task: `focus_time` is a JavaScript number. The model keeps it an integer.
- The list item click in TaskList (components/TaskList.tsx:50) only calls the page's callback. It is modelled on the page's side as `Home.SelectTask`.
- The page's `isPomodoroRunning` state: no component calls its setter. PomodoroTimer does not accept the `updateTaskFocusTime` and `setIsPomodoroRunning` props passed at app/page.tsx:37-38, and TaskList does not accept `onTaskAdd`, `selectedTask` and `isPomodoroRunning`.
- Persisted timer state, elapsed-time catch-up after backgrounding, auto-stop at zero and the remote focus-time sink: none of the modelled files implements them.
- lib/supabase.ts (a network client built from environment variables) and eslint.config.mjs (tooling configuration) are not part of this model.
