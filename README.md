# kbb — the command prompt, the task payload and the stage view, in Dafny

kbb is a terminal kanban board whose tasks are mirrored to a remote task-list
service. This project models three of its parts: the command prompt's edit buffer, the
payload that creates a task on the remote service, and a stage column's task selection.

- **The command prompt bar** (`gui/cmdprompt.py`). This is a class `CmdPrompt` with an edit
  buffer that starts as `">> "`. Typed characters and spaces are appended to it. Backspace
  drops the last character, and nothing stops it from erasing the prompt marker itself.
  Evaluation resets the buffer. The text-and-cursor part of `draw` is modelled too. That
  includes its defect: a buffer wider than the bar makes `draw` fail with Python's
  `UnboundLocalError`.
- **The creation payload** (`kbb/task.py`). `to_gtask_dict` turns a task into the dictionary
  sent to the remote service. It always has `title`, `due` and `status`, adds `notes` only
  when notes exist, and never adds the local id. `due` is `isoformat()` of a naive datetime
  followed by `Z`. That format is written out here exactly as Python's `datetime` produces
  it, over the proleptic Gregorian calendar. A parser is proved to read it back, so the
  payload loses nothing about the due instant.
- **The stage column** (`gui/stage.py`). A column first keeps the board's tasks of its
  stage. Of those it keeps the ones due at most `lookahead_days` after midnight today. For
  a window that is not negative, this includes every overdue task. It then keeps as many
  as fit. That is the first `floor((bry - tly - 2) / 3)` of them, with Python's slicing
  rules when this count is negative. The model also gives the columns each task box spans
  and the title characters written into a box.

Modules: `PyLists` (Python slicing, subsequences), `Screen` (screen areas, cells, the loop
that writes one line of text), `DateTimes` (the `datetime` behaviour used), `Tasks`,
`CommandPrompt`, `StageView`.

Terminal output is modelled as the list of cells a drawing step writes. The clock reading
`datetime.today()` is a parameter `now`.

The program's tests read remote timestamps such as `2010-10-15T12:00:00.000Z` (RFC 3339
with a fraction of a second). The code sends `isoformat()` followed by `Z`. That leaves out
the fraction when the microseconds are zero and writes six digits otherwise. The model does
what the code does.

## Model

| member | source | states |
|---|---|---|
| `PyLists.Prefix` | gui/stage.py:76 | `s[:k]` is always a prefix of `s`. It has `min(k, len)` elements for `k >= 0` and `max(0, len + k)` for negative `k`. |
| `Screen.DrawRow` | gui/cmdprompt.py:71-76 | The zip of a column range and a text writes exactly `min(len(text), toX - fromX)` characters, none when the range is empty. Character `i` goes to column `fromX + i` of the given row. |
| `DateTimes.Midnight` | gui/stage.py:66-67 | Truncating to midnight keeps the date and sets hour, minute, second and microsecond to 0, so no time of day is left. The result is at or before the original instant and less than one day before it. |
| `DateTimes.OrdinalCountsDays` | gui/stage.py:69 | The day count used for date differences goes up by exactly one from each calendar date to the next, across month and year ends and leap days. So `due - today` measures elapsed time. |
| `DateTimes.IsoFormat` | kbb/task.py:46 | `isoformat()` is 19 characters (`YYYY-MM-DDTHH:MM:SS`) when the microseconds are zero and 26 (with `.ffffff`) otherwise. |
| `DateTimes.IsoFormatRoundTrip` | kbb/task.py:46 | Parsing the `isoformat()` text gives back the same datetime, for every valid datetime. |
| `DateTimes.IsoFormatInjective` | kbb/task.py:46 | Two datetimes with the same `isoformat()` text are equal. |
| `Tasks.DueText` | kbb/task.py:46 | The payload's `due` is the isoformat text followed by a single `Z`. It is one character longer and ends in `Z`. |
| `Tasks.DueTextRoundTrip` | kbb/task.py:46 | The due instant can be read back from the payload's `due` value. |
| `Tasks.ToGTaskDict` | kbb/task.py:41-54 | The keys are exactly {title, due, status}, plus `notes` exactly when the notes are non-empty, and never `id`. Title and status are copied unchanged, with no check of the status. `notes` maps to the task's notes. |
| `Tasks.PayloadDeterminesRemoteFields` | kbb/task.py:44-54 | Two tasks with equal payloads have equal title, due instant, status and notes. |
| `Tasks.PayloadIgnoresLocalFields` | kbb/task.py:48 | Changing a task's local id, stage or tombstone flag leaves its payload unchanged. |
| `Tasks.StatusConstants` | kbb/task.py:25-27 | `NOTDONE` is `"needsAction"` and `DONE` is `"completed"`, and they differ. The local id length is 44. |
| `CommandPrompt.CmdPrompt.constructor` | gui/cmdprompt.py:86-88 | A new prompt's buffer is exactly `">> "`. |
| `CommandPrompt.CmdPrompt.ReceiveInput` | gui/cmdprompt.py:11-17 | The new buffer is the old one followed by the character. Only the buffer changes. |
| `CommandPrompt.CmdPrompt.ReceiveBackspace` | gui/cmdprompt.py:20-26 | A non-empty buffer loses exactly its last character. An empty buffer stays empty. Only the buffer changes. |
| `CommandPrompt.CmdPrompt.ReceiveSpace` | gui/cmdprompt.py:29-34 | Exactly one space is appended, the same as `ReceiveInput(' ')`. |
| `CommandPrompt.CmdPrompt.EvaluateBuffer` | gui/cmdprompt.py:37-43 | The buffer becomes `">> "` whatever it held, so a second call changes nothing. |
| `CommandPrompt.CmdPrompt.Draw` | gui/cmdprompt.py:64-80 | Drawing fails exactly when the buffer is longer than `(brx - tlx) - 2`. Otherwise every buffer character is drawn in order on row `bry - 1` from column `tlx + 1`. The cursor is then at `tlx + len + 1`, strictly between `tlx` and `brx`. |
| `CommandPrompt.TypingOverflowsEveryBar` | gui/cmdprompt.py:64-66 | For every bar, typing `width - 2` characters after the marker makes the buffer too long, so `draw` fails. |
| `CommandPrompt.ClippedDisplayBuffer` | gui/cmdprompt.py:63-66 | The corrected trimming keeps `min(len, width)` characters, and they are the buffer's last ones. |
| `CommandPrompt.ClippedCursorInsideBar` | gui/cmdprompt.py:79 | With the corrected trimming the cursor is strictly inside the bar for any buffer, and the last typed character is visible. |
| `CommandPrompt.BackspaceUndoesInput` | gui/cmdprompt.py:17-26 | A backspace right after typing a character restores the previous buffer. |
| `CommandPrompt.BackspacesShorten` | gui/cmdprompt.py:20-26 | After `n` backspaces the buffer is its first `max(0, len - n)` characters. |
| `CommandPrompt.BackspacesEraseMarker` | gui/cmdprompt.py:20-26 | From any buffer, as many backspaces as it has characters leave it empty, so the `">> "` marker is never protected. |
| `StageView.TasksInStage` | gui/stage.py:63 | A task is kept exactly when it is on the board and in this stage. Each such task is kept as many times as it occurs on the board, and the kept tasks are a subsequence of the board list, in board order. |
| `StageView.TasksInDueRange` | gui/stage.py:65-69 | A task is kept exactly when `due - today <= lookahead_days` days. It is kept as many times as it occurs, and order is kept. |
| `StageView.MaxNumTasks` | gui/stage.py:73-75 | The count is the floor of `(bry - tly - 2) / 3`. Three times the count fits in the free height, and three times one more does not. |
| `StageView.TasksToDisplay` | gui/stage.py:62-76 | Every shown task is on the board, in this stage and due within the window. The shown tasks are a prefix of the candidates: the first ones, not the latest. When `bry - tly >= 2` there are `min(#candidates, count)` of them, and none when the count is 0. |
| `StageView.OverdueTasksAreCandidates` | gui/stage.py:66-69 | A task of the stage due at or before midnight today is a candidate whenever the window is not negative. |
| `StageView.ShortStageDropsLastCandidate` | gui/stage.py:75-76 | When `bry - tly == 1` the count is -1. The column then shows every candidate but the last one. |
| `StageView.LayOutTasks` | gui/stage.py:79-87 | One box per shown task, in order. Each box spans columns `tlx + 1` to `brx - 1`, strictly inside the stage borders. That span is non-empty when the stage is at least two columns wide. |
| `StageView.DrawTaskTitle` | gui/stage.py:32-35 | `min(len(title), brx - tlx - 1)` title characters are written on row `tly + vertical_padding`, from the first character, all strictly between the box's side edges. |

## Findings

| source | as written | input that shows it | evidently intended | confidence | as-written member | corrected member |
|---|---|---|---|---|---|---|
| gui/cmdprompt.py:66 | For a buffer wider than the bar, the trimming branch slices the buffer by the very local variable it is assigning. Python raises `UnboundLocalError`, so `draw` fails. | Buffer `">> abc"` (6 characters) in a bar with `tlx = 1`, `brx = 6`, whose display width is 3. In any bar, typing `width - 2` characters after the marker is enough. | Keep the last `display_width` characters. The comment at line 63 says leading characters that cannot be displayed are dropped. | high; not executed | `CommandPrompt.CmdPrompt.Draw`, `CommandPrompt.TypingOverflowsEveryBar` | `CommandPrompt.ClippedDisplayBuffer`, `CommandPrompt.ClippedCursorInsideBar` |

`CmdPrompt.Draw` keeps the behaviour as written, error outcome included. The corrected
trimming sits beside it with its own proved properties, so the model of the program does not
silently change what the program does.

## Left out

- CommandPrompt.CmdPrompt.Draw: the border cells (gui/cmdprompt.py:54-59) and the calls to `set_cursor` and `present` are not modelled. Only the buffer cells and the cursor position are returned.
- StageView.LayOutTasks: the top and bottom rows of each task box (gui/stage.py:81, gui/stage.py:83) are not modelled. They come from `math.floor` over floating-point division and multiplication, whose rounding is not integer division. The stage's own border cells are not modelled either.
- StageView.DrawTaskTitle: the box's top and bottom border cells (gui/stage.py:28-30) and `present` are not modelled.
- StageView.TasksInDueRange: Python's `timedelta(days=lookahead_days)` raises `OverflowError` when `lookahead_days` is above 999999999 or below -999999999. Integers are unbounded here, so that error path is not modelled. The board passes a window of 7 days.
- StageView.MaxNumTasks: `math.floor` of a float quotient is modelled as exact floor division. The two agree for any screen size a terminal can have.
- CommandPrompt.CmdPrompt.ReceiveInput takes one character, as the method's documentation says. Python would accept a longer string too.
- Tasks.Task: notes are always a string. A missing (`None`) value is not modelled. It would be treated like empty notes.
- The clock `datetime.today()` is the parameter `now`.
- gui/gui.py is not part of this model. It holds the termbox event loop, one-line delegations to `CmdPrompt`, and column boundaries computed in floating point.
- gui/util.py is not part of this model beyond the `ScreenArea` record. `Drawable` has no logic, and its `resize` refers to an undefined name.
- kbb/kbb.py is not part of this model. It holds OAuth credential storage, the browser flow, remote API discovery and printing.
- kbb/action.py is not part of this model. It is a record declaration with three kind constants and no behaviour.
- Database handles and persistence are not part of this model.
- The task store, action queue and sync engine that the tests exercise are not part of this model. This covers `new_task`, `delete_task`, `move_task`, timestamp parsing, id generation and task lookup, whose source is not among the files modelled.
