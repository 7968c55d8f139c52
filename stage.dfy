/** What a stage column of the board shows: the tasks of that stage that are
    due within the lookahead window, as many as fit one below the other, and
    the placement and title of each task box. */
module StageView {
  import opened PyLists
  import opened Screen
  import opened DateTimes
  import opened Tasks

  /** Blank lines above and below a task's title. */
  const TaskVerticalPadding := 1
  /** Rows one task box takes. */
  const TotalTaskHeight := 1 + 2 * TaskVerticalPadding
  /** Rows the stage's own top and bottom borders take. */
  const AccountForBorders := 2

  /** The board's tasks that sit in stage `stageName`, in board order. */
  function TasksInStage(tasks: seq<Task>, stageName: string): (r: seq<Task>)
    ensures forall t :: t in r <==> t in tasks && t.stage == stageName
    ensures forall t :: multiset(r)[t] == if t.stage == stageName then multiset(tasks)[t] else 0
    ensures IsSubsequence(r, tasks)
  {
    if tasks == [] then []
    else
      var rest := TasksInStage(tasks[1..], stageName);
      assert tasks == [tasks[0]] + tasks[1..];
      if tasks[0].stage == stageName then [tasks[0]] + rest else rest
  }

  /** `task.due - today <= timedelta(days=lookaheadDays)`: due no later than
      `lookaheadDays` days after `today`. When the window is not negative,
      anything overdue qualifies. */
  predicate DueWithin(task: Task, today: DateTime, lookaheadDays: int) {
    TotalMicros(task.due) - TotalMicros(today) <= lookaheadDays * MicrosPerDay
  }

  /** The tasks due within the window, in their original order. */
  function TasksInDueRange(tasks: seq<Task>, today: DateTime, lookaheadDays: int): (r: seq<Task>)
    ensures forall t :: t in r <==> t in tasks && DueWithin(t, today, lookaheadDays)
    ensures forall t :: multiset(r)[t] == if DueWithin(t, today, lookaheadDays) then multiset(tasks)[t] else 0
    ensures IsSubsequence(r, tasks)
  {
    if tasks == [] then []
    else
      var rest := TasksInDueRange(tasks[1..], today, lookaheadDays);
      assert tasks == [tasks[0]] + tasks[1..];
      if DueWithin(tasks[0], today, lookaheadDays) then [tasks[0]] + rest else rest
  }

  /** How many task boxes fit between the stage's top and bottom borders:
      the floor of the free height over the height of one box. */
  function MaxNumTasks(area: ScreenArea): (n: int)
    ensures n * TotalTaskHeight <= area.bottomRightY - area.upperLeftY - AccountForBorders
    ensures area.bottomRightY - area.upperLeftY - AccountForBorders < (n + 1) * TotalTaskHeight
  {
    (area.bottomRightY - area.upperLeftY - AccountForBorders) / TotalTaskHeight
  }

  /** The tasks in `stageName` and due within the window, before the cut to
      what fits; `now` is the clock reading, truncated to midnight. */
  function Candidates(board: seq<Task>, stageName: string, lookaheadDays: int, now: DateTime): seq<Task> {
    TasksInDueRange(TasksInStage(board, stageName), Midnight(now), lookaheadDays)
  }

  /** The selection part of `Stage.draw`. The slice keeps the FIRST candidates
      in board order. For a stage fewer than two rows tall the count is
      negative and Python's slicing then drops candidates from the end. */
  function TasksToDisplay(board: seq<Task>, stageName: string, lookaheadDays: int,
                          now: DateTime, area: ScreenArea): (shown: seq<Task>)
    ensures forall t :: t in shown ==>
      t in board && t.stage == stageName && DueWithin(t, Midnight(now), lookaheadDays)
    ensures var c := Candidates(board, stageName, lookaheadDays, now);
      |shown| <= |c| && shown == c[..|shown|]
    ensures area.bottomRightY - area.upperLeftY >= AccountForBorders ==>
      |shown| == Min(|Candidates(board, stageName, lookaheadDays, now)|, MaxNumTasks(area))
    ensures MaxNumTasks(area) == 0 ==> shown == []
  {
    Prefix(Candidates(board, stageName, lookaheadDays, now), MaxNumTasks(area))
  }

  /** An overdue task of the stage, or one due at midnight today, is always a
      candidate when the window is not negative. */
  lemma OverdueTasksAreCandidates(board: seq<Task>, stageName: string, lookaheadDays: int,
                                  now: DateTime, t: Task)
    requires t in board && t.stage == stageName && lookaheadDays >= 0
    requires TotalMicros(t.due) <= TotalMicros(Midnight(now))
    ensures t in Candidates(board, stageName, lookaheadDays, now)
  {
  }

  /** A stage one row too short for its borders still shows tasks, all but
      the last candidate, because the box count is -1. */
  lemma ShortStageDropsLastCandidate(board: seq<Task>, stageName: string, lookaheadDays: int,
                                     now: DateTime, area: ScreenArea)
    requires area.bottomRightY - area.upperLeftY == 1
    ensures var c := Candidates(board, stageName, lookaheadDays, now);
      TasksToDisplay(board, stageName, lookaheadDays, now, area) == c[..Max(0, |c| - 1)]
  {
  }

  /** A task box as the stage places it: the task, and the columns the box
      spans; the box's rows come from a floating-point formula not modelled. */
  datatype TaskBox = TaskBox(task: Task, left: int, right: int)

  /** The loop of `Stage.draw` that lays out one box per shown task, in order,
      each spanning the columns strictly inside the stage's borders, a span
      that is not empty once the stage is two columns wide. */
  method LayOutTasks(board: seq<Task>, stageName: string, lookaheadDays: int,
                     now: DateTime, area: ScreenArea) returns (boxes: seq<TaskBox>)
    ensures var shown := TasksToDisplay(board, stageName, lookaheadDays, now, area);
      |boxes| == |shown| &&
      forall i :: 0 <= i < |boxes| ==> boxes[i].task == shown[i]
    ensures forall i :: 0 <= i < |boxes| ==>
      boxes[i].left == area.upperLeftX + 1 && boxes[i].right == area.bottomRightX - 1 &&
      (area.bottomRightX - area.upperLeftX >= 2 ==> boxes[i].left <= boxes[i].right)
  {
    var shown := TasksToDisplay(board, stageName, lookaheadDays, now, area);
    boxes := BoxesFor(shown, area);
  }

  /** One box per task of `shown`, in order, each spanning the columns
      strictly inside the borders of `area`. */
  method BoxesFor(shown: seq<Task>, area: ScreenArea) returns (boxes: seq<TaskBox>)
    ensures |boxes| == |shown|
    ensures forall i :: 0 <= i < |boxes| ==>
      boxes[i] == TaskBox(shown[i], area.upperLeftX + 1, area.bottomRightX - 1)
  {
    boxes := [];
    var idx := 0;
    while idx < |shown|
      invariant 0 <= idx <= |shown| && |boxes| == idx
      invariant forall i :: 0 <= i < idx ==>
        boxes[i] == TaskBox(shown[i], area.upperLeftX + 1, area.bottomRightX - 1)
    {
      boxes := boxes + [TaskBox(shown[idx], area.upperLeftX + 1, area.bottomRightX - 1)];
      idx := idx + 1;
    }
  }

  /** The title part of `Task.draw`: on the row `verticalPadding` below the
      box's top edge, the title from its first character, clipped to the
      columns strictly inside the box. */
  method DrawTaskTitle(task: Task, area: ScreenArea, verticalPadding: int) returns (cells: seq<Cell>)
    ensures |cells| == Min(|task.title|, Max(0, area.bottomRightX - area.upperLeftX - 1))
    ensures forall i :: 0 <= i < |cells| ==>
      cells[i] == Cell(area.upperLeftX + 1 + i, area.upperLeftY + verticalPadding, task.title[i])
    ensures forall c :: c in cells ==> area.upperLeftX < c.x < area.bottomRightX
  {
    var y := area.upperLeftY + verticalPadding;
    cells := DrawRow(task.title, area.upperLeftX + 1, area.bottomRightX, y);
  }
}
