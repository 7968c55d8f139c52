/** The task record and its translation into the payload the remote task-list
    service accepts when a task is created there. */
module Tasks {
  import opened DateTimes

  /** Length of a locally generated task identifier. */
  const UuidLength := 44

  /** The two statuses the remote service knows. */
  const NotDone := "needsAction"
  const Done := "completed"

  /** A task as the local store keeps it. */
  datatype Task = Task(title: string, stage: string, due: DateTime, notes: string,
                       status: string, taskId: string, deleted: bool)

  /** The keys every payload carries. */
  const RequiredKeys: set<string> := {"title", "due", "status"}

  /** The remote service wants an RFC 3339 date-time (section 5.6 of RFC 3339),
      so the naive `isoformat()` text gets a `Z` (UTC) suffix. */
  function DueText(due: DateTime): (s: string)
    ensures |s| == |IsoFormat(due)| + 1 && s[|s| - 1] == 'Z'
    ensures s[..|s| - 1] == IsoFormat(due)
  {
    IsoFormat(due) + "Z"
  }

  /** Reads a `due` value back: the `Z` suffix, then the isoformat text. */
  function ParseDueText(s: string): Option<DateTime> {
    if s != [] && s[|s| - 1] == 'Z' then ParseIsoFormat(s[..|s| - 1]) else None
  }

  /** `Task.to_gtask_dict`: the creation payload. Title and status travel
      unchanged (the status is not checked against `NotDone`/`Done`), `notes`
      only when there are any, and the local identifier never. */
  function ToGTaskDict(task: Task): (d: map<string, string>)
    ensures d.Keys == if task.notes == "" then RequiredKeys else RequiredKeys + {"notes"}
    ensures "id" !in d
    ensures d["title"] == task.title && d["status"] == task.status
    ensures d["due"] == DueText(task.due)
    ensures "notes" in d ==> d["notes"] == task.notes
  {
    var required := map["title" := task.title, "due" := DueText(task.due), "status" := task.status];
    if task.notes != "" then required["notes" := task.notes] else required
  }

  /** The status constants are different words, and identifiers have a fixed length. */
  lemma StatusConstants()
    ensures NotDone != Done
    ensures NotDone == "needsAction" && Done == "completed" && UuidLength == 44
  {
  }

  /** The due instant survives the trip into the payload. */
  lemma DueTextRoundTrip(due: DateTime)
    ensures ParseDueText(DueText(due)) == Some(due)
  {
    IsoFormatRoundTrip(due);
  }

  /** Two tasks with the same payload agree on everything the remote service
      sees: title, due instant, status and notes. */
  lemma PayloadDeterminesRemoteFields(a: Task, b: Task)
    requires ToGTaskDict(a) == ToGTaskDict(b)
    ensures a.title == b.title && a.due == b.due && a.status == b.status && a.notes == b.notes
  {
    var da, db := ToGTaskDict(a), ToGTaskDict(b);
    assert da["due"] == db["due"];
    DueTextRoundTrip(a.due);
    DueTextRoundTrip(b.due);
  }

  /** The payload does not depend on the local identifier, the local stage or
      the tombstone flag: none of them is sent. */
  lemma PayloadIgnoresLocalFields(task: Task, id: string, stage: string, deleted: bool)
    ensures ToGTaskDict(task.(taskId := id, stage := stage, deleted := deleted)) == ToGTaskDict(task)
  {
  }
}
