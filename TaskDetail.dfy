/**
 * The task-detail screen of `app/task-detail.tsx`: the subtask checklist, filled from
 * the loaded task or from three defaults, and toggled entry by entry; and the local
 * update of the task's status after a successful approval. The screen replaces its
 * state wholesale with new values, so everything here is a function of values.
 */
module TaskDetail {
  import opened Wrappers

  datatype Subtask = Subtask(id: string, title: string, completed: bool)

  /**
   * A task as loaded: its displayed fields by name (status, title, priority, ...),
   * and its subtask list when the record has one.
   */
  datatype Task = Task(fields: map<string, string>, subtasks: Option<seq<Subtask>>)

  const StatusField := "status"
  const Completed := "Completed"

  // ---------------------------------------------------------------------------
  // Loading

  /** The checklist shown when the task has none of its own. */
  const DefaultSubtasks := [
    Subtask("1", "Review initial draft", true),
    Subtask("2", "Approve budget " + "allocation", false),
    Subtask("3", "Sign final order", false)
  ]

  /**
   * The checklist of a loaded task: its own list, even an empty one; a task without a
   * list gets three entries with distinct ids, only the first of them done.
   */
  function LoadSubtasks(task: Task): (r: seq<Subtask>)
    ensures task.subtasks.Some? ==> r == task.subtasks.value
    ensures task.subtasks == Some([]) ==> r == []
    ensures task.subtasks.None? ==> |r| == 3 && r[0].completed && !r[1].completed && !r[2].completed
    ensures task.subtasks.None? ==> forall i, j :: 0 <= i < j < |r| ==> r[i].id != r[j].id
  {
    task.subtasks.GetOr(DefaultSubtasks)
  }

  // ---------------------------------------------------------------------------
  // Toggling

  /** Every entry with the id has its `completed` flag flipped; the others are kept as they are. */
  function ToggleSubtask(subtasks: seq<Subtask>, id: string): (r: seq<Subtask>)
    ensures |r| == |subtasks|
  {
    seq(|subtasks|, i requires 0 <= i < |subtasks| =>
      if subtasks[i].id == id then subtasks[i].(completed := !subtasks[i].completed) else subtasks[i])
  }

  /** Toggling keeps the list's length and order, and each entry's id and title. */
  lemma ToggleKeepsEntries(subtasks: seq<Subtask>, id: string)
    ensures var r := ToggleSubtask(subtasks, id);
      |r| == |subtasks| && forall i :: 0 <= i < |r| ==> r[i].id == subtasks[i].id && r[i].title == subtasks[i].title
  {
  }

  /** An entry's flag changes exactly when its id is the one toggled. */
  lemma ToggleFlipsMatching(subtasks: seq<Subtask>, id: string)
    ensures var r := ToggleSubtask(subtasks, id);
      forall i :: 0 <= i < |r| ==> (r[i].completed != subtasks[i].completed <==> subtasks[i].id == id)
  {
  }

  /** Toggling an id that is not in the list changes nothing. */
  lemma ToggleAbsent(subtasks: seq<Subtask>, id: string)
    requires forall i :: 0 <= i < |subtasks| ==> subtasks[i].id != id
    ensures ToggleSubtask(subtasks, id) == subtasks
  {
  }

  /** Toggling the same id twice restores the list. */
  lemma ToggleTwice(subtasks: seq<Subtask>, id: string)
    ensures ToggleSubtask(ToggleSubtask(subtasks, id), id) == subtasks
  {
  }

  /** Toggles of two ids can be made in either order. */
  lemma ToggleCommutes(subtasks: seq<Subtask>, a: string, b: string)
    ensures ToggleSubtask(ToggleSubtask(subtasks, a), b) == ToggleSubtask(ToggleSubtask(subtasks, b), a)
  {
  }

  /** How many entries are done. */
  function DoneCount(subtasks: seq<Subtask>): (n: nat)
    ensures n <= |subtasks|
  {
    if subtasks == [] then 0
    else DoneCount(subtasks[..|subtasks| - 1]) + (if subtasks[|subtasks| - 1].completed then 1 else 0)
  }

  /** When an id names one entry only, toggling it moves the number of done entries by exactly one. */
  lemma {:induction false} ToggleUniqueCount(subtasks: seq<Subtask>, k: nat)
    requires k < |subtasks|
    requires forall i :: 0 <= i < |subtasks| && i != k ==> subtasks[i].id != subtasks[k].id
    ensures var r := ToggleSubtask(subtasks, subtasks[k].id);
      DoneCount(r) == if subtasks[k].completed then DoneCount(subtasks) - 1 else DoneCount(subtasks) + 1
  {
    var id := subtasks[k].id;
    var n := |subtasks|;
    var r := ToggleSubtask(subtasks, id);
    var init := subtasks[..n - 1];
    assert r[..n - 1] == ToggleSubtask(init, id);
    if k == n - 1 {
      ToggleAbsent(init, id);
    } else {
      ToggleUniqueCount(init, k);
    }
  }

  // ---------------------------------------------------------------------------
  // Approving

  /**
   * The task after approving: the status set to "Completed" once the update request
   * succeeds, the task as it was when it fails.
   */
  function Approve(task: Task, updateSucceeded: bool): (r: Task)
    ensures updateSucceeded ==> StatusField in r.fields && r.fields[StatusField] == Completed
    ensures updateSucceeded ==> forall f :: f in task.fields && f != StatusField ==> f in r.fields && r.fields[f] == task.fields[f]
    ensures updateSucceeded ==> r.fields.Keys == task.fields.Keys + {StatusField} && r.subtasks == task.subtasks
    ensures !updateSucceeded ==> r == task
  {
    if updateSucceeded then task.(fields := task.fields[StatusField := Completed]) else task
  }

  /** Approving an approved task changes nothing. */
  lemma ApproveIdempotent(task: Task, first: bool, second: bool)
    requires first
    ensures Approve(Approve(task, first), second) == Approve(task, first)
  {
  }
}
