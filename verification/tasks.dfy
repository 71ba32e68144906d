/**
 * The task store: the `Task` record and the view model's list of tasks,
 * with the three changes the task-list screen makes to it (append, overwrite
 * the first task matching an edit snapshot, remove the first equal task).
 */
module Tasks {
  import opened Calendar
  import opened Lists

  /** A task; equality is structural on all five fields, as for a Kotlin data class. */
  datatype Task = Task(title: string, description: string, isImportant: bool, month: Month, day: int)

  /** The key the edit looks a task up by: every field except `isImportant`. */
  predicate SameKey(t: Task, snapshot: Task)
  {
    t.title == snapshot.title && t.description == snapshot.description &&
    t.day == snapshot.day && t.month == snapshot.month
  }

  function KeyMatches(snapshot: Task): Task -> bool
  {
    t => SameKey(t, snapshot)
  }

  function EqualTo(task: Task): Task -> bool
  {
    t => t == task
  }

  /** The list after an edit: the first task with the snapshot's key is
      overwritten by the replacement; with no such task nothing changes. */
  function Edited(tasks: seq<Task>, snapshot: Task, replacement: Task): (r: seq<Task>)
    ensures |r| == |tasks|
    ensures (forall t :: t in tasks ==> !SameKey(t, snapshot)) ==> r == tasks
    ensures forall i | 0 <= i < |tasks| && SameKey(tasks[i], snapshot) &&
                       (forall j | 0 <= j < i :: !SameKey(tasks[j], snapshot)) ::
              r == tasks[i := replacement]
  {
    var i := IndexOfFirst(tasks, KeyMatches(snapshot));
    if i == -1 then tasks else tasks[i := replacement]
  }

  /** The list after `remove(task)`: the first element equal to task is
      dropped, the others keep their order; absent, nothing changes. */
  function RemovedFirst(tasks: seq<Task>, task: Task): (r: seq<Task>)
    ensures task !in tasks ==> r == tasks
    ensures forall i | 0 <= i < |tasks| && tasks[i] == task && task !in tasks[..i] ::
              r == tasks[..i] + tasks[i + 1..]
    ensures multiset(r) == multiset(tasks) - multiset{task}
  {
    var i := IndexOfFirst(tasks, EqualTo(task));
    FirstEqualIndex(tasks, task);
    if i == -1 then tasks
    else
      DropAt(tasks, i);
      tasks[..i] + tasks[i + 1..]
  }

  /** The index `indexOfFirst` finds for an equality test is the first
      occurrence, and -1 exactly when there is none. */
  lemma FirstEqualIndex(tasks: seq<Task>, task: Task)
    ensures var k := IndexOfFirst(tasks, EqualTo(task));
      (k == -1 <==> task !in tasks) &&
      forall i | 0 <= i < |tasks| && tasks[i] == task && task !in tasks[..i] :: i == k
  {
    var k := IndexOfFirst(tasks, EqualTo(task));
    assert forall j | 0 <= j < |tasks| :: EqualTo(task)(tasks[j]) == (tasks[j] == task);
    forall i | 0 <= i < |tasks| && tasks[i] == task && task !in tasks[..i] ensures i == k {
      assert k >= 0 ==> tasks[..i + 1][k] == tasks[k];
    }
  }

  lemma ReplaceAt(s: seq<Task>, i: int, x: Task)
    requires 0 <= i < |s|
    ensures multiset(s[i := x]) == multiset(s) - multiset{s[i]} + multiset{x}
  {
    DropAt(s, i);
    assert s[i := x] == s[..i] + [x] + s[i + 1..];
    assert s == s[..i] + [s[i]] + s[i + 1..];
  }

  lemma DropAt(s: seq<Task>, i: int)
    requires 0 <= i < |s|
    ensures multiset(s[..i] + s[i + 1..]) == multiset(s) - multiset{s[i]}
  {
    assert s == s[..i] + [s[i]] + s[i + 1..];
  }

  /** TaskViewModel: owns the one list of tasks every screen reads. */
  class TaskViewModel {
    var tasks: seq<Task>

    constructor ()
      ensures tasks == []
    {
      tasks := [];
    }

    /** `tasks.add(task)` */
    method Add(task: Task)
      modifies this
      ensures tasks == old(tasks) + [task]
    {
      tasks := tasks + [task];
    }

    /** `tasks[index] = task`; Kotlin throws for an index out of range, and
        the one caller only passes an index `indexOfFirst` found. */
    method Set(index: int, task: Task)
      requires 0 <= index < |tasks|
      modifies this
      ensures tasks == old(tasks)[index := task]
    {
      tasks := tasks[index := task];
    }

    /** `tasks.remove(task)`: reports whether an element was removed. */
    method Remove(task: Task) returns (removed: bool)
      modifies this
      ensures removed <==> task in old(tasks)
      ensures tasks == RemovedFirst(old(tasks), task)
    {
      var i := IndexOfFirst(tasks, EqualTo(task));
      removed := i != -1;
      if removed {
        tasks := tasks[..i] + tasks[i + 1..];
      }
    }
  }

  // ---------------------------------------------------------------------------
  // Lemmas

  /** `isImportant` plays no part in finding the task to edit. */
  lemma EditIgnoresImportance(tasks: seq<Task>, snapshot: Task, replacement: Task, important: bool)
    ensures Edited(tasks, snapshot.(isImportant := important), replacement) == Edited(tasks, snapshot, replacement)
  {
    var other := snapshot.(isImportant := important);
    assert forall t :: SameKey(t, other) == SameKey(t, snapshot);
    assert forall i :: 0 <= i < |tasks| ==> KeyMatches(other)(tasks[i]) == KeyMatches(snapshot)(tasks[i]);
  }

  /** Counterexample: the store holds a task and, after it, its twin marked
      important; the list screen shows the twin first. Editing the twin and
      confirming without a change overwrites the first task instead, so the
      unimportant task is lost and the twin is stored twice. */
  lemma EditHitsEarlierTwin()
    ensures var plain := Task("Pay bills", "", false, March, 5);
      var twin := plain.(isImportant := true);
      Edited([plain, twin], twin, twin) == [twin, twin]
  {
    var plain := Task("Pay bills", "", false, March, 5);
    var twin := plain.(isImportant := true);
    assert SameKey([plain, twin][0], twin);
  }

  /** The edit as evidently intended: overwrite the first task equal to the
      snapshot on all five fields, the one the user picked. */
  function EditedExact(tasks: seq<Task>, snapshot: Task, replacement: Task): (r: seq<Task>)
    ensures |r| == |tasks|
    ensures snapshot !in tasks ==> r == tasks
    ensures snapshot in tasks ==>
      multiset(r) == multiset(tasks) - multiset{snapshot} + multiset{replacement}
    ensures forall i | 0 <= i < |tasks| && tasks[i] == snapshot && snapshot !in tasks[..i] ::
              r == tasks[i := replacement]
  {
    var i := IndexOfFirst(tasks, EqualTo(snapshot));
    FirstEqualIndex(tasks, snapshot);
    if i == -1 then tasks
    else
      ReplaceAt(tasks, i, replacement);
      tasks[i := replacement]
  }

  /** With the corrected edit, the same scenario changes nothing. */
  lemma ExactEditKeepsTwins()
    ensures var plain := Task("Pay bills", "", false, March, 5);
      var twin := plain.(isImportant := true);
      EditedExact([plain, twin], twin, twin) == [plain, twin]
  {
    var plain := Task("Pay bills", "", false, March, 5);
    var twin := plain.(isImportant := true);
    assert [plain, twin][1] == twin;
    FirstEqualIndex([plain, twin], twin);
  }
}
