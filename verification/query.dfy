/**
 * The day query behind the task-list screen: the tasks of one month and day,
 * important ones first, each group in store order.
 */
module DayQuery {
  import opened Calendar
  import opened Lists
  import opened Tasks

  predicate IsImportant(t: Task)
  {
    t.isImportant
  }

  function OnDay(month: Month, day: int): Task -> bool
  {
    (t: Task) => t.month == month && t.day == day
  }

  /** `tasks.filter { it.month == month && it.day == day }` */
  function TasksOn(tasks: seq<Task>, month: Month, day: int): seq<Task>
  {
    Filter(tasks, OnDay(month, day))
  }

  /** `sortedTasks`: the filter followed by `sortedByDescending { it.isImportant }`. */
  function Query(tasks: seq<Task>, month: Month, day: int): (r: seq<Task>)
    ensures forall t :: t in r <==> t in tasks && t.month == month && t.day == day
    ensures forall t :: multiset(r)[t] == if t.month == month && t.day == day then multiset(tasks)[t] else 0
    ensures forall i, j :: 0 <= i < j < |r| && r[j].isImportant ==> r[i].isImportant
  {
    var onDay := TasksOn(tasks, month, day);
    var r := SortedByDescending(onDay, IsImportant);
    QueryFacts(tasks, month, day);
    r
  }

  /** The query is the day's important tasks followed by its other tasks. */
  lemma QueryFacts(tasks: seq<Task>, month: Month, day: int)
    ensures var onDay := TasksOn(tasks, month, day);
      var r := SortedByDescending(onDay, IsImportant);
      && r == Filter(onDay, IsImportant) + Filter(onDay, Not(IsImportant))
      && (forall t :: t in r <==> t in tasks && t.month == month && t.day == day)
      && (forall t :: multiset(r)[t] == if t.month == month && t.day == day then multiset(tasks)[t] else 0)
      && (forall i, j :: 0 <= i < j < |r| && r[j].isImportant ==> r[i].isImportant)
  {
    var onDay := TasksOn(tasks, month, day);
    var r := SortedByDescending(onDay, IsImportant);
    SortedIsPartition(onDay, IsImportant);
    PartitionMultiset(onDay, IsImportant);
    QueryMultiset(tasks, month, day, r);
    NotKeyHolds(onDay, IsImportant);
    ImportantFirst(Filter(onDay, IsImportant), Filter(onDay, Not(IsImportant)));
  }

  lemma QueryMultiset(tasks: seq<Task>, month: Month, day: int, r: seq<Task>)
    requires multiset(r) == multiset(TasksOn(tasks, month, day))
    ensures forall t :: t in r <==> t in tasks && t.month == month && t.day == day
    ensures forall t :: multiset(r)[t] == if t.month == month && t.day == day then multiset(tasks)[t] else 0
  {
    FilterMultiset(tasks, OnDay(month, day));
    forall t ensures t in r <==> t in tasks && t.month == month && t.day == day {
      assert t in r <==> multiset(r)[t] > 0;
      assert t in tasks <==> multiset(tasks)[t] > 0;
    }
  }

  lemma ImportantFirst(yes: seq<Task>, no: seq<Task>)
    requires forall t :: t in yes ==> IsImportant(t)
    requires forall t :: t in no ==> !IsImportant(t)
    ensures var r := yes + no;
      forall i, j :: 0 <= i < j < |r| && r[j].isImportant ==> r[i].isImportant
  {
    var r := yes + no;
    forall k | 0 <= k < |yes| ensures r[k].isImportant {
      assert r[k] in yes;
    }
    forall k | |yes| <= k < |r| ensures !r[k].isImportant {
      assert r[k] in no;
    }
  }

  /** Stable: within the important tasks, and within the others, the query
      keeps the order they have in the store. */
  lemma {:induction false} QueryIsStable(tasks: seq<Task>, month: Month, day: int)
    ensures Filter(Query(tasks, month, day), IsImportant) == Filter(TasksOn(tasks, month, day), IsImportant)
    ensures Filter(Query(tasks, month, day), Not(IsImportant)) == Filter(TasksOn(tasks, month, day), Not(IsImportant))
  {
    var onDay := TasksOn(tasks, month, day);
    SortedIsPartition(onDay, IsImportant);
    PartitionRefilters(onDay, IsImportant);
  }

  /** Adding a task adds it to the query of its own day, and of no other. */
  lemma QueryAfterAdd(tasks: seq<Task>, task: Task, month: Month, day: int)
    ensures multiset(Query(tasks + [task], month, day)) ==
      multiset(Query(tasks, month, day)) + if task.month == month && task.day == day then multiset{task} else multiset{}
  {
    QueryIsDayReordered(tasks, month, day);
    QueryIsDayReordered(tasks + [task], month, day);
    FilterSnoc(tasks, task, OnDay(month, day));
  }

  /** The query reorders the day's tasks and nothing more. */
  lemma QueryIsDayReordered(tasks: seq<Task>, month: Month, day: int)
    ensures multiset(Query(tasks, month, day)) == multiset(TasksOn(tasks, month, day))
  {
    var onDay := TasksOn(tasks, month, day);
    SortedIsPartition(onDay, IsImportant);
    PartitionMultiset(onDay, IsImportant);
  }

  /** Two tasks on March 5, the unimportant one added first: the important
      one is listed first. */
  lemma PayBillsThenBirthday()
    ensures var payBills := Task("Pay bills", "", false, March, 5);
      var birthday := Task("Birthday", "", true, March, 5);
      Query([payBills, birthday], March, 5) == [birthday, payBills]
  {
    var payBills := Task("Pay bills", "", false, March, 5);
    var birthday := Task("Birthday", "", true, March, 5);
    PayBillsFilters(payBills, birthday);
    SortedIsPartition([payBills, birthday], IsImportant);
  }

  // The filters the query applies, worked out for the two tasks above.
  lemma PayBillsFilters(payBills: Task, birthday: Task)
    requires payBills == Task("Pay bills", "", false, March, 5)
    requires birthday == Task("Birthday", "", true, March, 5)
    ensures TasksOn([payBills, birthday], March, 5) == [payBills, birthday]
    ensures Filter([payBills, birthday], IsImportant) == [birthday]
    ensures Filter([payBills, birthday], Not(IsImportant)) == [payBills]
  {
    var onDay, tail := [payBills, birthday], [birthday];
    assert onDay[0] == payBills && onDay[1..] == tail && tail[0] == birthday && tail[1..] == [];
    var day, ordinary := OnDay(March, 5), Not(IsImportant);
    assert !IsImportant(payBills) && IsImportant(birthday);
    assert ordinary(payBills) == !IsImportant(payBills);
    assert ordinary(birthday) == !IsImportant(birthday);
    assert day(payBills) && day(birthday);
    assert Filter(tail, day) == tail;
    assert Filter(tail, IsImportant) == tail;
    assert Filter(tail, ordinary) == [];
  }
}
