/** The overdue-tasks screen: which tasks it lists and what its two row
    actions do to the list. */
module Overdue {
  import opened Domain
  import Lists
  import Calendar
  import opened Tasks

  /** The tasks whose due date parses to a day before today and that are not
      done; `parseDate` gives `LocalDate.parse` as an epoch day. */
  function OverdueTasks(tasks: seq<Task>, today: int, parseDate: string -> Option<int>): (r: seq<Task>)
    ensures forall t :: t in r <==>
      t in tasks && t.status != Done && parseDate(t.dueDate).Some? && parseDate(t.dueDate).value < today
    ensures Lists.IsSubsequence(r, tasks)
  {
    var p := (t: Task) => t.status != Done && parseDate(t.dueDate).Some? && parseDate(t.dueDate).value < today;
    Lists.FilterIsSubsequence(tasks, p);
    Lists.Filter(tasks, p)
  }

  /** The screen lists exactly the unfinished tasks the calendar paints in
      its overdue colour, whichever view the calendar is in. */
  lemma OverdueMatchesHighlight(tasks: seq<Task>, today: int, parseDate: string -> Option<int>,
                                mode: Calendar.ViewMode, t: Task)
    ensures t in OverdueTasks(tasks, today, parseDate) <==>
      t in tasks && t.status != Done && Calendar.HighlightOf(t.dueDate, mode, today, parseDate) == Calendar.OverdueColor
  {
    Calendar.HighlightTable(t.dueDate, mode, today, parseDate);
  }

  /** "标记为已完成" on a row: once the server accepts, no task with that
      id is listed any more. */
  lemma CompletedLeavesList(s: VmState, task: Task, today: int, parseDate: string -> Option<int>)
    ensures forall t :: t in OverdueTasks(MarkCompletedStep(s, task, true).tasks, today, parseDate) ==> t.id != task.id
  {
    var ts := MarkCompletedStep(s, task, true).tasks;
    forall t | t in ts && t.id == task.id ensures t.status == Done {
      var i :| 0 <= i < |ts| && ts[i] == t;
    }
  }

  /** "删除" on a row: once the server accepts, no task with that id is
      listed any more; every other overdue task stays listed. */
  lemma DeletedLeavesList(s: VmState, task: Task, now: int, today: int, parseDate: string -> Option<int>)
    ensures var after := OverdueTasks(DeleteTaskStep(s, task, now, true).tasks, today, parseDate);
      (forall t :: t in after ==> t.id != task.id) &&
      (forall t :: t in OverdueTasks(s.tasks, today, parseDate) && t.id != task.id ==> t in after)
  {
  }

  /** A refused action leaves the list as it was. */
  lemma RefusedActionKeepsList(s: VmState, task: Task, now: int, today: int, parseDate: string -> Option<int>)
    ensures OverdueTasks(MarkCompletedStep(s, task, false).tasks, today, parseDate) == OverdueTasks(s.tasks, today, parseDate)
    ensures OverdueTasks(DeleteTaskStep(s, task, now, false).tasks, today, parseDate) == OverdueTasks(s.tasks, today, parseDate)
  {
  }
}
