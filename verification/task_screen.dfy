/** The task list screen: which tasks and sub-tasks it shows, which actions it
    offers, and the dialog that creates a sub-task. */
module TaskScreen {
  import opened Domain
  import opened Text
  import Lists
  import Checklists
  import Progress
  import opened Tasks

  // ----- what the list shows -----

  /** The main list: the tasks that are not done and have no parent. */
  function RootTasks(tasks: seq<Task>): (r: seq<Task>)
    ensures forall t :: t in r <==> t in tasks && t.status != Done && t.parentTaskId.None?
    ensures Lists.IsSubsequence(r, tasks)
  {
    Lists.FilterIsSubsequence(tasks, (t: Task) => t.status != Done && t.parentTaskId.None?);
    Lists.Filter(tasks, (t: Task) => t.status != Done && t.parentTaskId.None?)
  }

  /** The sub-task rows under a task: its children that are not deleted. */
  function VisibleSubTasks(tasks: seq<Task>, parentId: int): (r: seq<Task>)
    ensures forall t :: t in r <==> t in tasks && t.parentTaskId == Some(parentId) && !t.isDeleted
  {
    Lists.Filter(tasks, (t: Task) => t.parentTaskId == Some(parentId) && !t.isDeleted)
  }

  /** The rows are the children the progress figure counts, minus the
      deleted ones, in the same order. */
  lemma {:induction false} VisibleSubTasksAreLiveChildren(tasks: seq<Task>, parentId: int)
    ensures VisibleSubTasks(tasks, parentId) == Lists.Filter(Progress.Children(tasks, parentId), (t: Task) => !t.isDeleted)
  {
    if |tasks| > 0 {
      VisibleSubTasksAreLiveChildren(tasks[1..], parentId);
    }
  }

  /** Whether the progress bar is shown: some task names this one as parent. */
  predicate IsParentTask(tasks: seq<Task>, id: int)
  {
    exists t :: t in tasks && t.parentTaskId == Some(id)
  }

  /** The bar is shown exactly when the task has children, deleted or not, so
      a task whose sub-tasks are all deleted shows a bar and no rows. */
  lemma ParentTaskHasChildren(tasks: seq<Task>, id: int)
    ensures IsParentTask(tasks, id) <==> |Progress.Children(tasks, id)| > 0
    ensures |VisibleSubTasks(tasks, id)| > 0 ==> IsParentTask(tasks, id)
  {
    var c := Progress.Children(tasks, id);
    if |c| > 0 {
      assert c[0] in c;
    }
    var v := VisibleSubTasks(tasks, id);
    if |v| > 0 {
      assert v[0] in v;
    }
  }

  /** The attachment rows: the ones not deleted. */
  function VisibleAttachments(task: Task): (r: seq<Attachment>)
    ensures forall a :: a in r <==> a in task.attachments && !a.isDeleted
  {
    Lists.Filter(task.attachments, (a: Attachment) => !a.isDeleted)
  }

  /** Whether the permission button is shown next to an attachment: the task
      is a team task and the current user is an admin of its team. */
  predicate ShowsPermissionButton(task: Task, teams: seq<Team>, currentUserId: Option<int>)
  {
    task.isTeamTask && task.teamId.Some? &&
    match FindTeam(teams, task.teamId.value)
    case None => false
    case Some(team) => RoleOf(team, currentUserId) == Some(ADMIN)
  }

  /** Whoever sees the permission button may also modify the task (and so
      sees its menu and the delete buttons). */
  lemma PermissionButtonMeansCanModify(task: Task, teams: seq<Team>, currentUserId: Option<int>)
    requires ShowsPermissionButton(task, teams, currentUserId)
    ensures Progress.CanModify(task, teams, currentUserId)
  {
  }

  // ----- the sub-task dialog -----

  /** `weight = text.toIntOrNull() ?: 1`. */
  function SubTaskWeight(text: string): (w: int)
    ensures INT_MIN <= w <= INT_MAX
  {
    match ToIntOrNull(text)
    case Some(n) => n
    case None => 1
  }

  /** A weight typed as a 32-bit integer is kept; text without a digit
      falls back to 1. */
  lemma SubTaskWeightOfText(n: int, s: string)
    requires INT_MIN <= n <= INT_MAX
    requires forall i :: 0 <= i < |s| ==> !IsDigit(s[i])
    ensures SubTaskWeight(ShowInt(n)) == n
    ensures SubTaskWeight(s) == 1
  {
    ParseShowInt(n, INT_MIN, INT_MAX);
    NoDigitNoInteger(s, INT_MIN, INT_MAX);
  }

  /** The task the dialog hands to `createSubTask`. */
  function SubTaskOf(parent: Task, title: string, description: string, weight: string,
                     checklist: seq<ChecklistItem>): Task
  {
    NewTask(0, title, description, Low, [], Todo, parent.dueDate, 0).(
      weight := SubTaskWeight(weight), checklist := checklist)
  }

  /** What reaches the server for a confirmed dialog: the typed title,
      description and checklist, priority LOW, no tags, TODO, the parent's
      due date and team, a pointer to the parent, and the list's size as
      order. */
  lemma SubTaskRequestInherits(parent: Task, title: string, description: string, weight: string,
                               checklist: seq<ChecklistItem>, n: int)
    ensures var r := SubTaskRequest(parent, parent.id, SubTaskOf(parent, title, description, weight, checklist), n);
      r.title == title && r.description == description && r.checklist == checklist &&
      r.priority == Low && r.tags == [] && r.status == Todo &&
      r.dueDate == parent.dueDate && r.isTeamTask == parent.isTeamTask && r.teamId == parent.teamId &&
      r.parentTaskId == Some(parent.id) && r.order == n && r.weight == SubTaskWeight(weight) &&
      !r.isDeleted && r.attachments == [] && r.assignedTo.None?
  {
  }

  /** A sub-task the server accepts appears among its parent's rows and not
      in the main list, and its parent now shows a progress bar. */
  lemma ConfirmedSubTaskShowsUnderParent(s: VmState, parent: Task, sub: Task, created: Task)
    requires FindTask(s.tasks, parent.id).Some?
    requires created.parentTaskId == Some(parent.id) && !created.isDeleted
    ensures var s' := CreateSubTaskStep(s, parent.id, sub, true, Some(created));
      created in VisibleSubTasks(s'.tasks, parent.id) && IsParentTask(s'.tasks, parent.id) &&
      created !in RootTasks(s'.tasks)
  {
    var s' := CreateSubTaskStep(s, parent.id, sub, true, Some(created));
    assert created in s'.tasks;
  }

  /** The dialog's state variables. */
  datatype DialogState = DialogState(
    showDialog: bool,
    parent: Option<Task>,
    title: string,
    description: string,
    weight: string,
    checklist: seq<ChecklistItem>,
    newItemText: string)

  /** Closed and empty, with weight "1": the start and the reset state. */
  const ClosedDialog: DialogState := DialogState(false, None, "", "", "1", [], "")

  class SubTaskDialog {
    var showDialog: bool
    var parent: Option<Task>
    var title: string
    var description: string
    var weight: string
    var checklist: seq<ChecklistItem>
    var newItemText: string

    constructor ()
      ensures State() == ClosedDialog
    {
      showDialog, parent, title, description := false, None, "", "";
      weight, checklist, newItemText := "1", [], "";
    }

    function State(): DialogState
      reads this
    {
      DialogState(showDialog, parent, title, description, weight, checklist, newItemText)
    }

    /** "添加子任务" in a task's menu: the dialog opens for that task. */
    method OpenFor(task: Task)
      modifies this
      ensures State() == old(State()).(parent := Some(task), showDialog := true)
    {
      parent := Some(task);
      showDialog := true;
    }

    /** Dismissing or cancelling closes the dialog and keeps what was typed. */
    method Dismiss()
      modifies this
      ensures State() == old(State()).(showDialog := false)
    {
      showDialog := false;
    }

    /** The delete button of checklist row `index`. */
    method RemoveItem(index: int)
      requires 0 <= index < |checklist|
      modifies this
      ensures State() == old(State()).(checklist := Lists.RemoveAt(old(checklist), index))
    {
      checklist := Lists.RemoveAt(checklist, index);
    }

    /** The add button of the checklist. */
    method AddItem()
      modifies this
      ensures State() == old(State()).(checklist := Checklists.WithNewItem(old(checklist), old(newItemText)),
                                       newItemText := Checklists.FieldAfterAdd(old(newItemText)))
    {
      checklist := Checklists.WithNewItem(checklist, newItemText);
      newItemText := Checklists.FieldAfterAdd(newItemText);
    }

    /** "确认": with a title, the sub-task goes to `createSubTask` and the
        dialog is reset; with a blank title only the error message is set and
        the dialog stays as it is. */
    method Confirm(vm: TaskViewModel, success: bool, created: Option<Task>)
      requires showDialog && parent.Some?
      modifies this, vm
      ensures !IsBlank(old(title)) ==>
        (State() == ClosedDialog && vm.State() == CreateSubTaskStep(
          old(vm.State()), old(parent.value.id),
          SubTaskOf(old(parent.value), old(title), old(description), old(weight), old(checklist)), success, created))
      ensures IsBlank(old(title)) ==>
        (State() == old(State()) && vm.State() == old(vm.State()).(errorMessage := SubTaskTitleBlank))
    {
      if !IsBlank(title) {
        var sub := SubTaskOf(parent.value, title, description, weight, checklist);
        var _ := vm.CreateSubTask(parent.value.id, sub, success, created);
        showDialog := false;
        title, description, weight := "", "", "1";
        checklist, newItemText := [], "";
        parent := None;
      } else {
        vm.errorMessage := SubTaskTitleBlank;
      }
    }
  }

  // ----- the sub-task row's checkbox -----

  /** Ticking marks the sub-task completed; unticking sends a copy with the
      status set back to TODO. */
  method SubTaskCheckedChange(vm: TaskViewModel, task: Task, checked: bool, success: bool)
    modifies vm
    ensures vm.State() == if checked then MarkCompletedStep(old(vm.State()), task, success)
                          else UpdateTaskStep(old(vm.State()), task.(status := Todo), success)
  {
    if checked {
      vm.MarkTaskAsCompleted(task, success);
    } else {
      vm.UpdateTask(task.(status := Todo), success);
    }
  }

  /** Ticking and then unticking a listed sub-task gives it status TODO with
      every other field as the row had it. */
  lemma TickThenUntick(s: VmState, task: Task)
    requires FindTask(s.tasks, task.id) == Some(task)
    ensures var s1 := MarkCompletedStep(s, task, true);
      var s2 := UpdateTaskStep(s1, FindTask(s1.tasks, task.id).value.(status := Todo), true);
      FindTask(s1.tasks, task.id) == Some(task.(status := Done)) &&
      FindTask(s2.tasks, task.id) == Some(task.(status := Todo))
  {
    var s1 := MarkCompletedStep(s, task, true);
    FindTaskAfterEdit(s.tasks, task.id, MarkDone);
    var t1 := task.(status := Done).(status := Todo);
    FindTaskAfterEdit(s1.tasks, task.id, SetTo(t1));
  }
}
