/** The edit-task screen: it opens on the task with the given id, edits a
    copy of seven of its fields, and saves that copy with `updateTask`. */
module EditTask {
  import opened Domain
  import opened Text
  import Lists
  import Checklists
  import opened Tasks

  /** The text fields and drop-downs of the form; the tags are one
      comma-separated text. */
  datatype EditFields = EditFields(
    title: string,
    description: string,
    priority: Priority,
    tags: string,
    dueDate: string,
    status: TaskStatus)

  datatype EditState = EditState(task: Task, fields: EditFields, checklist: seq<ChecklistItem>, newItemText: string)

  /** The form as it opens on `t`: its fields, its tags joined by commas,
      its checklist. */
  function InitialEdit(t: Task): EditState
  {
    EditState(t, EditFields(t.title, t.description, t.priority, Join(t.tags), t.dueDate, t.status), t.checklist, "")
  }

  /** `tasks.find { it.id == taskId }`: the form for the first task with that
      id, or the "not found" screen. */
  function EditorFor(tasks: seq<Task>, taskId: int): (r: Option<EditState>)
    ensures r.None? <==> forall t :: t in tasks ==> t.id != taskId
    ensures r.Some? ==> r.value.task in tasks && r.value.task.id == taskId && r.value == InitialEdit(r.value.task)
    ensures r.Some? ==> exists i :: 0 <= i < |tasks| && tasks[i] == r.value.task && forall j :: 0 <= j < i ==> tasks[j].id != taskId
  {
    FindTaskFirst(tasks, taskId);
    match FindTask(tasks, taskId)
    case None => None
    case Some(t) => Some(InitialEdit(t))
  }

  /** The copy the save button sends: the seven form fields replace the
      task's, the tag text is parsed again. */
  function Updated(e: EditState): Task
  {
    e.task.(title := e.fields.title, description := e.fields.description, priority := e.fields.priority,
            tags := ParseTags(e.fields.tags), dueDate := e.fields.dueDate, status := e.fields.status,
            checklist := e.checklist)
  }

  /** Saving changes only what the form shows: the id, team, parent,
      assignee, attachments, recurrence, reminders, order and weight stay
      as they were, and the tags sent are well formed. */
  lemma UpdatedKeepsTheRest(e: EditState)
    ensures var u := Updated(e);
      u.id == e.task.id && u.isTeamTask == e.task.isTeamTask && u.teamId == e.task.teamId &&
      u.parentTaskId == e.task.parentTaskId && u.assignedTo == e.task.assignedTo &&
      u.attachments == e.task.attachments && u.isRecurring == e.task.isRecurring &&
      u.recurringType == e.task.recurringType && u.recurringOnDays == e.task.recurringOnDays &&
      u.recurringEndDate == e.task.recurringEndDate && u.reminderSettings == e.task.reminderSettings &&
      u.order == e.task.order && u.weight == e.task.weight && u.isDeleted == e.task.isDeleted &&
      WellFormedTags(u.tags)
  {
    ParseTagsWellFormed(e.fields.tags);
  }

  /** Opening the form and saving it untouched sends the task back as it
      was, provided its tags are ones the tag text can carry (non-empty,
      trimmed, without commas). */
  lemma UntouchedSaveIsIdentity(t: Task)
    requires WellFormedTags(t.tags)
    ensures Updated(InitialEdit(t)) == t
  {
    ParseJoinedTags(t.tags);
  }

  /** A tag holding a comma comes back split in two from an untouched save. */
  lemma CommaTagIsSplit()
    ensures ParseTags(Join(["a,b"])) == ["a", "b"]
  {
    assert Join(["a,b"]) == "a,b";
    assert Split("a,b") == ["a", "b"] by {
      SplitNoComma("b");
      SplitAfterPiece("a", "b");
    }
    assert TrimAndDropEmpty(["b"]) == ["b"] by {
      TrimOfTrimmed("b");
    }
    TrimOfTrimmed("a");
    assert ["a", "b"][1..] == ["b"];
  }

  /** The save button checks only the due date; unlike the create form it
      does not refuse a blank title. */
  function SaveRejection(e: EditState, parseDate: string -> Option<int>): (r: Option<Notice>)
    ensures r.None? <==> parseDate(e.fields.dueDate).Some?
    ensures r.Some? ==> r.value == InvalidDateFormat
  {
    if parseDate(e.fields.dueDate).None? then Some(InvalidDateFormat) else None
  }

  /** After a successful save the list holds the edited copy in place of
      the task. */
  lemma SaveReplacesTask(s: VmState, e: EditState)
    requires FindTask(s.tasks, e.task.id).Some?
    ensures FindTask(UpdateTaskStep(s, Updated(e), true).tasks, e.task.id) == Some(Updated(e))
  {
    FindTaskAfterEdit(s.tasks, e.task.id, SetTo(Updated(e)));
  }

  class EditTaskForm {
    var task: Task
    var fields: EditFields
    var checklist: seq<ChecklistItem>
    var newItemText: string

    function State(): EditState
      reads this
    {
      EditState(task, fields, checklist, newItemText)
    }

    constructor (t: Task)
      ensures State() == InitialEdit(t)
    {
      task := t;
      fields := EditFields(t.title, t.description, t.priority, Join(t.tags), t.dueDate, t.status);
      checklist := t.checklist;
      newItemText := "";
    }

    /** Typing into a field or picking from a drop-down. */
    method EditFieldsTo(f: EditFields)
      modifies this
      ensures State() == old(State()).(fields := f)
    {
      fields := f;
    }

    /** The checkbox of row `index`. */
    method SetItemCompleted(index: int, done: bool)
      requires 0 <= index < |checklist|
      modifies this
      ensures State() == old(State()).(checklist := Checklists.WithCompleted(old(checklist), index, done))
    {
      checklist := Checklists.WithCompleted(checklist, index, done);
    }

    method RemoveItem(index: int)
      requires 0 <= index < |checklist|
      modifies this
      ensures State() == old(State()).(checklist := Lists.RemoveAt(old(checklist), index))
    {
      checklist := Lists.RemoveAt(checklist, index);
    }

    method AddItem()
      modifies this
      ensures State() == old(State()).(checklist := Checklists.WithNewItem(old(checklist), old(newItemText)),
                                       newItemText := Checklists.FieldAfterAdd(old(newItemText)))
    {
      checklist := Checklists.WithNewItem(checklist, newItemText);
      newItemText := Checklists.FieldAfterAdd(newItemText);
    }

    /** The save button: with a due date that parses, the copy goes to
        `updateTask` and the screen closes whatever the server answers;
        otherwise only the message is set and the screen stays. */
    method Save(vm: TaskViewModel, parseDate: string -> Option<int>, success: bool) returns (closes: bool)
      modifies vm
      ensures closes <==> SaveRejection(State(), parseDate).None?
      ensures closes ==> vm.State() == UpdateTaskStep(old(vm.State()), Updated(State()), success)
      ensures !closes ==> vm.State() == old(vm.State()).(errorMessage := InvalidDateFormat)
    {
      if parseDate(fields.dueDate).Some? {
        vm.UpdateTask(Updated(State()), success);
        closes := true;
      } else {
        vm.errorMessage := InvalidDateFormat;
        closes := false;
      }
    }
  }
}
