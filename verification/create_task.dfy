/** The new-task form: its fields and their edits, the checks the create
    button makes in order, and the task it assembles for `createTask`. */
module CreateTask {
  import opened Domain
  import opened Text
  import Lists
  import Checklists
  import Calendar
  import opened Tasks
  import Reminders

  // ----- the form -----

  /** The first cards of the form: basic information, attributes and team. */
  datatype BasicFields = BasicFields(
    title: string,
    description: string,
    priority: Priority,
    tags: string,
    status: TaskStatus,
    dueDate: string,
    isTeamTask: bool,
    selectedTeamId: Option<int>)

  /** The recurrence card. `onDays` holds the ticked weekdays (1 = Monday)
      in the order they were ticked, as the form's insertion-ordered set. */
  datatype RecurrenceFields = RecurrenceFields(
    isRecurring: bool,
    recurringType: RecurringType,
    onDays: seq<int>,
    endDateText: string)

  /** A `LocalTime` picked with the time picker. */
  datatype ClockTime = ClockTime(hour: int, minute: int)

  predicate ValidClockTime(t: ClockTime) { 0 <= t.hour < 24 && 0 <= t.minute < 60 }

  /** The reminder card. The reminder methods are always `{IN_APP}`: the
      form has no control that changes them. */
  datatype ReminderFields = ReminderFields(
    remindAtTimes: seq<string>,
    newRemindAtTime: string,
    dailyReminderTime: Option<ClockTime>,
    remindOnAppOpen: bool)

  const REMINDER_METHODS: seq<ReminderMethod> := [InApp]

  datatype FormState = FormState(
    basics: BasicFields,
    checklist: seq<ChecklistItem>,
    newItemText: string,
    recurrence: RecurrenceFields,
    reminders: ReminderFields)

  /** What the form's edits keep: the ticked weekdays are distinct numbers
      1 to 7, the daily time is a time of day, and no reminder offset is
      listed twice. */
  predicate Consistent(f: FormState)
  {
    Lists.NoDuplicates(f.recurrence.onDays) &&
    (forall d :: d in f.recurrence.onDays ==> 1 <= d <= 7) &&
    (f.reminders.dailyReminderTime.Some? ==> ValidClockTime(f.reminders.dailyReminderTime.value)) &&
    Lists.NoDuplicates(f.reminders.remindAtTimes)
  }

  /** The form as it opens: everything empty, priority LOW, status TODO, due
      tomorrow, weekly recurrence, reminders a day and an hour before. */
  function InitialForm(today: Calendar.Date): (f: FormState)
    requires Calendar.Valid(today)
    ensures Consistent(f)
  {
    FormState(
      BasicFields("", "", Low, "", Todo, Calendar.IsoDate(Calendar.NextDay(today)), false, None),
      [], "",
      RecurrenceFields(false, Weekly, [], ""),
      ReminderFields(["1d", "1h"], "", None, false))
  }

  // ----- edits that keep the form consistent -----

  /** A weekday chip: ticking appends the day, unticking removes it. */
  function ToggledDays(days: seq<int>, day: int): (r: seq<int>)
    requires Lists.NoDuplicates(days)
    ensures Lists.NoDuplicates(r)
    ensures forall d :: d in r <==> (d in days && d != day) || (d == day && day !in days)
  {
    if day in days then
      var r := Lists.RemoveFirst(days, day);
      Lists.RemoveFirstDistinct(days, day);
      r
    else days + [day]
  }

  /** Ticking a day that was not ticked and unticking it again restores the
      list; unticking a ticked day and ticking it again keeps the same days
      but moves that day to the end of the list the task is sent with. */
  lemma ToggleDayTwice(days: seq<int>, day: int)
    requires Lists.NoDuplicates(days)
    ensures day !in days ==> ToggledDays(ToggledDays(days, day), day) == days
    ensures day in days ==> var r := ToggledDays(ToggledDays(days, day), day);
      (forall d :: d in r <==> d in days) && r[|r| - 1] == day
  {
    if day !in days {
      Lists.RemoveFirstAfterAppend(days, day);
    }
  }

  /** The add button of the reminder offsets: a text that is not blank and
      not yet listed is appended (untrimmed). */
  function WithReminderTime(times: seq<string>, text: string): (r: seq<string>)
    requires Lists.NoDuplicates(times)
    ensures Lists.NoDuplicates(r)
    ensures forall x :: x in r <==> x in times || (x == text && !IsBlank(text))
  {
    if !IsBlank(text) && text !in times then times + [text] else times
  }

  /** An offset added and then removed with its chip leaves the list as it
      was. */
  lemma AddThenRemoveReminderTime(times: seq<string>, text: string)
    requires Lists.NoDuplicates(times) && text !in times && !IsBlank(text)
    ensures Lists.RemoveFirst(WithReminderTime(times, text), text) == times
  {
    Lists.RemoveFirstAfterAppend(times, text);
  }

  // ----- submission -----

  /** The create button's checks, in order: a blank title, a team task with
      no team chosen, a due date `LocalDate.parse` rejects. */
  function SubmitRejection(b: BasicFields, parseDate: string -> Option<int>): (r: Option<Notice>)
    ensures r == Some(TitleBlank) <==> IsBlank(b.title)
    ensures r == Some(TeamNotChosen) <==> !IsBlank(b.title) && b.isTeamTask && b.selectedTeamId.None?
    ensures r == Some(InvalidDateFormat) <==>
      !IsBlank(b.title) && !(b.isTeamTask && b.selectedTeamId.None?) && parseDate(b.dueDate).None?
    ensures r.None? <==>
      !IsBlank(b.title) && !(b.isTeamTask && b.selectedTeamId.None?) && parseDate(b.dueDate).Some?
  {
    if IsBlank(b.title) then Some(TitleBlank)
    else if b.isTeamTask && b.selectedTeamId.None? then Some(TeamNotChosen)
    else if parseDate(b.dueDate).None? then Some(InvalidDateFormat)
    else None
  }

  /** `DateTimeFormatter.ofPattern("HH:mm")`. */
  function FormatClockTime(t: ClockTime): (s: string)
    requires ValidClockTime(t)
    ensures |s| == 5 && s[2] == ':'
  {
    Calendar.Digits2(t.hour) + ":" + Calendar.Digits2(t.minute)
  }

  /** Two different times are formatted differently. */
  lemma FormatClockTimeInjective(t1: ClockTime, t2: ClockTime)
    requires ValidClockTime(t1) && ValidClockTime(t2) && FormatClockTime(t1) == FormatClockTime(t2)
    ensures t1 == t2
  {
    var s1, s2 := FormatClockTime(t1), FormatClockTime(t2);
    assert Calendar.Digits2(t1.hour) == s1[..2] && Calendar.Digits2(t2.hour) == s2[..2];
    assert Calendar.Digits2(t1.minute) == s1[3..] && Calendar.Digits2(t2.minute) == s2[3..];
  }

  /** The task the create button builds; `order` is the current list size. */
  function TaskOf(f: FormState, order: int): Task
    requires Consistent(f)
  {
    var b := f.basics;
    var rec := f.recurrence;
    var rem := f.reminders;
    NewTask(0, b.title, b.description, b.priority, ParseTags(b.tags), b.status, b.dueDate, order).(
      teamId := if b.isTeamTask then b.selectedTeamId else None,
      isTeamTask := b.isTeamTask,
      checklist := f.checklist,
      isRecurring := rec.isRecurring,
      recurringType := if rec.isRecurring then Some(rec.recurringType) else None,
      recurringOnDays := if rec.isRecurring && |rec.onDays| > 0 then Some(rec.onDays) else None,
      recurringEndDate := if IsBlank(rec.endDateText) then None else Some(rec.endDateText),
      reminderSettings := Some(ReminderSettings(
        REMINDER_METHODS, rem.remindAtTimes,
        match rem.dailyReminderTime case None => None case Some(t) => Some(FormatClockTime(t)),
        rem.remindOnAppOpen)))
  }

  /** What the assembled task says about the form: the recurrence fields are
      set exactly when the task recurs (the days only when some are ticked),
      the team exactly for a team task, the tags are well formed, and the
      task is a new, top-level, unassigned one of weight 1. */
  lemma TaskOfMeaning(f: FormState, order: int)
    requires Consistent(f)
    ensures var t := TaskOf(f, order);
      t.id == 0 && t.order == order && t.title == f.basics.title && t.dueDate == f.basics.dueDate &&
      (t.recurringType.Some? <==> f.recurrence.isRecurring) &&
      (t.recurringOnDays.Some? <==> f.recurrence.isRecurring && |f.recurrence.onDays| > 0) &&
      (t.recurringOnDays.Some? ==> forall d :: d in t.recurringOnDays.value ==> 1 <= d <= 7) &&
      (t.teamId.Some? <==> f.basics.isTeamTask && f.basics.selectedTeamId.Some?) &&
      (t.recurringEndDate.None? <==> IsBlank(f.recurrence.endDateText)) &&
      WellFormedTags(t.tags) &&
      t.parentTaskId.None? && t.assignedTo.None? && t.weight == 1 && !t.isDeleted &&
      t.reminderSettings.Some? && t.reminderSettings.value.reminderMethods == [InApp] &&
      (t.reminderSettings.value.dailyReminderTime.Some? <==> f.reminders.dailyReminderTime.Some?)
  {
    ParseTagsWellFormed(f.basics.tags);
  }

  /** A task that passes the checks is a personal task or names a team. */
  lemma AcceptedTeamTaskNamesTeam(f: FormState, order: int, parseDate: string -> Option<int>)
    requires Consistent(f) && SubmitRejection(f.basics, parseDate).None?
    ensures TaskOf(f, order).isTeamTask ==> TaskOf(f, order).teamId.Some?
  {
  }

  /** A freshly opened form needs only a title: its due date is tomorrow in
      ISO form, which the date parser accepts. */
  lemma FreshFormNeedsOnlyTitle(today: Calendar.Date, title: string, parseDate: string -> Option<int>)
    requires Calendar.Valid(today)
    requires parseDate(Calendar.IsoDate(Calendar.NextDay(today))).Some?
    ensures SubmitRejection(InitialForm(today).basics.(title := title), parseDate).None? <==> !IsBlank(title)
  {
  }

  class CreateTaskForm {
    var basics: BasicFields
    var checklist: seq<ChecklistItem>
    var newItemText: string
    var recurrence: RecurrenceFields
    var reminders: ReminderFields

    function State(): FormState
      reads this
    {
      FormState(basics, checklist, newItemText, recurrence, reminders)
    }

    constructor (today: Calendar.Date)
      requires Calendar.Valid(today)
      ensures State() == InitialForm(today)
    {
      var f := InitialForm(today);
      basics, checklist, newItemText, recurrence, reminders := f.basics, f.checklist, f.newItemText, f.recurrence, f.reminders;
    }

    /** Typing into a text field, picking from a drop-down, ticking the team
        box or picking a team: the first cards take the new values. */
    method EditBasics(b: BasicFields)
      modifies this
      ensures State() == old(State()).(basics := b)
    {
      basics := b;
    }

    method RemoveItem(index: int)
      requires 0 <= index < |checklist|
      modifies this
      ensures State() == old(State()).(checklist := Lists.RemoveAt(old(checklist), index))
    {
      checklist := Lists.RemoveAt(checklist, index);
    }

    method AddItem()
      modifies this
      ensures State() == old(State()).(checklist := Checklists.WithNewItem(old(checklist), old(newItemText)),
                                       newItemText := Checklists.FieldAfterAdd(old(newItemText)))
    {
      checklist := Checklists.WithNewItem(checklist, newItemText);
      newItemText := Checklists.FieldAfterAdd(newItemText);
    }

    /** The chip of weekday `index` (0 = Monday) stands for day `index + 1`. */
    method ToggleWeekday(index: int)
      requires 0 <= index < 7 && Consistent(State())
      modifies this
      ensures Consistent(State())
      ensures State() == old(State()).(recurrence := old(recurrence).(onDays := ToggledDays(old(recurrence.onDays), index + 1)))
    {
      recurrence := recurrence.(onDays := ToggledDays(recurrence.onDays, index + 1));
    }

    /** The recurrence switch. */
    method SetRecurring(on: bool)
      modifies this
      ensures State() == old(State()).(recurrence := old(recurrence).(isRecurring := on))
    {
      recurrence := recurrence.(isRecurring := on);
    }

    /** The end-date picker's confirm button with a date picked. */
    method PickEndDate(d: Calendar.Date)
      requires Calendar.Valid(d)
      modifies this
      ensures State() == old(State()).(recurrence := old(recurrence).(endDateText := Calendar.IsoDate(d)))
    {
      recurrence := recurrence.(endDateText := Calendar.IsoDate(d));
    }

    /** The close icon of a reminder chip removes that offset. */
    method RemoveReminderTime(time: string)
      requires Consistent(State())
      modifies this
      ensures Consistent(State())
      ensures State() == old(State()).(reminders := old(reminders).(remindAtTimes := Lists.RemoveFirst(old(reminders.remindAtTimes), time)))
    {
      Lists.RemoveFirstDistinct(reminders.remindAtTimes, time);
      reminders := reminders.(remindAtTimes := Lists.RemoveFirst(reminders.remindAtTimes, time));
    }

    /** The add button of the reminder offsets; the field is cleared only
        when the offset was added. */
    method AddReminderTime()
      requires Consistent(State())
      modifies this
      ensures Consistent(State())
      ensures var text := old(reminders.newRemindAtTime);
        var added := !IsBlank(text) && text !in old(reminders.remindAtTimes);
        State() == old(State()).(reminders := old(reminders).(
          remindAtTimes := WithReminderTime(old(reminders.remindAtTimes), text),
          newRemindAtTime := if added then "" else text))
    {
      var text := reminders.newRemindAtTime;
      if !IsBlank(text) && text !in reminders.remindAtTimes {
        reminders := reminders.(remindAtTimes := reminders.remindAtTimes + [text], newRemindAtTime := "");
      }
    }

    /** The time picker's callback, and the switch turned off. */
    method SetDailyReminderTime(t: Option<ClockTime>)
      requires Consistent(State()) && (t.Some? ==> ValidClockTime(t.value))
      modifies this
      ensures Consistent(State())
      ensures State() == old(State()).(reminders := old(reminders).(dailyReminderTime := t))
    {
      reminders := reminders.(dailyReminderTime := t);
    }

    /** The create button. A rejected form only sets the message and
        returns; an accepted one goes to `createTask` with the list's size as
        order and then compares the message with the success one. The
        comparison runs when `createTask` has only launched its request, so
        it sees the message from before the request. `scheduled` is the alarm
        plan `createTask` registers for the created task. */
    method Submit(vm: TaskViewModel, parseDate: string -> Option<int>, success: bool, created: Option<Task>,
                  parseTime: string -> Option<(int, int)>, now: int, exactAllowed: bool)
      returns (closes: bool, scheduled: seq<Reminders.Alarm>)
      requires Consistent(State())
      modifies vm
      ensures var r := SubmitRejection(basics, parseDate);
        (r.Some? ==> vm.State() == old(vm.State()).(errorMessage := r.value)) &&
        (r.None? ==> vm.State() == CreateTaskStep(old(vm.State()), TaskOf(State(), |old(vm.tasks)|), success, created))
      ensures closes == SubmitCloses(old(vm.State()), State(), parseDate)
      ensures scheduled ==
        if SubmitRejection(basics, parseDate).None? && success && created.Some?
        then Reminders.SchedulePlan(created.value, parseDate, parseTime, now, exactAllowed)
        else []
    {
      var rejection := SubmitRejection(basics, parseDate);
      if rejection.Some? {
        vm.errorMessage := rejection.value;
        closes := false;
        scheduled := [];
      } else {
        closes := vm.errorMessage == TaskCreated;
        scheduled := vm.CreateTask(TaskOf(State(), |vm.tasks|), success, created, parseDate, parseTime, now, exactAllowed);
      }
    }
  }

  /** Whether the create button closes the screen as written: an accepted
      form closes it when the message before the request is the success one. */
  predicate SubmitCloses(s: VmState, f: FormState, parseDate: string -> Option<int>)
  {
    SubmitRejection(f.basics, parseDate).None? && s.errorMessage == TaskCreated
  }

  /** The closing decision as written ignores the request's outcome: after an
      earlier success a failed request closes the screen, and otherwise a
      created task leaves it open. */
  lemma SubmitClosesOnStaleMessage(s: VmState, f: FormState, parseDate: string -> Option<int>,
                                   success: bool, created: Option<Task>)
    requires Consistent(f) && SubmitRejection(f.basics, parseDate).None?
    ensures var s' := CreateTaskStep(s, TaskOf(f, |s.tasks|), success, created);
      (s.errorMessage == TaskCreated && !success ==>
         SubmitCloses(s, f, parseDate) && s'.tasks == s.tasks && s'.errorMessage != TaskCreated) &&
      (s.errorMessage != TaskCreated && success && created.Some? ==>
         !SubmitCloses(s, f, parseDate) && s'.tasks == s.tasks + [created.value] && s'.errorMessage == TaskCreated)
  {
  }

  /** The button as intended: it closes the screen when the message after
      the request is the success one. */
  predicate SubmitClosesIntended(s: VmState, f: FormState, parseDate: string -> Option<int>,
                                 success: bool, created: Option<Task>)
    requires Consistent(f)
  {
    var r := SubmitRejection(f.basics, parseDate);
    var s' := if r.Some? then s.(errorMessage := r.value) else CreateTaskStep(s, TaskOf(f, |s.tasks|), success, created);
    s'.errorMessage == TaskCreated
  }

  /** As intended, the screen closes exactly when the checks pass and the
      server creates the task. */
  lemma SubmitClosesOnlyOnSuccess(s: VmState, f: FormState, parseDate: string -> Option<int>,
                                  success: bool, created: Option<Task>)
    requires Consistent(f)
    ensures SubmitClosesIntended(s, f, parseDate, success, created) <==> SubmitRejection(f.basics, parseDate).None? && success && created.Some?
  {
  }
}
