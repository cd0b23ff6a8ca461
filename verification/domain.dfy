/** The records and enumerations the task-manager client works on.
    Field names follow the client's data classes; strings are `seq<char>`,
    Kotlin's nullable fields are `Option`s. */
module Domain {

  datatype Option<+T> = None | Some(value: T)

  datatype Result<+T, +E> = Ok(value: T) | Err(error: E)

  datatype Role = Admin | Member

  /** Declaration order matters: sorting uses the ordinal. */
  datatype Priority = Lowest | Low | Medium | High | Highest

  datatype TaskStatus = Todo | InProgress | Done | Expired

  datatype RecurringType = Daily | Weekly | Monthly

  datatype ReminderMethod = InApp | FloatWindow | Sms | Email

  /** The role names that team member maps hold as strings. */
  const ADMIN: string := "ADMIN"
  const MEMBER: string := "MEMBER"

  function PriorityOrdinal(p: Priority): (r: nat)
    ensures r <= 4
  {
    match p
    case Lowest => 0
    case Low => 1
    case Medium => 2
    case High => 3
    case Highest => 4
  }

  function RoleName(r: Role): (s: string)
    ensures s == ADMIN || s == MEMBER
  {
    match r
    case Admin => ADMIN
    case Member => MEMBER
  }

  function MethodName(m: ReminderMethod): string
  {
    match m
    case InApp => "IN_APP"
    case FloatWindow => "FLOAT_WINDOW"
    case Sms => "SMS"
    case Email => "EMAIL"
  }

  /** `ReminderMethod.valueOf`: the constant whose name is exactly `s`, if any. */
  function MethodOf(s: string): (r: Option<ReminderMethod>)
    ensures r.Some? ==> MethodName(r.value) == s
    ensures forall m: ReminderMethod :: MethodName(m) == s ==> r == Some(m)
  {
    if s == "IN_APP" then Some(InApp)
    else if s == "FLOAT_WINDOW" then Some(FloatWindow)
    else if s == "SMS" then Some(Sms)
    else if s == "EMAIL" then Some(Email)
    else None
  }

  /** A stored ISO-8601 timestamp string: whether `ZonedDateTime.parse` accepts it,
      and the instant it denotes, in epoch seconds. */
  datatype Stamp = Stamp(parses: bool, second: int)

  datatype ChecklistItem = ChecklistItem(id: int, text: string, isCompleted: bool)

  datatype Attachment = Attachment(
    id: int,
    fileName: string,
    sizeInBytes: int,
    isDeleted: bool,
    permissions: Option<map<int, Role>>,
    deletedAt: Option<Stamp>)

  datatype ReminderSettings = ReminderSettings(
    reminderMethods: seq<ReminderMethod>,
    remindAtTimes: seq<string>,
    dailyReminderTime: Option<string>,
    remindOnAppOpen: bool)

  datatype Task = Task(
    id: int,
    title: string,
    description: string,
    priority: Priority,
    tags: seq<string>,
    status: TaskStatus,
    dueDate: string,
    order: int,
    checklist: seq<ChecklistItem>,
    isRecurring: bool,
    recurringType: Option<RecurringType>,
    recurringEndDate: Option<string>,
    recurringOnDays: Option<seq<int>>,
    reminderSettings: Option<ReminderSettings>,
    deletedAt: Option<Stamp>,
    isDeleted: bool,
    attachments: seq<Attachment>,
    assignedTo: Option<int>,
    isTeamTask: bool,
    teamId: Option<int>,
    parentTaskId: Option<int>,
    weight: int)

  /** The `Task` constructor with every defaulted parameter left at its
      default: no checklist, not recurring, no reminders, not deleted, no
      attachments, unassigned, personal, top level, weight 1. */
  function NewTask(id: int, title: string, description: string, priority: Priority, tags: seq<string>,
                   status: TaskStatus, dueDate: string, order: int): Task
  {
    Task(id, title, description, priority, tags, status, dueDate, order, [], false, None, None, None, None,
         None, false, [], None, false, None, None, 1)
  }

  datatype Team = Team(
    id: int,
    name: string,
    description: string,
    members: map<int, string>,
    tasks: seq<int>,
    pendingJoinRequests: seq<int>)

  /** `tasks.find { it.id == id }`: the first task with that id. */
  function FindTask(tasks: seq<Task>, id: int): (r: Option<Task>)
    ensures r.Some? ==> r.value in tasks && r.value.id == id
    ensures r.None? <==> forall t :: t in tasks ==> t.id != id
  {
    if |tasks| == 0 then None
    else if tasks[0].id == id then Some(tasks[0])
    else FindTask(tasks[1..], id)
  }

  /** `teams.find { it.id == id }`: the first team with that id. */
  function FindTeam(teams: seq<Team>, id: int): (r: Option<Team>)
    ensures r.Some? ==> r.value in teams && r.value.id == id
    ensures r.None? <==> forall t :: t in teams ==> t.id != id
  {
    if |teams| == 0 then None
    else if teams[0].id == id then Some(teams[0])
    else FindTeam(teams[1..], id)
  }

  /** The task `find` returns is the first with that id: no earlier task has it. */
  lemma {:induction false} FindTaskFirst(tasks: seq<Task>, id: int)
    ensures FindTask(tasks, id).Some? ==>
      exists i :: 0 <= i < |tasks| && tasks[i] == FindTask(tasks, id).value && forall j :: 0 <= j < i ==> tasks[j].id != id
  {
    if |tasks| > 0 && tasks[0].id != id {
      FindTaskFirst(tasks[1..], id);
      if FindTask(tasks, id).Some? {
        var i :| 0 <= i < |tasks[1..]| && tasks[1..][i] == FindTask(tasks, id).value &&
          forall j :: 0 <= j < i ==> tasks[1..][j].id != id;
        assert tasks[i + 1] == FindTask(tasks, id).value;
      }
    }
  }

  /** The team `find` returns is the first with that id: no earlier team has it. */
  lemma {:induction false} FindTeamFirst(teams: seq<Team>, id: int)
    ensures FindTeam(teams, id).Some? ==>
      exists i :: 0 <= i < |teams| && teams[i] == FindTeam(teams, id).value && forall j :: 0 <= j < i ==> teams[j].id != id
  {
    if |teams| > 0 && teams[0].id != id {
      FindTeamFirst(teams[1..], id);
      if FindTeam(teams, id).Some? {
        var i :| 0 <= i < |teams[1..]| && teams[1..][i] == FindTeam(teams, id).value &&
          forall j :: 0 <= j < i ==> teams[1..][j].id != id;
        assert teams[i + 1] == FindTeam(teams, id).value;
      }
    }
  }

  /** `team.members[currentUserId]`: a null user id finds no role. */
  function RoleOf(team: Team, user: Option<int>): (r: Option<string>)
    ensures r.Some? <==> user.Some? && user.value in team.members
    ensures r.Some? ==> r.value == team.members[user.value]
  {
    if user.Some? && user.value in team.members then Some(team.members[user.value]) else None
  }
}
