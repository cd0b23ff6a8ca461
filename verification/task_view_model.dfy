/** The task and team state controller. It owns the task list, the recycle
    bin of tasks, the teams and the recycle bin of attachments; every remote
    call is an input `success` (a successful response, and for the calls that
    return a boolean body, a body of `true`), and every launched body is one
    atomic step. */
module Tasks {
  import opened Domain
  import opened Text
  import Sorting
  import Reminders

  /** The values `errorMessage` takes; the server's failure text is not modelled. */
  datatype Notice =
    | NoNotice
    | NotLoggedIn | LoadFailed
    | TaskCreated | TaskCreateFailed | SubTaskCreated | SubTaskCreateFailed
    | TaskUpdated | TaskUpdateFailed
    | TaskMovedToBin | TaskDeleteFailed | TaskCompleted | TaskCompleteFailed
    | TaskRestored | TaskRestoreFailed | TaskPurged | TaskPurgeFailed
    | SortSyncFailed
    | FileTooLarge | UploadTaskMissing | UploadTotalTooLarge | FileUnreadable
    | AttachmentUploaded | UploadNoData | UploadFailed
    | AttachmentDeleted | AttachmentDeleteFailed
    | AttachmentTooLarge | AttachmentRestored | AttachmentRestoreFailed
    | TeamNameBlank | OnlyAdminEditsTeam | TeamInfoUpdated | TeamUpdateFailed
    | AlreadyMember | JoinRequested | JoinRequestFailed
    | OnlyAdminApproves | JoinApproved(userId: int) | ApproveFailed
    | TaskAssigned | AssignFailed | CannotAssign
    | OnlyAdminRemoves | CannotRemoveSelf | MemberRemoved | RemoveMemberFailed
    | OnlyAdminChangesRole | CannotChangeOwnRole | RoleUpdated | RoleUpdateFailed
    // set by the screens
    | SubTaskTitleBlank | TitleBlank | TeamNotChosen | InvalidDateFormat

  const SINGLE_FILE_MAX_SIZE: int := 10_485_760
  const MAX_TOTAL_SIZE: int := 104_857_600
  const SECONDS_PER_DAY: int := 86_400
  /** Items in a recycle bin are purged once this many whole days old. */
  const RETENTION_DAYS: int := 7

  // ----- edits of single records -----

  /** The edits the view model applies to every task with a given id
      (`tasks.map { if (it.id == id) ... else it }`). */
  datatype TaskEdit =
    | SetTo(task: Task)
    | MarkDone
    | AssignTo(user: int)
    | AddAttachment(attachment: Attachment)

  function ApplyTaskEdit(e: TaskEdit, t: Task): (r: Task)
    ensures e.MarkDone? ==> r == t.(status := Done)
    ensures e.AssignTo? ==> r == t.(assignedTo := Some(e.user))
    ensures e.AddAttachment? ==> r == t.(attachments := t.attachments + [e.attachment])
    ensures e.SetTo? ==> r == e.task
  {
    match e
    case SetTo(x) => x
    case MarkDone => t.(status := Done)
    case AssignTo(u) => t.(assignedTo := Some(u))
    case AddAttachment(a) => t.(attachments := t.attachments + [a])
  }

  /** Applies `e` to every task with id `id`, keeping positions. */
  function EditTasks(ts: seq<Task>, id: int, e: TaskEdit): (r: seq<Task>)
    ensures |r| == |ts|
    ensures forall i :: 0 <= i < |ts| ==> r[i] == (if ts[i].id == id then ApplyTaskEdit(e, ts[i]) else ts[i])
  {
    if |ts| == 0 then []
    else [if ts[0].id == id then ApplyTaskEdit(e, ts[0]) else ts[0]] + EditTasks(ts[1..], id, e)
  }

  /** The edits applied to every team with a given id. */
  datatype TeamEdit =
    | SetTeam(team: Team)
    | AddTaskId(taskId: int)
    | DropTaskId(taskId: int)
    | AddPending(user: int)

  function ApplyTeamEdit(e: TeamEdit, t: Team): (r: Team)
    ensures e.SetTeam? ==> r == e.team
    ensures e.AddTaskId? ==> r == t.(tasks := t.tasks + [e.taskId])
    ensures e.DropTaskId? ==> r == t.(tasks := WithoutInt(t.tasks, e.taskId))
    ensures e.AddPending? ==> r == t.(pendingJoinRequests := t.pendingJoinRequests + [e.user])
  {
    match e
    case SetTeam(x) => x
    case AddTaskId(id) => t.(tasks := t.tasks + [id])
    case DropTaskId(id) => t.(tasks := WithoutInt(t.tasks, id))
    case AddPending(u) => t.(pendingJoinRequests := t.pendingJoinRequests + [u])
  }

  function EditTeams(ts: seq<Team>, id: int, e: TeamEdit): (r: seq<Team>)
    ensures |r| == |ts|
    ensures forall i :: 0 <= i < |ts| ==> r[i] == (if ts[i].id == id then ApplyTeamEdit(e, ts[i]) else ts[i])
  {
    if |ts| == 0 then []
    else [if ts[0].id == id then ApplyTeamEdit(e, ts[0]) else ts[0]] + EditTeams(ts[1..], id, e)
  }

  /** The team edit that follows a change to a team task, if the task is one. */
  function TeamSync(teams: seq<Team>, task: Task, e: TeamEdit): (r: seq<Team>)
    ensures !(task.isTeamTask && task.teamId.Some?) ==> r == teams
    ensures task.isTeamTask && task.teamId.Some? ==> r == EditTeams(teams, task.teamId.value, e)
  {
    if task.isTeamTask && task.teamId.Some? then EditTeams(teams, task.teamId.value, e) else teams
  }

  /** `filter { it != x }` on a list of ids. */
  function WithoutInt(s: seq<int>, x: int): (r: seq<int>)
    ensures forall y :: y in r <==> y in s && y != x
    ensures |r| <= |s|
  {
    if |s| == 0 then [] else if s[0] == x then WithoutInt(s[1..], x) else [s[0]] + WithoutInt(s[1..], x)
  }

  /** `filter { it.id != id }` on tasks, keeping order. */
  function WithoutTask(ts: seq<Task>, id: int): (r: seq<Task>)
    ensures forall t :: t in r <==> t in ts && t.id != id
    ensures |r| <= |ts|
  {
    if |ts| == 0 then [] else if ts[0].id == id then WithoutTask(ts[1..], id) else [ts[0]] + WithoutTask(ts[1..], id)
  }

  /** `find { it.id == id }` on attachments. */
  function FindAttachment(atts: seq<Attachment>, id: int): (r: Option<Attachment>)
    ensures r.Some? ==> r.value in atts && r.value.id == id
    ensures r.None? <==> forall a :: a in atts ==> a.id != id
  {
    if |atts| == 0 then None else if atts[0].id == id then Some(atts[0]) else FindAttachment(atts[1..], id)
  }

  /** `filter { it.id != id }` on attachments. */
  function WithoutAttachment(atts: seq<Attachment>, id: int): (r: seq<Attachment>)
    ensures forall a :: a in r <==> a in atts && a.id != id
  {
    if |atts| == 0 then [] else if atts[0].id == id then WithoutAttachment(atts[1..], id)
    else [atts[0]] + WithoutAttachment(atts[1..], id)
  }

  /** `sumOf { it.sizeInBytes }`. */
  function TotalSize(atts: seq<Attachment>): int
  {
    if |atts| == 0 then 0 else atts[0].sizeInBytes + TotalSize(atts[1..])
  }

  lemma {:induction false} TotalSizeAppend(atts: seq<Attachment>, a: Attachment)
    ensures TotalSize(atts + [a]) == TotalSize(atts) + a.sizeInBytes
  {
    if |atts| > 0 {
      assert (atts + [a])[1..] == atts[1..] + [a];
      TotalSizeAppend(atts[1..], a);
    } else {
      assert atts + [a] == [a];
    }
  }

  predicate UniqueAttachmentIds(atts: seq<Attachment>)
  {
    forall i, j :: 0 <= i < j < |atts| ==> atts[i].id != atts[j].id
  }

  /** Removing an attachment whose id is unique takes exactly its size off the
      total, and exactly one entry off the list. */
  lemma {:induction false} RemoveOneAttachment(atts: seq<Attachment>, id: int)
    requires UniqueAttachmentIds(atts)
    requires FindAttachment(atts, id).Some?
    ensures |WithoutAttachment(atts, id)| == |atts| - 1
    ensures TotalSize(WithoutAttachment(atts, id)) + FindAttachment(atts, id).value.sizeInBytes == TotalSize(atts)
  {
    if atts[0].id == id {
      assert forall a :: a in atts[1..] ==> a.id != id by {
        forall a | a in atts[1..] ensures a.id != id {
          var k :| 0 <= k < |atts[1..]| && atts[1..][k] == a;
          assert atts[k + 1] == a;
        }
      }
      WithoutAttachmentNone(atts[1..], id);
    } else {
      assert UniqueAttachmentIds(atts[1..]) by {
        forall i, j | 0 <= i < j < |atts[1..]| ensures atts[1..][i].id != atts[1..][j].id {
          assert atts[1..][i] == atts[i + 1] && atts[1..][j] == atts[j + 1];
        }
      }
      RemoveOneAttachment(atts[1..], id);
    }
  }

  lemma {:induction false} WithoutAttachmentNone(atts: seq<Attachment>, id: int)
    requires forall a :: a in atts ==> a.id != id
    ensures WithoutAttachment(atts, id) == atts
  {
    if |atts| > 0 {
      assert forall a :: a in atts[1..] ==> a in atts;
      WithoutAttachmentNone(atts[1..], id);
      assert [atts[0]] + atts[1..] == atts;
    }
  }

  // ----- the recycle bin -----

  /** The copy of a task that `deleteTask` sends and keeps in the bin. */
  function Binned(t: Task, now: int): (r: Task)
    ensures r.isDeleted && r.deletedAt == Some(Stamp(true, now))
    ensures r.(isDeleted := t.isDeleted, deletedAt := t.deletedAt) == t
  {
    t.(isDeleted := true, deletedAt := Some(Stamp(true, now)))
  }

  /** The copy of a task that `restoreTask` sends and puts back at the end. */
  function Restored(t: Task, order: int): (r: Task)
    ensures !r.isDeleted && r.status == Todo && r.order == order && r.deletedAt.None?
    ensures r.(isDeleted := t.isDeleted, status := t.status, order := t.order, deletedAt := t.deletedAt) == t
  {
    t.(isDeleted := false, status := Todo, order := order, deletedAt := None)
  }

  /** `Duration.between(from, to).toDays()`: whole days, truncated toward zero. */
  function WholeDays(from: int, to: int): int
  {
    var d := to - from;
    if d >= 0 then d / SECONDS_PER_DAY else -((-d) / SECONDS_PER_DAY)
  }

  /** The retention rule in seconds: at least 7 whole days have passed exactly
      when at least 7 x 86400 seconds have. */
  lemma RetentionInSeconds(from: int, to: int)
    ensures WholeDays(from, to) >= RETENTION_DAYS <==> to - from >= RETENTION_DAYS * SECONDS_PER_DAY
  {
  }

  /** Whether a stored deletion time has expired; a time that does not parse
      raises, which is `None` here. */
  function Expired(deletedAt: Option<Stamp>, now: int): Option<bool>
  {
    match deletedAt
    case None => Some(false)
    case Some(s) => if s.parses then Some(WholeDays(s.second, now) >= RETENTION_DAYS) else None
  }

  predicate Unparseable(deletedAt: Option<Stamp>) { deletedAt.Some? && !deletedAt.value.parses }

  /** The bin entries `cleanupExpiredTasks` selects; `None` when one of the
      deletion times does not parse, which aborts the whole selection. */
  function ExpiredTasks(bin: seq<Task>, now: int): (r: Option<seq<Task>>)
    ensures r.None? <==> exists t :: t in bin && Unparseable(t.deletedAt)
    ensures r.Some? ==> forall t :: t in r.value <==>
      t in bin && t.deletedAt.Some? && now - t.deletedAt.value.second >= RETENTION_DAYS * SECONDS_PER_DAY
  {
    if |bin| == 0 then Some([])
    else
      match (Expired(bin[0].deletedAt, now), ExpiredTasks(bin[1..], now))
      case (Some(e), Some(rest)) =>
        RetentionInSeconds(if bin[0].deletedAt.Some? then bin[0].deletedAt.value.second else 0, now);
        assert forall t :: t in bin <==> t == bin[0] || t in bin[1..];
        Some(if e then [bin[0]] + rest else rest)
      case (_, _) =>
        assert bin[0] in bin;
        assert forall t :: t in bin[1..] ==> t in bin;
        None
  }

  /** The ids of the expired attachments of one task's bin list. */
  function ExpiredAttachmentIds(atts: seq<Attachment>, now: int): (r: Option<seq<int>>)
    ensures r.None? <==> exists a :: a in atts && Unparseable(a.deletedAt)
    ensures r.Some? ==> forall id :: id in r.value <==>
      (exists a :: a in atts && a.id == id && a.deletedAt.Some? &&
         now - a.deletedAt.value.second >= RETENTION_DAYS * SECONDS_PER_DAY)
  {
    if |atts| == 0 then Some([])
    else
      match (Expired(atts[0].deletedAt, now), ExpiredAttachmentIds(atts[1..], now))
      case (Some(e), Some(rest)) =>
        RetentionInSeconds(if atts[0].deletedAt.Some? then atts[0].deletedAt.value.second else 0, now);
        assert forall a :: a in atts <==> a == atts[0] || a in atts[1..];
        Some(if e then [atts[0].id] + rest else rest)
      case (_, _) =>
        assert atts[0] in atts;
        assert forall a :: a in atts[1..] ==> a in atts;
        None
  }

  /** Whether some attachment in the bin map has a deletion time that does not parse. */
  predicate SomeAttachmentUnparseable(bins: map<int, seq<Attachment>>)
  {
    exists k, a :: k in bins && a in bins[k] && Unparseable(a.deletedAt)
  }

  /** The bin map after the purge launched by `cleanupExpiredAttachments`:
      from each list, the attachments with an expired id whose removal the
      server accepted (`purged(taskId, attachmentId)`). */
  function PurgedAttachments(bins: map<int, seq<Attachment>>, now: int, purged: (int, int) -> bool)
    : (r: map<int, seq<Attachment>>)
    requires !SomeAttachmentUnparseable(bins)
    ensures r.Keys == bins.Keys
    ensures forall k, a :: k in bins && a in bins[k] ==>
      (a in r[k] <==> !(purged(k, a.id) && a.id in ExpiredAttachmentIds(bins[k], now).value))
    ensures forall k, a :: k in r && a in r[k] ==> a in bins[k]
  {
    map k | k in bins :: PurgeList(bins[k], ExpiredAttachmentIds(bins[k], now).value, k, purged)
  }

  function PurgeList(atts: seq<Attachment>, ids: seq<int>, k: int, purged: (int, int) -> bool): (r: seq<Attachment>)
    ensures forall a :: a in r <==> a in atts && !(purged(k, a.id) && a.id in ids)
  {
    if |atts| == 0 then []
    else if purged(k, atts[0].id) && atts[0].id in ids then PurgeList(atts[1..], ids, k, purged)
    else [atts[0]] + PurgeList(atts[1..], ids, k, purged)
  }

  predicate UniqueTaskIds(ts: seq<Task>)
  {
    forall i, j :: 0 <= i < j < |ts| ==> ts[i].id != ts[j].id
  }

  // ----- gates of the attachment operations -----

  /** The checks of `uploadAttachmentFromUri`, in order; `None` lets the upload go ahead. */
  function UploadRejection(tasks: seq<Task>, taskId: int, fileSize: int, readable: bool): (r: Option<Notice>)
    ensures r.None? <==>
      (fileSize <= SINGLE_FILE_MAX_SIZE && FindTask(tasks, taskId).Some? &&
       TotalSize(FindTask(tasks, taskId).value.attachments) + fileSize <= MAX_TOTAL_SIZE && readable)
    ensures fileSize > SINGLE_FILE_MAX_SIZE ==> r == Some(FileTooLarge)
    ensures fileSize <= SINGLE_FILE_MAX_SIZE && (forall t :: t in tasks ==> t.id != taskId) ==> r == Some(UploadTaskMissing)
  {
    if fileSize > SINGLE_FILE_MAX_SIZE then Some(FileTooLarge)
    else match FindTask(tasks, taskId)
      case None => Some(UploadTaskMissing)
      case Some(task) =>
        if TotalSize(task.attachments) + fileSize > MAX_TOTAL_SIZE then Some(UploadTotalTooLarge)
        else if !readable then Some(FileUnreadable)
        else None
  }

  /** The bin list of a task (`deletedAttachments[taskId].orEmpty()`). */
  function BinOf(bins: map<int, seq<Attachment>>, taskId: int): seq<Attachment>
  {
    if taskId in bins then bins[taskId] else []
  }

  /** What `restoreAttachment` finds before it calls the server: the binned
      attachment and the task, or the reason it returns false. */
  datatype RestorePlan = Proceed(attachment: Attachment, task: Task) | Refuse(capExceeded: bool)

  function RestoreCheck(tasks: seq<Task>, bins: map<int, seq<Attachment>>, taskId: int, attachmentId: int)
    : (r: RestorePlan)
    ensures r.Proceed? <==>
      (FindAttachment(BinOf(bins, taskId), attachmentId).Some? && FindTask(tasks, taskId).Some? &&
       TotalSize(FindTask(tasks, taskId).value.attachments)
         + FindAttachment(BinOf(bins, taskId), attachmentId).value.sizeInBytes <= MAX_TOTAL_SIZE)
    ensures r.Proceed? ==>
      (r.attachment in BinOf(bins, taskId) && r.attachment.id == attachmentId &&
       r.task in tasks && r.task.id == taskId &&
       TotalSize(r.task.attachments + [r.attachment]) <= MAX_TOTAL_SIZE)
    ensures r.Refuse? && r.capExceeded ==> FindTask(tasks, taskId).Some?
  {
    match FindAttachment(BinOf(bins, taskId), attachmentId)
    case None => Refuse(false)
    case Some(a) =>
      match FindTask(tasks, taskId)
      case None => Refuse(false)
      case Some(task) =>
        TotalSizeAppend(task.attachments, a);
        if TotalSize(task.attachments) + a.sizeInBytes > MAX_TOTAL_SIZE then Refuse(true)
        else Proceed(a, task)
  }

  // ----- team gates -----

  predicate IsAdmin(team: Team, user: Option<int>)
  {
    RoleOf(team, user) == Some(ADMIN)
  }

  /** The team after `approveJoinRequest`: the user leaves the pending list and
      becomes a MEMBER; nobody else's role or request changes. */
  function Approved(team: Team, userId: int): (r: Team)
    ensures userId in r.members && r.members[userId] == MEMBER
    ensures userId !in r.pendingJoinRequests
    ensures r.members.Keys == team.members.Keys + {userId}
    ensures forall u :: u in team.members && u != userId ==> r.members[u] == team.members[u]
    ensures forall u :: u in team.pendingJoinRequests && u != userId ==> u in r.pendingJoinRequests
    ensures r.(members := team.members, pendingJoinRequests := team.pendingJoinRequests) == team
  {
    team.(pendingJoinRequests := WithoutInt(team.pendingJoinRequests, userId),
          members := team.members[userId := MEMBER])
  }

  /** A join request followed by its approval leaves the user a member with no
      request outstanding. */
  lemma RequestThenApprove(team: Team, userId: int)
    ensures var t := Approved(ApplyTeamEdit(AddPending(userId), team), userId);
      RoleOf(t, Some(userId)) == Some(MEMBER) && userId !in t.pendingJoinRequests
  {
  }

  /** The team after `removeMemberFromTeam`. */
  function WithoutMember(team: Team, userId: int): (r: Team)
    ensures r.members.Keys == team.members.Keys - {userId}
    ensures forall u :: u in r.members ==> r.members[u] == team.members[u]
    ensures r.(members := team.members) == team
  {
    team.(members := team.members - {userId})
  }

  /** The team after `updateMemberRole`. */
  function WithRole(team: Team, userId: int, role: Role): (r: Team)
    ensures r.members.Keys == team.members.Keys + {userId}
    ensures r.members[userId] == RoleName(role)
    ensures forall u :: u in team.members && u != userId ==> r.members[u] == team.members[u]
    ensures r.(members := team.members) == team
  {
    team.(members := team.members[userId := RoleName(role)])
  }

  /** An admin can neither remove nor re-role themselves (the steps refuse a
      self-target), so the acting admin stays an admin through a removal or a
      role change. */
  lemma AdminKeepsRole(team: Team, me: int, userId: int, role: Role)
    requires IsAdmin(team, Some(me)) && userId != me
    ensures IsAdmin(WithoutMember(team, userId), Some(me))
    ensures IsAdmin(WithRole(team, userId, role), Some(me))
  {
  }

  /** `approveJoinRequest` has no self check: the acting admin stays an admin
      after an approval exactly when the approved id is not their own, and
      approving their own id makes them a MEMBER. */
  lemma ApprovalKeepsAdminUnlessSelf(team: Team, me: int, userId: int)
    requires IsAdmin(team, Some(me))
    ensures IsAdmin(Approved(team, userId), Some(me)) <==> userId != me
    ensures userId == me ==> RoleOf(Approved(team, userId), Some(me)) == Some(MEMBER)
  {
  }

  /** The sub-task `createSubTask` sends: it joins its parent's team and
      points at its parent, and goes to the end of the list. */
  function SubTaskRequest(parent: Task, parentId: int, sub: Task, n: int): (r: Task)
    ensures r.isTeamTask == parent.isTeamTask && r.teamId == parent.teamId
    ensures r.parentTaskId == Some(parentId) && r.order == n
    ensures r.(isTeamTask := sub.isTeamTask, teamId := sub.teamId, parentTaskId := sub.parentTaskId,
               order := sub.order) == sub
  {
    sub.(isTeamTask := parent.isTeamTask, teamId := parent.teamId, parentTaskId := Some(parentId), order := n)
  }

  // ----- the state and its transitions -----

  /** The fields of the view model that the modelled operations read or write. */
  datatype VmState = VmState(
    tasks: seq<Task>,
    deletedTasks: seq<Task>,
    teams: seq<Team>,
    deletedAttachments: map<int, seq<Attachment>>,
    isSortByPriority: bool,
    currentUserId: Option<int>,
    errorMessage: Notice)

  /** No id is both in the list and in the bin. */
  predicate BinDisjoint(s: VmState)
  {
    forall t, u :: t in s.tasks && u in s.deletedTasks ==> t.id != u.id
  }

  function CreateTaskStep(s: VmState, task: Task, success: bool, created: Option<Task>): VmState
  {
    if success && created.Some? then
      s.(tasks := s.tasks + [created.value],
         teams := TeamSync(s.teams, task, AddTaskId(created.value.id)),
         errorMessage := TaskCreated)
    else s.(errorMessage := TaskCreateFailed)
  }

  function CreateSubTaskStep(s: VmState, parentId: int, sub: Task, success: bool, created: Option<Task>): VmState
  {
    match FindTask(s.tasks, parentId)
    case None => s
    case Some(parent) =>
      var request := SubTaskRequest(parent, parentId, sub, |s.tasks|);
      if success && created.Some? then
        s.(tasks := s.tasks + [created.value],
           teams := TeamSync(s.teams, request, AddTaskId(created.value.id)),
           errorMessage := SubTaskCreated)
      else s.(errorMessage := SubTaskCreateFailed)
  }

  function UpdateTaskStep(s: VmState, task: Task, success: bool): VmState
  {
    if success then s.(tasks := EditTasks(s.tasks, task.id, SetTo(task)), errorMessage := TaskUpdated)
    else s.(errorMessage := TaskUpdateFailed)
  }

  function MarkCompletedStep(s: VmState, task: Task, success: bool): VmState
  {
    if success then s.(tasks := EditTasks(s.tasks, task.id, MarkDone), errorMessage := TaskCompleted)
    else s.(errorMessage := TaskCompleteFailed)
  }

  function DeleteTaskStep(s: VmState, task: Task, now: int, success: bool): VmState
  {
    if success then
      s.(tasks := WithoutTask(s.tasks, task.id),
         deletedTasks := s.deletedTasks + [Binned(task, now)],
         teams := TeamSync(s.teams, task, DropTaskId(task.id)),
         errorMessage := TaskMovedToBin)
    else s.(errorMessage := TaskDeleteFailed)
  }

  function RestoreTaskStep(s: VmState, task: Task, success: bool): VmState
  {
    if success then
      s.(deletedTasks := WithoutTask(s.deletedTasks, task.id),
         tasks := s.tasks + [Restored(task, |s.tasks|)],
         teams := TeamSync(s.teams, task, AddTaskId(task.id)),
         errorMessage := TaskRestored)
    else s.(errorMessage := TaskRestoreFailed)
  }

  function PurgeTaskStep(s: VmState, task: Task, success: bool): VmState
  {
    if success then
      s.(deletedTasks := WithoutTask(s.deletedTasks, task.id),
         teams := TeamSync(s.teams, task, DropTaskId(task.id)),
         errorMessage := TaskPurged)
    else s.(errorMessage := TaskPurgeFailed)
  }

  /** The permanent deletions of `sel`, in order, the i-th accepted by the
      server when `purged(i)`. */
  function PurgeAll(s: VmState, sel: seq<Task>, purged: nat -> bool): VmState
  {
    if |sel| == 0 then s
    else PurgeTaskStep(PurgeAll(s, sel[..|sel| - 1], purged), sel[|sel| - 1], purged(|sel| - 1))
  }

  function LoadTasksStep(s: VmState, success: bool, body: Option<seq<Task>>, now: int,
                         purged: nat -> bool, attachmentPurged: (int, int) -> bool): VmState
  {
    if s.currentUserId.None? then s.(errorMessage := NotLoggedIn)
    else if !success then s.(errorMessage := LoadFailed)
    else
      var loaded := s.(tasks := if body.Some? then body.value else [], errorMessage := NoNotice);
      match ExpiredTasks(loaded.deletedTasks, now)
      case None => loaded.(errorMessage := LoadFailed)
      case Some(sel) =>
        if SomeAttachmentUnparseable(loaded.deletedAttachments) then
          PurgeAll(loaded.(errorMessage := LoadFailed), sel, purged)
        else
          PurgeAll(loaded, sel, purged).(deletedAttachments :=
            PurgedAttachments(loaded.deletedAttachments, now, attachmentPurged))
  }

  function SortStep(s: VmState, syncSuccess: bool): VmState
  {
    s.(tasks := if s.isSortByPriority then Sorting.SortBy(s.tasks, Sorting.OrderKey)
                else Sorting.SortBy(s.tasks, Sorting.PriorityKey),
       isSortByPriority := !s.isSortByPriority,
       errorMessage := if syncSuccess then s.errorMessage else SortSyncFailed)
  }

  function UploadStep(s: VmState, taskId: int, fileSize: int, readable: bool, success: bool,
                      returned: Option<Attachment>): VmState
  {
    match UploadRejection(s.tasks, taskId, fileSize, readable)
    case Some(n) => s.(errorMessage := n)
    case None =>
      if success && returned.Some? then
        s.(tasks := EditTasks(s.tasks, taskId, AddAttachment(returned.value)), errorMessage := AttachmentUploaded)
      else if success then s.(errorMessage := UploadNoData)
      else s.(errorMessage := UploadFailed)
  }

  function DeleteAttachmentStep(s: VmState, taskId: int, attachmentId: int, now: int, success: bool): VmState
  {
    match FindTask(s.tasks, taskId)
    case None => s
    case Some(task) =>
      match FindAttachment(task.attachments, attachmentId)
      case None => s
      case Some(a) =>
        if success then
          s.(tasks := EditTasks(s.tasks, taskId,
                        SetTo(task.(attachments := WithoutAttachment(task.attachments, attachmentId)))),
             deletedAttachments := s.deletedAttachments[taskId :=
               BinOf(s.deletedAttachments, taskId) + [a.(isDeleted := true, deletedAt := Some(Stamp(true, now)))]],
             errorMessage := AttachmentDeleted)
        else s.(errorMessage := AttachmentDeleteFailed)
  }

  function RestoreAttachmentStep(s: VmState, taskId: int, attachmentId: int, success: bool): VmState
  {
    match RestoreCheck(s.tasks, s.deletedAttachments, taskId, attachmentId)
    case Refuse(cap) => if cap then s.(errorMessage := AttachmentTooLarge) else s
    case Proceed(a, task) =>
      if success then
        s.(tasks := EditTasks(s.tasks, taskId,
                      SetTo(task.(attachments := task.attachments + [a.(isDeleted := false, deletedAt := None)]))),
           deletedAttachments := s.deletedAttachments[taskId :=
             WithoutAttachment(BinOf(s.deletedAttachments, taskId), attachmentId)],
           errorMessage := AttachmentRestored)
      else s.(errorMessage := AttachmentRestoreFailed)
  }

  function UpdateTeamInfoStep(s: VmState, teamId: int, newName: string, newDescription: string, success: bool)
    : VmState
  {
    if IsBlank(newName) then s.(errorMessage := TeamNameBlank)
    else match FindTeam(s.teams, teamId)
      case None => s
      case Some(team) =>
        if !IsAdmin(team, s.currentUserId) then s.(errorMessage := OnlyAdminEditsTeam)
        else if success then
          s.(teams := EditTeams(s.teams, teamId, SetTeam(team.(name := newName, description := newDescription))),
             errorMessage := TeamInfoUpdated)
        else s.(errorMessage := TeamUpdateFailed)
  }

  function RequestJoinStep(s: VmState, teamId: int, success: bool): VmState
  {
    match FindTeam(s.teams, teamId)
    case None => s
    case Some(team) =>
      if s.currentUserId.Some? && s.currentUserId.value in team.members then s.(errorMessage := AlreadyMember)
      else if s.currentUserId.None? then s.(errorMessage := NotLoggedIn)
      else if success then
        s.(teams := EditTeams(s.teams, teamId, AddPending(s.currentUserId.value)), errorMessage := JoinRequested)
      else s.(errorMessage := JoinRequestFailed)
  }

  function ApproveStep(s: VmState, teamId: int, userId: int, success: bool): VmState
  {
    match FindTeam(s.teams, teamId)
    case None => s
    case Some(team) =>
      if !IsAdmin(team, s.currentUserId) then s.(errorMessage := OnlyAdminApproves)
      else if success then
        s.(teams := EditTeams(s.teams, teamId, SetTeam(Approved(team, userId))), errorMessage := JoinApproved(userId))
      else s.(errorMessage := ApproveFailed)
  }

  function AssignStep(s: VmState, teamId: int, taskId: int, userId: int, success: bool): VmState
  {
    match FindTeam(s.teams, teamId)
    case None => s
    case Some(team) =>
      if !(IsAdmin(team, s.currentUserId) && userId in team.members) then s.(errorMessage := CannotAssign)
      else if success then s.(tasks := EditTasks(s.tasks, taskId, AssignTo(userId)), errorMessage := TaskAssigned)
      else s.(errorMessage := AssignFailed)
  }

  function RemoveMemberStep(s: VmState, teamId: int, userId: int, success: bool): VmState
  {
    match FindTeam(s.teams, teamId)
    case None => s
    case Some(team) =>
      if !IsAdmin(team, s.currentUserId) then s.(errorMessage := OnlyAdminRemoves)
      else if s.currentUserId == Some(userId) then s.(errorMessage := CannotRemoveSelf)
      else if success then
        s.(teams := EditTeams(s.teams, teamId, SetTeam(WithoutMember(team, userId))), errorMessage := MemberRemoved)
      else s.(errorMessage := RemoveMemberFailed)
  }

  function RoleStep(s: VmState, teamId: int, userId: int, newRole: Role, success: bool): VmState
  {
    match FindTeam(s.teams, teamId)
    case None => s
    case Some(team) =>
      if !IsAdmin(team, s.currentUserId) then s.(errorMessage := OnlyAdminChangesRole)
      else if s.currentUserId == Some(userId) then s.(errorMessage := CannotChangeOwnRole)
      else if success then
        s.(teams := EditTeams(s.teams, teamId, SetTeam(WithRole(team, userId, newRole))), errorMessage := RoleUpdated)
      else s.(errorMessage := RoleUpdateFailed)
  }

  // ----- properties of the transitions -----

  lemma {:induction false} FindTaskAfterEdit(ts: seq<Task>, id: int, e: TaskEdit)
    requires e.SetTo? ==> e.task.id == id
    ensures FindTask(EditTasks(ts, id, e), id) ==
      (match FindTask(ts, id) case None => None case Some(t) => Some(ApplyTaskEdit(e, t)))
  {
    if |ts| > 0 {
      var r := EditTasks(ts, id, e);
      assert r[0].id == ts[0].id by {
        if ts[0].id == id { assert r[0] == ApplyTaskEdit(e, ts[0]); }
      }
      if ts[0].id != id {
        FindTaskAfterEdit(ts[1..], id, e);
        assert r[1..] == EditTasks(ts[1..], id, e);
      }
    }
  }

  lemma {:induction false} FindTeamAfterEdit(ts: seq<Team>, id: int, e: TeamEdit)
    requires e.SetTeam? ==> e.team.id == id
    ensures FindTeam(EditTeams(ts, id, e), id) ==
      (match FindTeam(ts, id) case None => None case Some(t) => Some(ApplyTeamEdit(e, t)))
  {
    if |ts| > 0 {
      var r := EditTeams(ts, id, e);
      assert r[0].id == ts[0].id by {
        if ts[0].id == id { assert r[0] == ApplyTeamEdit(e, ts[0]); }
      }
      if ts[0].id != id {
        FindTeamAfterEdit(ts[1..], id, e);
        assert r[1..] == EditTeams(ts[1..], id, e);
      }
    }
  }

  /** A successful `deleteTask` leaves no task with that id in the list, keeps
      every other task, puts the binned copy last in the bin, and keeps the
      list and the bin disjoint. */
  lemma DeleteTaskMovesToBin(s: VmState, task: Task, now: int)
    ensures var s' := DeleteTaskStep(s, task, now, true);
      (forall t :: t in s'.tasks ==> t.id != task.id) &&
      (forall t :: t in s.tasks && t.id != task.id ==> t in s'.tasks) &&
      s'.deletedTasks[|s'.deletedTasks| - 1] == Binned(task, now) &&
      s'.deletedTasks[..|s'.deletedTasks| - 1] == s.deletedTasks &&
      (BinDisjoint(s) ==> BinDisjoint(s'))
  {
    var s' := DeleteTaskStep(s, task, now, true);
    assert s'.deletedTasks[..|s'.deletedTasks| - 1] == s.deletedTasks;
  }

  /** A successful `restoreTask` empties the bin of that id and appends the
      restored copy, TODO and without deletion time, as the last task; the list
      and the bin stay disjoint, and a task restored from a disjoint bin does
      not duplicate an id. */
  lemma RestoreTaskBringsBack(s: VmState, task: Task)
    ensures var s' := RestoreTaskStep(s, task, true);
      (forall t :: t in s'.deletedTasks ==> t.id != task.id) &&
      s'.tasks[..|s.tasks|] == s.tasks &&
      s'.tasks[|s.tasks|] == Restored(task, |s.tasks|) &&
      (BinDisjoint(s) ==> BinDisjoint(s'))
    ensures BinDisjoint(s) && UniqueTaskIds(s.tasks) && task in s.deletedTasks ==>
      UniqueTaskIds(RestoreTaskStep(s, task, true).tasks)
  {
    var s' := RestoreTaskStep(s, task, true);
    assert s'.tasks[..|s.tasks|] == s.tasks;
    if BinDisjoint(s) && UniqueTaskIds(s.tasks) && task in s.deletedTasks {
      forall i, j | 0 <= i < j < |s'.tasks| ensures s'.tasks[i].id != s'.tasks[j].id {
        if j == |s.tasks| {
          assert s'.tasks[i] == s.tasks[i] && s.tasks[i] in s.tasks;
        }
      }
    }
  }

  /** `restoreTask` does not look for an entry with the same id: restoring a
      task whose id is still listed yields two entries with that id. */
  lemma RestoreTaskDuplicates(s: VmState, task: Task)
    requires exists t :: t in s.tasks && t.id == task.id
    ensures !UniqueTaskIds(RestoreTaskStep(s, task, true).tasks)
  {
    var s' := RestoreTaskStep(s, task, true);
    var i :| 0 <= i < |s.tasks| && s.tasks[i].id == task.id;
    assert s'.tasks[i] == s.tasks[i];
    assert s'.tasks[|s.tasks|].id == task.id;
  }

  /** Deleting a task and then restoring its binned copy gives the bin back
      as it was and puts the task back at the end, as a TODO with no deletion
      time; a team task's id returns to the end of its team's task list. */
  lemma DeleteThenRestore(s: VmState, task: Task, now: int)
    requires forall u :: u in s.deletedTasks ==> u.id != task.id
    ensures var s2 := RestoreTaskStep(DeleteTaskStep(s, task, now, true), Binned(task, now), true);
      s2.deletedTasks == s.deletedTasks &&
      s2.tasks == WithoutTask(s.tasks, task.id) +
        [task.(isDeleted := false, status := Todo, order := |WithoutTask(s.tasks, task.id)|, deletedAt := None)] &&
      s2.teams == TeamSync(TeamSync(s.teams, task, DropTaskId(task.id)), task, AddTaskId(task.id))
  {
    WithoutTaskAppend(s.deletedTasks, Binned(task, now), task.id);
    WithoutTaskNone(s.deletedTasks, task.id);
  }

  lemma {:induction false} WithoutTaskAppend(ts: seq<Task>, x: Task, id: int)
    requires x.id == id
    ensures WithoutTask(ts + [x], id) == WithoutTask(ts, id)
  {
    if |ts| > 0 {
      assert (ts + [x])[1..] == ts[1..] + [x];
      WithoutTaskAppend(ts[1..], x, id);
    } else {
      assert ts + [x] == [x];
    }
  }

  lemma {:induction false} WithoutTaskNone(ts: seq<Task>, id: int)
    requires forall t :: t in ts ==> t.id != id
    ensures WithoutTask(ts, id) == ts
  {
    if |ts| > 0 {
      assert forall t :: t in ts[1..] ==> t in ts;
      WithoutTaskNone(ts[1..], id);
      assert [ts[0]] + ts[1..] == ts;
    }
  }

  /** The purges of the expiry clean-up change only the bin, the teams and the
      message; the bin keeps exactly the entries none of whose ids was purged
      successfully, and the list and the bin stay disjoint. */
  lemma {:induction false} PurgeAllMeaning(s: VmState, sel: seq<Task>, purged: nat -> bool)
    ensures var s' := PurgeAll(s, sel, purged);
      s'.tasks == s.tasks && s'.deletedAttachments == s.deletedAttachments &&
      s'.isSortByPriority == s.isSortByPriority && s'.currentUserId == s.currentUserId &&
      (BinDisjoint(s) ==> BinDisjoint(s'))
    ensures forall t :: t in PurgeAll(s, sel, purged).deletedTasks <==>
      t in s.deletedTasks && forall i :: 0 <= i < |sel| && purged(i) ==> sel[i].id != t.id
  {
    if |sel| > 0 {
      var pre := sel[..|sel| - 1];
      PurgeAllMeaning(s, pre, purged);
      assert forall i :: 0 <= i < |pre| ==> pre[i] == sel[i];
    }
  }

  /** An upload that passes the checks and comes back with an attachment of
      the checked size keeps the task's attachments within the 100 MB cap. */
  lemma UploadStaysUnderCap(s: VmState, taskId: int, fileSize: int, a: Attachment)
    requires UploadRejection(s.tasks, taskId, fileSize, true).None?
    requires a.sizeInBytes == fileSize
    ensures var s' := UploadStep(s, taskId, fileSize, true, true, Some(a));
      FindTask(s'.tasks, taskId).Some? &&
      FindTask(s'.tasks, taskId).value.attachments == FindTask(s.tasks, taskId).value.attachments + [a] &&
      TotalSize(FindTask(s'.tasks, taskId).value.attachments) <= MAX_TOTAL_SIZE
  {
    FindTaskAfterEdit(s.tasks, taskId, AddAttachment(a));
    TotalSizeAppend(FindTask(s.tasks, taskId).value.attachments, a);
  }

  /** A successful attachment deletion moves exactly one attachment (ids being
      unique) from the task to the end of the task's bin list. */
  lemma DeleteAttachmentMovesOne(s: VmState, taskId: int, attachmentId: int, now: int)
    requires FindTask(s.tasks, taskId).Some?
    requires UniqueAttachmentIds(FindTask(s.tasks, taskId).value.attachments)
    requires FindAttachment(FindTask(s.tasks, taskId).value.attachments, attachmentId).Some?
    ensures var s' := DeleteAttachmentStep(s, taskId, attachmentId, now, true);
      var before := FindTask(s.tasks, taskId).value.attachments;
      var a := FindAttachment(before, attachmentId).value;
      FindTask(s'.tasks, taskId).Some? &&
      |FindTask(s'.tasks, taskId).value.attachments| == |before| - 1 &&
      TotalSize(FindTask(s'.tasks, taskId).value.attachments) == TotalSize(before) - a.sizeInBytes &&
      (forall b :: b in FindTask(s'.tasks, taskId).value.attachments ==> b.id != attachmentId) &&
      BinOf(s'.deletedAttachments, taskId) ==
        BinOf(s.deletedAttachments, taskId) + [a.(isDeleted := true, deletedAt := Some(Stamp(true, now)))]
  {
    var task := FindTask(s.tasks, taskId).value;
    FindTaskAfterEdit(s.tasks, taskId, SetTo(task.(attachments := WithoutAttachment(task.attachments, attachmentId))));
    RemoveOneAttachment(task.attachments, attachmentId);
  }

  /** A restore that is accepted and succeeds moves the attachment, undeleted,
      to the end of the task's list (staying under the cap) and takes its id
      out of the bin list, which loses exactly one entry when ids are unique. */
  lemma RestoreAttachmentMovesOne(s: VmState, taskId: int, attachmentId: int)
    requires RestoreCheck(s.tasks, s.deletedAttachments, taskId, attachmentId).Proceed?
    ensures var s' := RestoreAttachmentStep(s, taskId, attachmentId, true);
      var p := RestoreCheck(s.tasks, s.deletedAttachments, taskId, attachmentId);
      FindTask(s'.tasks, taskId).Some? &&
      FindTask(s'.tasks, taskId).value.attachments ==
        p.task.attachments + [p.attachment.(isDeleted := false, deletedAt := None)] &&
      TotalSize(FindTask(s'.tasks, taskId).value.attachments) <= MAX_TOTAL_SIZE &&
      (forall b :: b in BinOf(s'.deletedAttachments, taskId) ==> b.id != attachmentId) &&
      (UniqueAttachmentIds(BinOf(s.deletedAttachments, taskId)) ==>
        |BinOf(s'.deletedAttachments, taskId)| == |BinOf(s.deletedAttachments, taskId)| - 1)
  {
    var p := RestoreCheck(s.tasks, s.deletedAttachments, taskId, attachmentId);
    var restored := p.attachment.(isDeleted := false, deletedAt := None);
    FindTaskAfterEdit(s.tasks, taskId, SetTo(p.task.(attachments := p.task.attachments + [restored])));
    TotalSizeAppend(p.task.attachments, restored);
    TotalSizeAppend(p.task.attachments, p.attachment);
    if UniqueAttachmentIds(BinOf(s.deletedAttachments, taskId)) {
      RemoveOneAttachment(BinOf(s.deletedAttachments, taskId), attachmentId);
    }
  }

  /** Every admin-gated team operation leaves the tasks and the teams alone
      when the caller's role in the team is not ADMIN. */
  lemma NonAdminChangesNothing(s: VmState, teamId: int, taskId: int, userId: int, role: Role,
                               name: string, description: string, success: bool)
    requires FindTeam(s.teams, teamId).Some? && !IsAdmin(FindTeam(s.teams, teamId).value, s.currentUserId)
    ensures UpdateTeamInfoStep(s, teamId, name, description, success).teams == s.teams
    ensures ApproveStep(s, teamId, userId, success).teams == s.teams
    ensures AssignStep(s, teamId, taskId, userId, success).tasks == s.tasks
    ensures RemoveMemberStep(s, teamId, userId, success).teams == s.teams
    ensures RoleStep(s, teamId, userId, role, success).teams == s.teams
    ensures UpdateTeamInfoStep(s, teamId, name, description, success).errorMessage ==
      (if IsBlank(name) then TeamNameBlank else OnlyAdminEditsTeam)
  {
  }

  /** A blank team name is refused first, whatever the team and the role. */
  lemma BlankNameRefusedFirst(s: VmState, teamId: int, name: string, description: string, success: bool)
    requires IsBlank(name)
    ensures UpdateTeamInfoStep(s, teamId, name, description, success) == s.(errorMessage := TeamNameBlank)
  {
  }

  /** An admin can neither remove nor re-role themselves. */
  lemma NoSelfMemberChanges(s: VmState, teamId: int, role: Role, success: bool)
    requires s.currentUserId.Some?
    ensures RemoveMemberStep(s, teamId, s.currentUserId.value, success).teams == s.teams
    ensures RoleStep(s, teamId, s.currentUserId.value, role, success).teams == s.teams
  {
  }

  /** After a successful approval by an admin, the team found under that id
      has the user as a MEMBER and no longer pending. */
  lemma ApprovalMakesMember(s: VmState, teamId: int, userId: int)
    requires FindTeam(s.teams, teamId).Some? && IsAdmin(FindTeam(s.teams, teamId).value, s.currentUserId)
    ensures var t := FindTeam(ApproveStep(s, teamId, userId, true).teams, teamId);
      t.Some? && RoleOf(t.value, Some(userId)) == Some(MEMBER) && userId !in t.value.pendingJoinRequests
  {
    FindTeamAfterEdit(s.teams, teamId, SetTeam(Approved(FindTeam(s.teams, teamId).value, userId)));
  }

  /** `requestJoinTeam` changes the teams only when the team exists, a user is
      logged in who is not yet a member, and the server accepts: then the
      team found under that id is the old one with the user appended to its
      pending requests. In every other case the teams are unchanged. */
  lemma RequestJoinMeaning(s: VmState, teamId: int, success: bool)
    ensures var s' := RequestJoinStep(s, teamId, success);
      var t := FindTeam(s.teams, teamId);
      if t.Some? && s.currentUserId.Some? && s.currentUserId.value !in t.value.members && success then
        FindTeam(s'.teams, teamId) ==
          Some(t.value.(pendingJoinRequests := t.value.pendingJoinRequests + [s.currentUserId.value]))
      else s'.teams == s.teams
  {
    if FindTeam(s.teams, teamId).Some? && s.currentUserId.Some? {
      FindTeamAfterEdit(s.teams, teamId, AddPending(s.currentUserId.value));
    }
  }

  /** A task is only ever assigned to a member of the team. */
  lemma AssignOnlyToMembers(s: VmState, teamId: int, taskId: int, userId: int, success: bool)
    requires AssignStep(s, teamId, taskId, userId, success).tasks != s.tasks
    ensures FindTeam(s.teams, teamId).Some? && userId in FindTeam(s.teams, teamId).value.members
    ensures IsAdmin(FindTeam(s.teams, teamId).value, s.currentUserId)
    ensures FindTask(AssignStep(s, teamId, taskId, userId, success).tasks, taskId).value.assignedTo == Some(userId)
  {
    FindTaskAfterEdit(s.tasks, taskId, AssignTo(userId));
  }

  /** The sort toggle reorders the list without losing or adding a task,
      flips the flag, and orders stably by priority (then tag initial) when the
      flag was off and by `order` when it was on. */
  lemma SortStepMeaning(s: VmState, syncSuccess: bool, k: int)
    ensures var s' := SortStep(s, syncSuccess);
      var key := if s.isSortByPriority then Sorting.OrderKey else Sorting.PriorityKey;
      multiset(s'.tasks) == multiset(s.tasks) &&
      Sorting.SortedBy(s'.tasks, key) &&
      Sorting.WithKey(s'.tasks, key, k) == Sorting.WithKey(s.tasks, key, k) &&
      s'.isSortByPriority == !s.isSortByPriority
  {
    var key := if s.isSortByPriority then Sorting.OrderKey else Sorting.PriorityKey;
    Sorting.SortBySorted(s.tasks, key);
    Sorting.SortByStable(s.tasks, key, k);
  }

  class TaskViewModel {
    var tasks: seq<Task>
    var deletedTasks: seq<Task>
    var teams: seq<Team>
    var deletedAttachments: map<int, seq<Attachment>>
    var isSortByPriority: bool
    var currentUserId: Option<int>
    var errorMessage: Notice

    /** The view model before its first load: empty lists, the stored user id
        (the stored value -1 means none). */
    constructor (storedUserId: int)
      ensures State() == VmState([], [], [], map[], false,
                                 if storedUserId == -1 then None else Some(storedUserId), NoNotice)
    {
      tasks := [];
      deletedTasks := [];
      teams := [];
      deletedAttachments := map[];
      isSortByPriority := false;
      currentUserId := if storedUserId == -1 then None else Some(storedUserId);
      errorMessage := NoNotice;
    }

    function State(): VmState
      reads this
    {
      VmState(tasks, deletedTasks, teams, deletedAttachments, isSortByPriority, currentUserId, errorMessage)
    }

    /** `createTask`: the task goes to the end (order = list size); a team
        task's id is added to its team. `created` is the server's reply body;
        a missing body raises and counts as a failure. A created task then has
        its reminders scheduled: `scheduled` is the alarm plan registered for
        it, and nothing is registered on a failure. */
    method CreateTask(task: Task, success: bool, created: Option<Task>,
                      parseDate: string -> Option<int>, parseTime: string -> Option<(int, int)>,
                      now: int, exactAllowed: bool)
      returns (scheduled: seq<Reminders.Alarm>)
      modifies this
      ensures State() == CreateTaskStep(old(State()), task, success, created)
      ensures scheduled ==
        if success && created.Some? then Reminders.SchedulePlan(created.value, parseDate, parseTime, now, exactAllowed)
        else []
    {
      var request := task.(order := |tasks|);
      if success && created.Some? {
        tasks := tasks + [created.value];
        teams := TeamSync(teams, request, AddTaskId(created.value.id));
        errorMessage := TaskCreated;
        scheduled := Reminders.ScheduleNotifications(created.value, parseDate, parseTime, now, exactAllowed);
      } else {
        errorMessage := TaskCreateFailed;
        scheduled := [];
      }
    }

    /** `createSubTask`: nothing happens when the parent is unknown. */
    method CreateSubTask(parentId: int, sub: Task, success: bool, created: Option<Task>)
      returns (request: Option<Task>)
      modifies this
      ensures State() == CreateSubTaskStep(old(State()), parentId, sub, success, created)
      ensures request == match FindTask(old(tasks), parentId)
        case None => None
        case Some(p) => Some(SubTaskRequest(p, parentId, sub, |old(tasks)|))
    {
      var parent := FindTask(tasks, parentId);
      if parent.None? {
        return None;
      }
      request := Some(SubTaskRequest(parent.value, parentId, sub, |tasks|));
      if success && created.Some? {
        tasks := tasks + [created.value];
        teams := TeamSync(teams, request.value, AddTaskId(created.value.id));
        errorMessage := SubTaskCreated;
      } else {
        errorMessage := SubTaskCreateFailed;
      }
    }

    /** `updateTask`: every task with that id is replaced. */
    method UpdateTask(task: Task, success: bool)
      modifies this
      ensures State() == UpdateTaskStep(old(State()), task, success)
    {
      if success {
        tasks := EditTasks(tasks, task.id, SetTo(task));
        errorMessage := TaskUpdated;
      } else {
        errorMessage := TaskUpdateFailed;
      }
    }

    /** `markTaskAsInProgress`: an update with the status set to IN_PROGRESS. */
    method MarkTaskAsInProgress(task: Task, success: bool)
      modifies this
      ensures State() == UpdateTaskStep(old(State()), task.(status := InProgress), success)
    {
      UpdateTask(task.(status := InProgress), success);
    }

    /** `markTaskAsCompleted`: every task with that id becomes DONE. */
    method MarkTaskAsCompleted(task: Task, success: bool)
      modifies this
      ensures State() == MarkCompletedStep(old(State()), task, success)
    {
      if success {
        tasks := EditTasks(tasks, task.id, MarkDone);
        errorMessage := TaskCompleted;
      } else {
        errorMessage := TaskCompleteFailed;
      }
    }

    /** `deleteTask`: see `DeleteTaskMovesToBin`. */
    method DeleteTask(task: Task, now: int, success: bool)
      modifies this
      ensures State() == DeleteTaskStep(old(State()), task, now, success)
    {
      if success {
        tasks := WithoutTask(tasks, task.id);
        deletedTasks := deletedTasks + [Binned(task, now)];
        teams := TeamSync(teams, task, DropTaskId(task.id));
        errorMessage := TaskMovedToBin;
      } else {
        errorMessage := TaskDeleteFailed;
      }
    }

    /** `restoreTask`: see `RestoreTaskBringsBack`. */
    method RestoreTask(task: Task, success: bool)
      modifies this
      ensures State() == RestoreTaskStep(old(State()), task, success)
    {
      if success {
        deletedTasks := WithoutTask(deletedTasks, task.id);
        tasks := tasks + [Restored(task, |tasks|)];
        teams := TeamSync(teams, task, AddTaskId(task.id));
        errorMessage := TaskRestored;
      } else {
        errorMessage := TaskRestoreFailed;
      }
    }

    /** `permanentlyDeleteTask`: the id leaves the bin and its team's list. */
    method PermanentlyDeleteTask(task: Task, success: bool)
      modifies this
      ensures State() == PurgeTaskStep(old(State()), task, success)
    {
      if success {
        deletedTasks := WithoutTask(deletedTasks, task.id);
        teams := TeamSync(teams, task, DropTaskId(task.id));
        errorMessage := TaskPurged;
      } else {
        errorMessage := TaskPurgeFailed;
      }
    }

    /** The launched body of `cleanupExpiredTasks`: one permanent deletion per
        selected task, in order. */
    method PurgeTasks(sel: seq<Task>, purged: nat -> bool)
      modifies this
      ensures State() == PurgeAll(old(State()), sel, purged)
    {
      var i := 0;
      while i < |sel|
        invariant 0 <= i <= |sel|
        invariant State() == PurgeAll(old(State()), sel[..i], purged)
      {
        assert sel[..i + 1][..i] == sel[..i];
        PermanentlyDeleteTask(sel[i], purged(i));
        i := i + 1;
      }
      assert sel[..|sel|] == sel;
    }

    /** `loadTasks` with its two clean-ups: the list is replaced by the
        server's (a missing body counts as empty), then the expired bin entries
        are purged and the expired binned attachments removed. A deletion time
        that does not parse raises inside a clean-up, which the load reports;
        a task purge already launched still runs. */
    method LoadTasks(success: bool, body: Option<seq<Task>>, now: int,
                     purged: nat -> bool, attachmentPurged: (int, int) -> bool)
      modifies this
      ensures State() == LoadTasksStep(old(State()), success, body, now, purged, attachmentPurged)
    {
      if currentUserId.None? {
        errorMessage := NotLoggedIn;
        return;
      }
      if !success {
        errorMessage := LoadFailed;
        return;
      }
      tasks := if body.Some? then body.value else [];
      errorMessage := NoNotice;
      var sel := ExpiredTasks(deletedTasks, now);
      if sel.None? {
        errorMessage := LoadFailed;
        return;
      }
      var attachmentsFail := SomeAttachmentUnparseable(deletedAttachments);
      if attachmentsFail {
        errorMessage := LoadFailed;
      }
      var bins := deletedAttachments;
      PurgeTasks(sel.value, purged);
      if !attachmentsFail {
        deletedAttachments := PurgedAttachments(bins, now, attachmentPurged);
      }
    }

    /** `sortByPriority`: see `SortStepMeaning`. */
    method SortByPriority(syncSuccess: bool)
      modifies this
      ensures State() == SortStep(old(State()), syncSuccess)
    {
      tasks := if isSortByPriority then Sorting.SortBy(tasks, Sorting.OrderKey)
               else Sorting.SortBy(tasks, Sorting.PriorityKey);
      isSortByPriority := !isSortByPriority;
      if !syncSuccess {
        errorMessage := SortSyncFailed;
      }
    }

    /** `uploadAttachmentFromUri`: the size, task and readability checks, then
        the upload; `returned` is the attachment the server sends back. */
    method UploadAttachment(taskId: int, fileSize: int, readable: bool, success: bool, returned: Option<Attachment>)
      modifies this
      ensures State() == UploadStep(old(State()), taskId, fileSize, readable, success, returned)
    {
      var rejection := UploadRejection(tasks, taskId, fileSize, readable);
      if rejection.Some? {
        errorMessage := rejection.value;
        return;
      }
      if success && returned.Some? {
        tasks := EditTasks(tasks, taskId, AddAttachment(returned.value));
        errorMessage := AttachmentUploaded;
      } else if success {
        errorMessage := UploadNoData;
      } else {
        errorMessage := UploadFailed;
      }
    }

    /** `deleteAttachment`: see `DeleteAttachmentMovesOne`. */
    method DeleteAttachment(taskId: int, attachmentId: int, now: int, success: bool)
      modifies this
      ensures State() == DeleteAttachmentStep(old(State()), taskId, attachmentId, now, success)
    {
      var task := FindTask(tasks, taskId);
      if task.None? {
        return;
      }
      var a := FindAttachment(task.value.attachments, attachmentId);
      if a.None? {
        return;
      }
      if success {
        var updated := task.value.(attachments := WithoutAttachment(task.value.attachments, attachmentId));
        tasks := EditTasks(tasks, taskId, SetTo(updated));
        var recycled := a.value.(isDeleted := true, deletedAt := Some(Stamp(true, now)));
        deletedAttachments := deletedAttachments[taskId := BinOf(deletedAttachments, taskId) + [recycled]];
        errorMessage := AttachmentDeleted;
      } else {
        errorMessage := AttachmentDeleteFailed;
      }
    }

    /** `restoreAttachment`: the result says whether the restore was sent. */
    method RestoreAttachment(taskId: int, attachmentId: int, success: bool) returns (accepted: bool)
      modifies this
      ensures accepted <==> RestoreCheck(old(tasks), old(deletedAttachments), taskId, attachmentId).Proceed?
      ensures State() == RestoreAttachmentStep(old(State()), taskId, attachmentId, success)
    {
      var plan := RestoreCheck(tasks, deletedAttachments, taskId, attachmentId);
      if plan.Refuse? {
        if plan.capExceeded {
          errorMessage := AttachmentTooLarge;
        }
        return false;
      }
      if success {
        var restored := plan.attachment.(isDeleted := false, deletedAt := None);
        tasks := EditTasks(tasks, taskId, SetTo(plan.task.(attachments := plan.task.attachments + [restored])));
        deletedAttachments := deletedAttachments[taskId :=
          WithoutAttachment(BinOf(deletedAttachments, taskId), attachmentId)];
        errorMessage := AttachmentRestored;
      } else {
        errorMessage := AttachmentRestoreFailed;
      }
      return true;
    }

    /** `updateTeamInfo`. */
    method UpdateTeamInfo(teamId: int, newName: string, newDescription: string, success: bool)
      modifies this
      ensures State() == UpdateTeamInfoStep(old(State()), teamId, newName, newDescription, success)
    {
      if IsBlank(newName) {
        errorMessage := TeamNameBlank;
        return;
      }
      var team := FindTeam(teams, teamId);
      if team.None? {
        return;
      }
      if !IsAdmin(team.value, currentUserId) {
        errorMessage := OnlyAdminEditsTeam;
        return;
      }
      if success {
        teams := EditTeams(teams, teamId, SetTeam(team.value.(name := newName, description := newDescription)));
        errorMessage := TeamInfoUpdated;
      } else {
        errorMessage := TeamUpdateFailed;
      }
    }

    /** `requestJoinTeam`. */
    method RequestJoinTeam(teamId: int, success: bool)
      modifies this
      ensures State() == RequestJoinStep(old(State()), teamId, success)
    {
      var team := FindTeam(teams, teamId);
      if team.None? {
        return;
      }
      if currentUserId.Some? && currentUserId.value in team.value.members {
        errorMessage := AlreadyMember;
        return;
      }
      if currentUserId.None? {
        errorMessage := NotLoggedIn;
      } else if success {
        teams := EditTeams(teams, teamId, AddPending(currentUserId.value));
        errorMessage := JoinRequested;
      } else {
        errorMessage := JoinRequestFailed;
      }
    }

    /** `approveJoinRequest`. */
    method ApproveJoinRequest(teamId: int, userId: int, success: bool)
      modifies this
      ensures State() == ApproveStep(old(State()), teamId, userId, success)
    {
      var team := FindTeam(teams, teamId);
      if team.None? {
        return;
      }
      if !IsAdmin(team.value, currentUserId) {
        errorMessage := OnlyAdminApproves;
        return;
      }
      if success {
        teams := EditTeams(teams, teamId, SetTeam(Approved(team.value, userId)));
        errorMessage := JoinApproved(userId);
      } else {
        errorMessage := ApproveFailed;
      }
    }

    /** `assignTask`. */
    method AssignTask(teamId: int, taskId: int, userId: int, success: bool)
      modifies this
      ensures State() == AssignStep(old(State()), teamId, taskId, userId, success)
    {
      var team := FindTeam(teams, teamId);
      if team.None? {
        return;
      }
      if IsAdmin(team.value, currentUserId) && userId in team.value.members {
        if success {
          tasks := EditTasks(tasks, taskId, AssignTo(userId));
          errorMessage := TaskAssigned;
        } else {
          errorMessage := AssignFailed;
        }
      } else {
        errorMessage := CannotAssign;
      }
    }

    /** `removeMemberFromTeam`. */
    method RemoveMemberFromTeam(teamId: int, userId: int, success: bool)
      modifies this
      ensures State() == RemoveMemberStep(old(State()), teamId, userId, success)
    {
      var team := FindTeam(teams, teamId);
      if team.None? {
        return;
      }
      if !IsAdmin(team.value, currentUserId) {
        errorMessage := OnlyAdminRemoves;
        return;
      }
      if currentUserId == Some(userId) {
        errorMessage := CannotRemoveSelf;
        return;
      }
      if success {
        teams := EditTeams(teams, teamId, SetTeam(WithoutMember(team.value, userId)));
        errorMessage := MemberRemoved;
      } else {
        errorMessage := RemoveMemberFailed;
      }
    }

    /** `updateMemberRole`. */
    method UpdateMemberRole(teamId: int, userId: int, newRole: Role, success: bool)
      modifies this
      ensures State() == RoleStep(old(State()), teamId, userId, newRole, success)
    {
      var team := FindTeam(teams, teamId);
      if team.None? {
        return;
      }
      if !IsAdmin(team.value, currentUserId) {
        errorMessage := OnlyAdminChangesRole;
        return;
      }
      if currentUserId == Some(userId) {
        errorMessage := CannotChangeOwnRole;
        return;
      }
      if success {
        teams := EditTeams(teams, teamId, SetTeam(WithRole(team.value, userId, newRole)));
        errorMessage := RoleUpdated;
      } else {
        errorMessage := RoleUpdateFailed;
      }
    }
  }
}
