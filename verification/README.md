# Bit_list task manager: a Dafny model of its client logic

Bit_list is an Android task-manager client. Users keep personal and team
tasks with sub-tasks, checklists, attachments, reminders and a recycle bin,
and they can run a focus ("tomato") timer. This project models the logic
that sits between its screens and its server, and proves properties of it.
Each modelled unit follows the form of its Kotlin source.

- **`Tasks`** (`task_view_model.dfy`) models the task and team view model as the class `TaskViewModel`.
  - It holds the task list, the recycle bin, the teams and the attachment bins.
  - Each operation is a method with one contract: the new state equals a pure step function of the old state.
  - Every network reply is an input: `success`, and the returned entity where there is one.
  - The properties of the steps are lemmas: moves into and out of the bin, the 7-day expiry rule, the attachment size caps and the admin gating of team changes.
- **`Progress`** and **`Sorting`** hold the derived values of that view model:
  - weighted parent-task and team progress, as `real` percentages of weight sums that wrap around like Kotlin's 32-bit `Int`;
  - the edit permission;
  - the order and priority sorts. The priority sort is a stable insertion sort on a packed key, proved equal to the comparator.
- **`Reminders`** models the alarm plan that `scheduleNotifications` registers, as a list of alarms.
  - It covers the offset codes `id + i` and the daily code `2000000000 + id`, both with 32-bit wrap-around.
  - It covers the codes `cancelNotifications` cancels, and the dispatch of `NotificationReceiver.onReceive`.
- **`TomatoClock`** models the focus timer as the class `TomatoClockView`. Elapsed time is integer milliseconds, not the animator's float fraction.
- **`Accounts`** models the account view model as the class `UserViewModel`: the ordered form checks, login, logout and the session restored at start-up.
- **`TaskScreen`**, **`Calendar`**, **`CreateTask`**, **`EditTask`**, **`RecycleBin`** and **`Overdue`** model the screens' own logic:
  - list filters and form state (as classes), and the checks of the create and save buttons;
  - the calendar's ISO dates, navigation, 42-cell month grid and due-date colours;
  - the recycle-bin countdown.
- **`Domain`**, **`Text`**, **`Lists`** and **`Checklists`** hold the shared pieces:
  - the records of `DataModels.kt`;
  - Kotlin's `isBlank`, `trim`, `split`, `joinToString`, `toIntOrNull` (which reads decimal digits of every script) and 32-bit wrap-around;
  - `filter` and `removeAt`;
  - the checklist editor the three task forms share.

The system's clock and its date parsers are parameters:
- `now` is in epoch seconds or milliseconds;
- `today` is an epoch day or a `Date`;
- `LocalDate.parse` is a function `string -> Option<int>` giving the epoch day;
- a stored `ZonedDateTime` is a `Stamp(parses, second)`.

Error messages are constructors of a `Notice` datatype.

## Model

Source paths are relative to the repository root.

| member | source | states |
|---|---|---|
| Domain.FindTask | MyApplication/app/src/main/java/com/example/software_project/TaskViewModel.kt:880 | `tasks.find { it.id == id }` returns a task of the list with that id, and null exactly when no task has it |
| Domain.FindTaskFirst | MyApplication/app/src/main/java/com/example/software_project/TaskViewModel.kt:880 | the task `find` returns is the first with that id: every earlier task has another id |
| Domain.FindTeam | MyApplication/app/src/main/java/com/example/software_project/TaskViewModel.kt:948 | `teams.find` returns a team of the list with that id, and null exactly when there is none |
| Domain.FindTeamFirst | MyApplication/app/src/main/java/com/example/software_project/TaskViewModel.kt:948 | the team `find` returns is the first with that id: every earlier team has another id |
| Domain.RoleOf | MyApplication/app/src/main/java/com/example/software_project/TaskViewModel.kt:949 | `team.members[currentUserId]` is present exactly when the user id is non-null and a key, and it is that entry |
| Domain.MethodOf | MyApplication/app/src/main/java/com/example/software_project/NotificationScheduler.kt:156 | `ReminderMethod.valueOf` returns the one constant whose name is the string, and fails for any other string |
| Domain.PriorityOrdinal | MyApplication/app/src/main/java/com/example/software_project/DataModels.kt:204 | priority ordinals lie in 0..4 |
| Domain.RoleName | MyApplication/app/src/main/java/com/example/software_project/DataModels.kt:203 | `Role.toString()` is "ADMIN" or "MEMBER" |
| Text.TrimStart | MyApplication/app/src/main/java/com/example/software_project/CreateTaskScreen.kt:326 | the result is a suffix that starts with no whitespace; only whitespace was dropped |
| Text.TrimEnd | MyApplication/app/src/main/java/com/example/software_project/CreateTaskScreen.kt:326 | the result is a prefix that ends with no whitespace; only whitespace was dropped |
| Text.Trim | MyApplication/app/src/main/java/com/example/software_project/CreateTaskScreen.kt:326 | `trim()` neither starts nor ends with whitespace and draws its characters from the input |
| Text.TrimOfTrimmed | MyApplication/app/src/main/java/com/example/software_project/CreateTaskScreen.kt:326 | trimming is the identity on a string already trimmed |
| Text.BlankIffTrimEmpty | MyApplication/app/src/main/java/com/example/software_project/CreateTaskScreen.kt:307 | `isBlank()` holds exactly when `trim()` is empty |
| Text.Split | MyApplication/app/src/main/java/com/example/software_project/CreateTaskScreen.kt:326 | `split(",")` yields at least one piece, and no piece holds a comma |
| Text.SplitJoin | MyApplication_finalv/app/src/main/java/com/example/software_project/EditTaskScreen.kt:58 | splitting a `joinToString(",")` of comma-free pieces gives the pieces back |
| Text.TrimAll | MyApplication/app/src/main/java/com/example/software_project/CreateTaskScreen.kt:326 | `map { it.trim() }` keeps one trimmed piece per piece, in order |
| Text.TrimAndDropEmpty | MyApplication/app/src/main/java/com/example/software_project/CreateTaskScreen.kt:326 | `map { trim } .filter { isNotEmpty }` keeps only non-empty trimmed pieces |
| Text.TrimAndDropEmptyIsFilter | MyApplication/app/src/main/java/com/example/software_project/CreateTaskScreen.kt:326 | the kept pieces are exactly the trimmed pieces that `isNotEmpty` accepts, in their original order |
| Text.ParseTagsWellFormed | MyApplication/app/src/main/java/com/example/software_project/CreateTaskScreen.kt:326 | every parsed tag is non-empty, trimmed and comma-free |
| Text.ParseJoinedTags | MyApplication_finalv/app/src/main/java/com/example/software_project/EditTaskScreen.kt:58 | the edit form's joined tag text parses back to the same tags when they are well formed |
| Text.DigitValue | MyApplication/app/src/main/java/com/example/software_project/TaskScreen.kt:121 | a decimal digit of any script has a value below 10, and an ASCII digit its usual value |
| Text.DigitsValue | MyApplication/app/src/main/java/com/example/software_project/TaskScreen.kt:121 | a digit run has a value exactly when it is non-empty and every character is a decimal digit of some script, as `Character.digit` accepts them |
| Text.ShowNat | MyApplication/app/src/main/java/com/example/software_project/TomatoClockView.kt:48 | decimal rendering is a non-empty run of ASCII digits |
| Text.DigitsOfShowNat | MyApplication/app/src/main/java/com/example/software_project/TomatoClockView.kt:48 | the digits of a rendered number read back as that number |
| Text.ParseInteger | MyApplication/app/src/main/java/com/example/software_project/NotificationScheduler.kt:134-136 | `toIntOrNull`/`toLongOrNull` only return values inside the target range |
| Text.ParseShowInt | MyApplication/app/src/main/java/com/example/software_project/TaskScreen.kt:121 | every in-range integer, rendered, parses back to itself |
| Text.NoDigitNoInteger | MyApplication/app/src/main/java/com/example/software_project/NotificationScheduler.kt:134-136 | a text with no decimal digit of any script parses to null |
| Text.ScriptDigitsParse | MyApplication/app/src/main/java/com/example/software_project/TaskScreen.kt:121 | `toIntOrNull` reads digits of other scripts: Arabic-Indic four-two is 42, fullwidth minus-four-two is -42, and `toLongOrNull` reads Devanagari one with ASCII zero as 10 |
| Text.Pad2 | MyApplication/app/src/main/java/com/example/software_project/TomatoClockView.kt:48 | `%02d` in a locale with ASCII digits gives at least two digits reading back as the number, exactly two below 100 |
| Lists.Filter | MyApplication/app/src/main/java/com/example/software_project/TaskScreen.kt:203 | `filter` keeps exactly the elements that pass, and never grows the list |
| Lists.FilterIsSubsequence | MyApplication/app/src/main/java/com/example/software_project/TaskScreen.kt:203 | `filter` keeps the relative order of what it keeps |
| Lists.RemoveAt | MyApplication_finalv/app/src/main/java/com/example/software_project/EditTaskScreen.kt:146-147 | `removeAt(i)` drops item i and shifts the later ones down by one, keeping the earlier ones |
| Lists.RemoveAtAfterAppend | MyApplication/app/src/main/java/com/example/software_project/TaskScreen.kt:87 | removing the last appended element gives the list back |
| Lists.RemoveFirst | MyApplication/app/src/main/java/com/example/software_project/CreateTaskScreen.kt:261-262 | `remove(x)` removes one occurrence when present (as a multiset), and changes nothing otherwise |
| Lists.RemoveFirstAfterAppend | MyApplication/app/src/main/java/com/example/software_project/CreateTaskScreen.kt:261-262 | appending a new element and then removing it gives the list back |
| Lists.RemoveFirstDistinct | MyApplication/app/src/main/java/com/example/software_project/CreateTaskScreen.kt:261-262 | on a list without duplicates, `remove(x)` removes exactly x and keeps the list duplicate-free |
| Checklists.WithNewItem | MyApplication/app/src/main/java/com/example/software_project/CreateTaskScreen.kt:138-143 | a blank text adds nothing; otherwise one unchecked item with that text is appended and the old items are kept |
| Checklists.WithCompleted | MyApplication_finalv/app/src/main/java/com/example/software_project/EditTaskScreen.kt:137-143 | the checkbox changes only `isCompleted` of item i; every other item is unchanged |
| Checklists.TickThenUntickItem | MyApplication_finalv/app/src/main/java/com/example/software_project/EditTaskScreen.kt:137-143 | ticking an unticked item and then unticking it restores the checklist; ticking twice is ticking once |
| Checklists.AddThenDeleteItem | MyApplication_finalv/app/src/main/java/com/example/software_project/EditTaskScreen.kt:146-161 | an item added and then deleted by its row leaves the checklist as it was |
| Progress.SumOfPermutation | MyApplication/app/src/main/java/com/example/software_project/TaskViewModel.kt:883 | `sumOf` does not depend on the order of the tasks |
| Progress.IntSumOf | MyApplication/app/src/main/java/com/example/software_project/TaskViewModel.kt:882 | `sumOf` over `Int` weights always yields an `Int`-range value |
| Progress.IntSumWraps | MyApplication/app/src/main/java/com/example/software_project/TaskViewModel.kt:882-887 | the wrapping `Int` sum equals the exact sum wrapped once modulo 2^32, and equals the exact sum whenever that fits in an `Int` |
| Progress.DoneWithinTotal | MyApplication/app/src/main/java/com/example/software_project/TaskViewModel.kt:882-887 | with non-negative weights whose exact total fits in an `Int`, the completed `Int` sum lies between 0 and the total `Int` sum |
| Progress.AllDoneSums | MyApplication/app/src/main/java/com/example/software_project/TaskViewModel.kt:883-887 | when all are done, the completed weight is the total weight |
| Progress.NoneDoneSums | MyApplication/app/src/main/java/com/example/software_project/TaskViewModel.kt:885-887 | when none is done, the completed weight is 0 |
| Progress.Children | MyApplication/app/src/main/java/com/example/software_project/TaskViewModel.kt:879 | the children are exactly the tasks whose `parentTaskId` is the id; only direct children count |
| Progress.PercentBounds | MyApplication/app/src/main/java/com/example/software_project/TaskViewModel.kt:889 | a share of done within total weight, in percent, lies in [0, 100] |
| Progress.ChildlessProgress | MyApplication/app/src/main/java/com/example/software_project/TaskViewModel.kt:878-880 | without children, progress is 100 exactly when the task with that id is DONE, and 0 otherwise, including when no task has the id |
| Progress.ParentProgressWithChildren | MyApplication/app/src/main/java/com/example/software_project/TaskViewModel.kt:879-889 | with children, progress is 100 times the completed `Int` sum over the total `Int` sum, and 0 when that total is 0 |
| Progress.ParentProgressBounds | MyApplication/app/src/main/java/com/example/software_project/TaskViewModel.kt:878-889 | with non-negative weights whose exact total over the children fits in an `Int`, progress lies in [0, 100] |
| Progress.ParentProgressOverflow | MyApplication/app/src/main/java/com/example/software_project/TaskViewModel.kt:882-889 | a DONE child of weight 2147483647 and a TODO child of weight 1 wrap the total to -2147483648 and give a negative progress |
| Progress.ParentProgressAllDone | MyApplication/app/src/main/java/com/example/software_project/TaskViewModel.kt:878-889 | children all DONE whose total `Int` sum is non-zero give 100 |
| Progress.ParentProgressNoneDone | MyApplication/app/src/main/java/com/example/software_project/TaskViewModel.kt:878-889 | children none of which is DONE give 0 |
| Progress.ParentProgressOrderIndependent | MyApplication/app/src/main/java/com/example/software_project/TaskViewModel.kt:878-889 | reordering the children leaves the progress unchanged |
| Progress.ChildrenOfPermutation | MyApplication/app/src/main/java/com/example/software_project/TaskViewModel.kt:879 | a permuted task list has a permuted child list |
| Progress.ProgressUnderPermutation | MyApplication/app/src/main/java/com/example/software_project/TaskViewModel.kt:878-889 | any permutation of the task list, the priority sort for one, keeps every parent's progress |
| Progress.RootTeamTasks | MyApplication/app/src/main/java/com/example/software_project/TaskViewModel.kt:916 | the team's root tasks are exactly its tasks with no parent |
| Progress.TeamProgressZero | MyApplication/app/src/main/java/com/example/software_project/TaskViewModel.kt:914-921 | team progress is 0 for an unknown team and for a team without root tasks |
| Progress.TeamProgressMeaning | MyApplication/app/src/main/java/com/example/software_project/TaskViewModel.kt:914-921 | for a known team whose total `Int` sum is positive, team progress is the completed `Int` sum's share of it; with non-negative weights whose exact total fits in an `Int` it lies in [0, 100] |
| Progress.TeamProgressIgnoresOthers | MyApplication/app/src/main/java/com/example/software_project/TaskViewModel.kt:916 | adding a task that is not a root task of the team leaves its progress unchanged |
| Progress.CanModifyTable | MyApplication/app/src/main/java/com/example/software_project/TaskViewModel.kt:943-968 | the permission table: personal task or null team means yes; unknown team means no; ADMIN means yes; MEMBER means yes iff assigned to the user or to nobody; anything else means no |
| Progress.OthersTaskNeedsAdmin | MyApplication/app/src/main/java/com/example/software_project/TaskViewModel.kt:955-967 | on a team task assigned to someone else, only an ADMIN of its team may modify it |
| Sorting.Insert | MyApplication/app/src/main/java/com/example/software_project/TaskViewModel.kt:540-546 | insertion adds exactly the one element (as a multiset) |
| Sorting.InsertSorted | MyApplication/app/src/main/java/com/example/software_project/TaskViewModel.kt:540-546 | inserting into a sorted list keeps it sorted |
| Sorting.SortBy | MyApplication/app/src/main/java/com/example/software_project/TaskViewModel.kt:540-546 | `sortedBy`/`sortedWith` return a permutation of the list |
| Sorting.SortBySorted | MyApplication/app/src/main/java/com/example/software_project/TaskViewModel.kt:540-546 | the result is ordered by the key |
| Sorting.InsertWithKey | MyApplication/app/src/main/java/com/example/software_project/TaskViewModel.kt:540-546 | insertion places the element after the earlier elements with an equal key |
| Sorting.SortByStable | MyApplication/app/src/main/java/com/example/software_project/TaskViewModel.kt:540-546 | the sort is stable: elements with equal keys keep their relative order |
| Sorting.SortBySortedIsIdentity | MyApplication/app/src/main/java/com/example/software_project/TaskViewModel.kt:541 | a list already in key order is unchanged |
| Sorting.LowerAscii | MyApplication/app/src/main/java/com/example/software_project/TaskViewModel.kt:545 | `lowercase()` maps A..Z to a..z and fixes every other character |
| Sorting.TagInitial | MyApplication/app/src/main/java/com/example/software_project/TaskViewModel.kt:545 | the tie-break key exists exactly when the first tag exists and is non-empty, and is its lowered first character |
| Sorting.InitialRank | MyApplication/app/src/main/java/com/example/software_project/TaskViewModel.kt:545 | the tie-break rank of a tag initial, null included, lies in a fixed range of non-negative numbers |
| Sorting.PriorityKeyMatchesComparator | MyApplication/app/src/main/java/com/example/software_project/TaskViewModel.kt:543-546 | the packed key orders two tasks exactly as the comparator does: descending priority ordinal, then the tag initial with null first; equal keys are exactly the comparator's ties |
| Sorting.PrioritySortOrder | MyApplication/app/src/main/java/com/example/software_project/TaskViewModel.kt:543-546 | after the priority sort, every task comes before or ties with each later one under the comparator |
| Tasks.ApplyTaskEdit | MyApplication/app/src/main/java/com/example/software_project/TaskViewModel.kt:462 | each per-task edit changes exactly the field it names |
| Tasks.EditTasks | MyApplication/app/src/main/java/com/example/software_project/TaskViewModel.kt:928 | `tasks.map { if (it.id == id) … else it }` edits exactly the tasks with that id, in place |
| Tasks.ApplyTeamEdit | MyApplication/app/src/main/java/com/example/software_project/TaskViewModel.kt:524-526 | each per-team edit changes exactly the field it names |
| Tasks.EditTeams | MyApplication/app/src/main/java/com/example/software_project/TaskViewModel.kt:524-526 | `teams.map` edits exactly the teams with that id, in place |
| Tasks.TeamSync | MyApplication/app/src/main/java/com/example/software_project/TaskViewModel.kt:523-526 | a task's team list is touched only for a team task with a team id |
| Tasks.WithoutInt | MyApplication/app/src/main/java/com/example/software_project/TaskViewModel.kt:525 | `filter { id -> id != task.id }` drops exactly that id |
| Tasks.WithoutTask | MyApplication/app/src/main/java/com/example/software_project/TaskViewModel.kt:437 | `filter { it.id != task.id }` drops exactly the tasks with that id |
| Tasks.FindAttachment | MyApplication/app/src/main/java/com/example/software_project/TaskViewModel.kt:140 | `attachments.find` returns an attachment with that id, and null exactly when there is none |
| Tasks.WithoutAttachment | MyApplication/app/src/main/java/com/example/software_project/TaskViewModel.kt:146 | `filter { it.id != attachmentId }` drops exactly that id |
| Tasks.RemoveOneAttachment | MyApplication/app/src/main/java/com/example/software_project/TaskViewModel.kt:146-147 | with unique ids, removing an attachment shortens the list by one and takes exactly its size off the total |
| Tasks.Binned | MyApplication/app/src/main/java/com/example/software_project/TaskViewModel.kt:432-433 | the binned copy is deleted, stamped with the deletion time, and otherwise the task |
| Tasks.Restored | MyApplication/app/src/main/java/com/example/software_project/TaskViewModel.kt:477 | the restored copy is undeleted, TODO, ordered last, without a deletion time, and otherwise the task |
| Tasks.RetentionInSeconds | MyApplication/app/src/main/java/com/example/software_project/TaskViewModel.kt:504 | `Duration.between(...).toDays() >= 7` holds exactly when at least 7 × 86400 seconds have passed |
| Tasks.ExpiredTasks | MyApplication/app/src/main/java/com/example/software_project/TaskViewModel.kt:499-506 | expiry selects exactly the binned tasks deleted at least 7 whole days ago; an unparseable time aborts the selection |
| Tasks.ExpiredAttachmentIds | MyApplication/app/src/main/java/com/example/software_project/TaskViewModel.kt:93-99 | the expired attachment ids are exactly those deleted at least 7 whole days ago; an unparseable time aborts |
| Tasks.PurgedAttachments | MyApplication/app/src/main/java/com/example/software_project/TaskViewModel.kt:89-133 | after the launched purge, each bin list loses exactly the expired attachments the server accepted, and keeps the rest |
| Tasks.PurgeList | MyApplication/app/src/main/java/com/example/software_project/TaskViewModel.kt:122-126 | one bin list loses exactly the purged ids |
| Tasks.UploadRejection | MyApplication/app/src/main/java/com/example/software_project/TaskViewModel.kt:600-615 | the upload goes ahead iff the file is at most 10 485 760 bytes, the task exists, the total plus the file is at most 104 857 600 bytes and the file is readable; a too-large file is reported first |
| Tasks.RestoreCheck | MyApplication/app/src/main/java/com/example/software_project/TaskViewModel.kt:165-174 | a restore proceeds iff the attachment is in the task's bin, the task exists and the new total stays within 104 857 600 bytes |
| Tasks.Approved | MyApplication/app/src/main/java/com/example/software_project/TaskViewModel.kt:779-781 | approval maps the user to "MEMBER", removes them from the pending list and keeps the other members and requests |
| Tasks.RequestThenApprove | MyApplication/app/src/main/java/com/example/software_project/TaskViewModel.kt:744-797 | a join request followed by its approval leaves the user a MEMBER who is no longer pending |
| Tasks.WithoutMember | MyApplication/app/src/main/java/com/example/software_project/TaskViewModel.kt:836-837 | removal drops exactly that member and keeps every other role |
| Tasks.WithRole | MyApplication/app/src/main/java/com/example/software_project/TaskViewModel.kt:865-866 | the role update sets exactly that member's role |
| Tasks.AdminKeepsRole | MyApplication/app/src/main/java/com/example/software_project/TaskViewModel.kt:823-858 | removal and role change refuse a self-target, so after either one the acting admin is still ADMIN |
| Tasks.ApprovalKeepsAdminUnlessSelf | MyApplication/app/src/main/java/com/example/software_project/TaskViewModel.kt:771-796 | approval has no self check: the acting admin is still ADMIN after it exactly when the approved id is not their own, and approving their own id makes them a MEMBER |
| Tasks.SubTaskRequest | MyApplication/app/src/main/java/com/example/software_project/TaskViewModel.kt:340-350 | the sub-task sent takes the parent's team fields, the parent id and order = list size, and is otherwise the sub-task given |
| Tasks.FindTaskAfterEdit | MyApplication/app/src/main/java/com/example/software_project/TaskViewModel.kt:928 | after an id-preserving edit, finding the id gives the edited task |
| Tasks.FindTeamAfterEdit | MyApplication/app/src/main/java/com/example/software_project/TaskViewModel.kt:524-526 | after an id-preserving team edit, finding the id gives the edited team |
| Tasks.DeleteTaskMovesToBin | MyApplication/app/src/main/java/com/example/software_project/TaskViewModel.kt:429-455 | a successful delete removes the id from the list, keeps the other tasks, appends the binned copy to the bin and keeps list and bin disjoint |
| Tasks.RestoreTaskBringsBack | MyApplication/app/src/main/java/com/example/software_project/TaskViewModel.kt:474-498 | a successful restore empties the bin of that id, appends the restored copy with order = old size and keeps list and bin disjoint |
| Tasks.RestoreTaskDuplicates | MyApplication/app/src/main/java/com/example/software_project/TaskViewModel.kt:476-482 | restore does not check for an existing task with the id, so restoring one that is listed duplicates the id |
| Tasks.DeleteThenRestore | MyApplication/app/src/main/java/com/example/software_project/TaskViewModel.kt:429-498 | deleting then restoring gives the bin back and puts the task last as TODO |
| Tasks.PurgeAllMeaning | MyApplication/app/src/main/java/com/example/software_project/TaskViewModel.kt:499-538 | the purges remove from the bin exactly the accepted ids and change nothing but the bin, the teams and the message |
| Tasks.UploadStaysUnderCap | MyApplication/app/src/main/java/com/example/software_project/TaskViewModel.kt:600-640 | an accepted upload appends the attachment and keeps the task's total within 104 857 600 bytes |
| Tasks.DeleteAttachmentMovesOne | MyApplication/app/src/main/java/com/example/software_project/TaskViewModel.kt:138-164 | a successful attachment delete moves exactly that attachment, stamped, to the end of the task's bin and takes its size off the total |
| Tasks.RestoreAttachmentMovesOne | MyApplication/app/src/main/java/com/example/software_project/TaskViewModel.kt:165-195 | a successful restore appends the undeleted attachment, keeps the cap and takes it out of the bin |
| Tasks.NonAdminChangesNothing | MyApplication/app/src/main/java/com/example/software_project/TaskViewModel.kt:385-395 | every admin-gated team operation by a non-admin leaves tasks and teams alone and sets the refusal message |
| Tasks.BlankNameRefusedFirst | MyApplication/app/src/main/java/com/example/software_project/TaskViewModel.kt:386-389 | a blank team name is refused before the team and role are looked at |
| Tasks.NoSelfMemberChanges | MyApplication/app/src/main/java/com/example/software_project/TaskViewModel.kt:823-830 | an admin can neither remove nor re-role themselves |
| Tasks.ApprovalMakesMember | MyApplication/app/src/main/java/com/example/software_project/TaskViewModel.kt:771-797 | after an admin's successful approval, the user is a MEMBER and no longer pending |
| Tasks.AssignOnlyToMembers | MyApplication/app/src/main/java/com/example/software_project/TaskViewModel.kt:798-820 | a task is only ever assigned by an admin to a member of the team, and then is assigned to that user |
| Tasks.SortStepMeaning | MyApplication/app/src/main/java/com/example/software_project/TaskViewModel.kt:539-548 | the sort toggle returns a stable-sorted permutation, by order when the flag was set and by priority otherwise, and flips the flag |
| Tasks.TaskViewModel.constructor | MyApplication/app/src/main/java/com/example/software_project/TaskViewModel.kt:61-64 | empty lists, and the stored user id unless it is -1 |
| Tasks.TaskViewModel.CreateTask | MyApplication/app/src/main/java/com/example/software_project/TaskViewModel.kt:314-339 | the new state is the create step: the created task is appended and joins its team's list; the alarms registered are exactly `scheduleNotifications`' plan for the created task, and none on a failure |
| Tasks.TaskViewModel.CreateSubTask | MyApplication/app/src/main/java/com/example/software_project/TaskViewModel.kt:340-370 | nothing is sent for an unknown parent; otherwise the sub-task request inherits the parent's team |
| Tasks.TaskViewModel.UpdateTask | MyApplication/app/src/main/java/com/example/software_project/TaskViewModel.kt:923-938 | every task with that id is replaced on success |
| Tasks.TaskViewModel.MarkTaskAsInProgress | MyApplication/app/src/main/java/com/example/software_project/TaskViewModel.kt:939-942 | an update with the status set to IN_PROGRESS |
| Tasks.TaskViewModel.MarkTaskAsCompleted | MyApplication/app/src/main/java/com/example/software_project/TaskViewModel.kt:456-473 | every task with that id becomes DONE on success |
| Tasks.TaskViewModel.DeleteTask | MyApplication/app/src/main/java/com/example/software_project/TaskViewModel.kt:429-455 | the new state is the delete step (see DeleteTaskMovesToBin) |
| Tasks.TaskViewModel.RestoreTask | MyApplication/app/src/main/java/com/example/software_project/TaskViewModel.kt:474-498 | the new state is the restore step (see RestoreTaskBringsBack) |
| Tasks.TaskViewModel.PermanentlyDeleteTask | MyApplication/app/src/main/java/com/example/software_project/TaskViewModel.kt:517-538 | on success the id leaves the bin and its team's list |
| Tasks.TaskViewModel.PurgeTasks | MyApplication/app/src/main/java/com/example/software_project/TaskViewModel.kt:508-512 | the `forEach` loop performs one permanent deletion per selected task, in order |
| Tasks.TaskViewModel.LoadTasks | MyApplication/app/src/main/java/com/example/software_project/TaskViewModel.kt:67-88 | the list is replaced by the reply, then both expiry clean-ups run; without a user nothing is loaded |
| Tasks.TaskViewModel.SortByPriority | MyApplication/app/src/main/java/com/example/software_project/TaskViewModel.kt:539-560 | the new state is the sort step (see SortStepMeaning) |
| Tasks.TaskViewModel.UploadAttachment | MyApplication/app/src/main/java/com/example/software_project/TaskViewModel.kt:582-656 | the checks in order, then the returned attachment is appended (see UploadStaysUnderCap) |
| Tasks.TaskViewModel.DeleteAttachment | MyApplication/app/src/main/java/com/example/software_project/TaskViewModel.kt:138-164 | the new state is the attachment delete step (see DeleteAttachmentMovesOne) |
| Tasks.TaskViewModel.RestoreAttachment | MyApplication/app/src/main/java/com/example/software_project/TaskViewModel.kt:165-195 | the result is true exactly when the checks pass (see RestoreAttachmentMovesOne) |
| Tasks.TaskViewModel.UpdateTeamInfo | MyApplication/app/src/main/java/com/example/software_project/TaskViewModel.kt:385-412 | blank name, then admin check, then the team's name and description are set |
| Tasks.TaskViewModel.RequestJoinTeam | MyApplication/app/src/main/java/com/example/software_project/TaskViewModel.kt:744-770 | the user is appended to the team's pending requests on success |
| Tasks.RequestJoinMeaning | MyApplication/app/src/main/java/com/example/software_project/TaskViewModel.kt:744-770 | the team gets the user appended to its pending requests exactly when it exists, a user is logged in who is not a member, and the server accepts; otherwise the teams are unchanged |
| Tasks.TaskViewModel.ApproveJoinRequest | MyApplication/app/src/main/java/com/example/software_project/TaskViewModel.kt:771-797 | admin check, then the approval (see ApprovalMakesMember) |
| Tasks.TaskViewModel.AssignTask | MyApplication/app/src/main/java/com/example/software_project/TaskViewModel.kt:798-820 | admin and membership checks, then the assignment (see AssignOnlyToMembers) |
| Tasks.TaskViewModel.RemoveMemberFromTeam | MyApplication/app/src/main/java/com/example/software_project/TaskViewModel.kt:821-848 | admin check, self-removal refused, then the member is removed |
| Tasks.TaskViewModel.UpdateMemberRole | MyApplication/app/src/main/java/com/example/software_project/TaskViewModel.kt:849-877 | admin check, self-change refused, then the role is set |
| Reminders.DueInstant | MyApplication/app/src/main/java/com/example/software_project/NotificationScheduler.kt:41 | the due instant is the due day at 23:59:59 |
| Reminders.OffsetSeconds | MyApplication/app/src/main/java/com/example/software_project/NotificationScheduler.kt:132-140 | suffix d, h and m are tried in that order and scale the count; any other suffix is zero |
| Reminders.TriggerOfWrittenOffset | MyApplication/app/src/main/java/com/example/software_project/NotificationScheduler.kt:132-140 | "2d", "3h", "30m" and the like trigger exactly that long before the due instant |
| Reminders.NonNumericCountIsZero | MyApplication/app/src/main/java/com/example/software_project/NotificationScheduler.kt:134-136 | a count with no decimal digit of any script triggers at the due instant itself |
| Text.Wrap32 | MyApplication/app/src/main/java/com/example/software_project/NotificationScheduler.kt:73 | Int arithmetic wraps into the 32-bit range modulo 2^32, and leaves in-range values alone |
| Reminders.DailyCodeShape | MyApplication/app/src/main/java/com/example/software_project/NotificationScheduler.kt:72-126 | the daily code is 2000000000 + id for ids 0 to 147483647; for any other id 2000000000 + id falls below the prefix (a negative id directly, a larger one by wrapping above `Int.MAX_VALUE`), so `createPendingIntent` adds the id once more (2·id + 2000000000, wrapped to 32 bits) |
| Reminders.OffsetCodesDistinctWithinTask | MyApplication/app/src/main/java/com/example/software_project/NotificationScheduler.kt:119-126 | within one task, different reminder indices get different codes |
| Reminders.OffsetCodesCollideAcrossTasks | MyApplication/app/src/main/java/com/example/software_project/NotificationScheduler.kt:119-126 | the codes are not unique across tasks: reminder 1 of task 5 and reminder 0 of task 6 both get code 6 |
| Reminders.ReminderExtras | MyApplication/app/src/main/java/com/example/software_project/NotificationScheduler.kt:105-112 | the intent carries the id as an Int, the title and the description, and the method list only when given |
| Reminders.MethodNames | MyApplication/app/src/main/java/com/example/software_project/NotificationScheduler.kt:45 | `map { it.name }` names each method in order |
| Reminders.OffsetAlarms | MyApplication/app/src/main/java/com/example/software_project/NotificationScheduler.kt:42-56 | every offset alarm registered is one-off and in the future |
| Reminders.OffsetAlarmsSound | MyApplication/app/src/main/java/com/example/software_project/NotificationScheduler.kt:42-56 | every offset alarm comes from one of the reminder entries |
| Reminders.OffsetAlarmsComplete | MyApplication/app/src/main/java/com/example/software_project/NotificationScheduler.kt:42-56 | entry i is registered exactly when its trigger is after now; past entries are skipped and later ones still processed |
| Reminders.DailyFirstFireWindow | MyApplication/app/src/main/java/com/example/software_project/NotificationScheduler.kt:63-71 | the daily reminder first fires within the next day, at HH:mm of the day |
| Reminders.DailyAlarms | MyApplication/app/src/main/java/com/example/software_project/NotificationScheduler.kt:60-83 | at most one repeating alarm with the daily code, present exactly when the time is set and parses |
| Reminders.ScheduleNotifications | MyApplication/app/src/main/java/com/example/software_project/NotificationScheduler.kt:36-87 | registers exactly the alarm plan: nothing without settings, the offsets of a parseable due date, then the daily alarm |
| Reminders.ScheduleOffsets | MyApplication/app/src/main/java/com/example/software_project/NotificationScheduler.kt:42-56 | the offset loop stops early exactly when the privilege is missing and some offset is in the future, and otherwise yields every future offset in entry order |
| Reminders.ScheduleWithPrivilege | MyApplication/app/src/main/java/com/example/software_project/NotificationScheduler.kt:42-56 | with the exact-alarm privilege, offset alarm i is in the plan iff its trigger is after now |
| Reminders.SchedulePlanShape | MyApplication/app/src/main/java/com/example/software_project/NotificationScheduler.kt:36-87 | every one-off alarm is in the future; a repeating alarm is in the privileged plan iff a daily time is set and parses |
| Reminders.ScheduleWithoutPrivilege | MyApplication/app/src/main/java/com/example/software_project/NotificationScheduler.kt:46-49 | without the privilege, one future offset returns early: nothing at all is registered, not even the daily alarm |
| Reminders.CancelNotifications | MyApplication/app/src/main/java/com/example/software_project/NotificationScheduler.kt:88-102 | one code per reminder entry, then the daily code iff a daily time is set; nothing without settings |
| Reminders.CancelCoversSchedule | MyApplication/app/src/main/java/com/example/software_project/NotificationScheduler.kt:36-102 | cancelling a task addresses the code of every alarm its scheduling can register |
| Reminders.MethodAction | MyApplication/app/src/main/java/com/example/software_project/NotificationScheduler.kt:155-186 | unknown names are skipped; IN_APP and FLOAT_WINDOW notify; SMS and EMAIL send, or fall back to a failure notification when the contact is missing or blank or the channel is unavailable |
| Reminders.KnownNames | MyApplication/app/src/main/java/com/example/software_project/NotificationScheduler.kt:154-189 | the names acted on are exactly the recognised ones |
| Reminders.DispatchMeaning | MyApplication/app/src/main/java/com/example/software_project/NotificationScheduler.kt:154-189 | one action per recognised name, in list order |
| Reminders.DispatchMethods | MyApplication/app/src/main/java/com/example/software_project/NotificationScheduler.kt:154-189 | the `forEach` loop produces exactly the dispatched actions |
| Reminders.GetStringExtra | MyApplication/app/src/main/java/com/example/software_project/NotificationScheduler.kt:149 | `getStringExtra` returns a value exactly when the key holds a String |
| Reminders.OnReceive | MyApplication/app/src/main/java/com/example/software_project/NotificationScheduler.kt:148-189 | as written: nothing happens unless `task_id` reads as a string; otherwise the methods, defaulting to IN_APP, are dispatched |
| Reminders.ReceiverIgnoresScheduledAlarms | MyApplication/app/src/main/java/com/example/software_project/NotificationScheduler.kt:106 | the scheduler stores the id as an Int, so the as-written receiver returns early on every alarm |
| Reminders.OnReceiveIntended | MyApplication/app/src/main/java/com/example/software_project/NotificationScheduler.kt:148-189 | the receiver reading the id as an Int dispatches exactly when it is present |
| Reminders.IntendedReceiverNotifies | MyApplication/app/src/main/java/com/example/software_project/NotificationScheduler.kt:148-189 | with the corrected read, an alarm whose methods include IN_APP notifies with the task's title and description |
| TomatoClock.FormatCountTimeReadsBack | MyApplication/app/src/main/java/com/example/software_project/TomatoClockView.kt:44-49 | the text is "mm:ss" with minutes = whole seconds / 60 and seconds = whole seconds mod 60; five characters below 100 minutes |
| TomatoClock.WorkDurationShown | MyApplication/app/src/main/java/com/example/software_project/TomatoClockView.kt:40 | in a locale with ASCII digits, the full work session is shown as "25:00" |
| TomatoClock.StepsKeepValid | MyApplication/app/src/main/java/com/example/software_project/TomatoClockView.kt:99-176 | every transition keeps the timer's invariant: paused only when started, started exactly when not IDLE, elapsed within the duration |
| TomatoClock.ListenerHearsOnlyChanges | MyApplication/app/src/main/java/com/example/software_project/TomatoClockView.kt:30-35 | each transition reports to the listener exactly its new state when that differs, and nothing otherwise |
| TomatoClock.StartFromIdle | MyApplication/app/src/main/java/com/example/software_project/TomatoClockView.kt:119-132 | from IDLE, start enters WORKING with a 1 500 000 ms countdown, started and not paused |
| TomatoClock.StartWhileStartedIsNoOp | MyApplication/app/src/main/java/com/example/software_project/TomatoClockView.kt:120 | start does nothing while started |
| TomatoClock.WorkFinishStallsInBreak | MyApplication/app/src/main/java/com/example/software_project/TomatoClockView.kt:102-107 | the end of work records exactly 1500 s and enters BREAK, and its `start()` creates no break countdown |
| TomatoClock.IntendedWorkFinishStartsBreak | MyApplication/app/src/main/java/com/example/software_project/TomatoClockView.kt:102-107 | with the corrected finish, the end of work records 1500 s and starts a fresh 5-minute break countdown, whose end returns the timer to IDLE |
| TomatoClock.BreakFinishStops | MyApplication/app/src/main/java/com/example/software_project/TomatoClockView.kt:109-113 | the end of a break is `stop()` and records no focus time |
| TomatoClock.StopResets | MyApplication/app/src/main/java/com/example/software_project/TomatoClockView.kt:154-176 | stop ends in IDLE, not started or paused, at zero, showing "25:00" (in a locale with ASCII digits), recording elapsed/1000 s only in WORKING after more than 1000 ms |
| TomatoClock.PauseThenResume | MyApplication/app/src/main/java/com/example/software_project/TomatoClockView.kt:134-151 | pause then resume restarts with the unelapsed rest of the session; a second pause changes nothing |
| TomatoClock.PausedDoesNotAdvance | MyApplication/app/src/main/java/com/example/software_project/TomatoClockView.kt:137-138 | while paused, time passing changes nothing |
| TomatoClock.TomatoClockView.constructor | MyApplication/app/src/main/java/com/example/software_project/TomatoClockView.kt:29-58 | IDLE, not started, showing "25:00", in the valid state |
| TomatoClock.TomatoClockView.SetCurrentState | MyApplication/app/src/main/java/com/example/software_project/TomatoClockView.kt:30-35 | the setter's new state (see ListenerHearsOnlyChanges) |
| TomatoClock.TomatoClockView.Start | MyApplication/app/src/main/java/com/example/software_project/TomatoClockView.kt:119-132 | the new state is the start step |
| TomatoClock.TomatoClockView.Pause | MyApplication/app/src/main/java/com/example/software_project/TomatoClockView.kt:134-141 | the new state is the pause step |
| TomatoClock.TomatoClockView.Resume | MyApplication/app/src/main/java/com/example/software_project/TomatoClockView.kt:143-151 | the new state is the resume step |
| TomatoClock.TomatoClockView.Stop | MyApplication/app/src/main/java/com/example/software_project/TomatoClockView.kt:154-176 | the new state is the stop step |
| TomatoClock.TomatoClockView.OnFinish | MyApplication/app/src/main/java/com/example/software_project/TomatoClockView.kt:100-117 | the new state is the finish step |
| TomatoClock.TomatoClockView.OnTick | MyApplication/app/src/main/java/com/example/software_project/TomatoClockView.kt:99 | only the shown time changes, to the formatted rest |
| TomatoClock.TomatoClockView.Advance | MyApplication/app/src/main/java/com/example/software_project/TomatoClockView.kt:125-126 | the animator advances the elapsed time while running, up to the duration |
| Accounts.PasswordStrengthFacts | MyApplication/app/src/main/java/com/example/software_project/UserViewModel.kt:341-345 | appending never weakens a valid password, and a password without a digit is never valid |
| Accounts.RegisterRejection | MyApplication/app/src/main/java/com/example/software_project/UserViewModel.kt:105-116 | registration proceeds iff the confirmation matches, the password is strong and the code is not blank; a mismatch is reported first |
| Accounts.LoginRejection | MyApplication/app/src/main/java/com/example/software_project/UserViewModel.kt:147-154 | login proceeds iff the email is valid and the password not blank; an invalid email is reported first |
| Accounts.ProfileRejection | MyApplication/app/src/main/java/com/example/software_project/UserViewModel.kt:233-256 | the profile is sent iff name, email, student id, grade, birth date and school all pass |
| Accounts.ChangePasswordRejection | MyApplication/app/src/main/java/com/example/software_project/UserViewModel.kt:299-310 | the change proceeds iff the new password is strong, differs from the old one and matches the confirmation; a weak one is reported first |
| Accounts.ProfileReportsFirstFailure | MyApplication/app/src/main/java/com/example/software_project/UserViewModel.kt:233-256 | a blank name is always the failure reported; a blank school is reported exactly when every earlier field passes |
| Accounts.SamePasswordRefused | MyApplication/app/src/main/java/com/example/software_project/UserViewModel.kt:303-306 | a strong new password equal to the old one is refused as unchanged |
| Accounts.FailedChecksMakeNoCall | MyApplication/app/src/main/java/com/example/software_project/UserViewModel.kt:104-321 | whenever a check of the register, login, profile or password form fails, only the message changes |
| Accounts.PasswordChangeClearsForm | MyApplication/app/src/main/java/com/example/software_project/UserViewModel.kt:313-321 | a successful change clears the three password fields and changes nothing else but the message |
| Accounts.LogoutForgetsUser | MyApplication/app/src/main/java/com/example/software_project/UserViewModel.kt:275-297 | after logout nothing identifies the user, the form fields are empty and a restart logs nobody in |
| Accounts.LoginThenRestart | MyApplication/app/src/main/java/com/example/software_project/UserViewModel.kt:146-184 | a successful login is remembered: a start-up from what it stored restores that session |
| Accounts.RestoreSessionCondition | MyApplication/app/src/main/java/com/example/software_project/UserViewModel.kt:45-55 | start-up logs in exactly when a token is stored and the stored id is not -1 |
| Accounts.UserViewModel.constructor | MyApplication/app/src/main/java/com/example/software_project/UserViewModel.kt:14-42 | empty forms, then the session restored from the stored preferences |
| Accounts.UserViewModel.CheckAndValidateToken | MyApplication/app/src/main/java/com/example/software_project/UserViewModel.kt:45-65 | the new state is the session restore step |
| Accounts.UserViewModel.VerifyAndRegister | MyApplication/app/src/main/java/com/example/software_project/UserViewModel.kt:104-145 | the request is sent exactly when the checks pass |
| Accounts.UserViewModel.Login | MyApplication/app/src/main/java/com/example/software_project/UserViewModel.kt:146-184 | the request is sent exactly when the checks pass |
| Accounts.UserViewModel.UpdateProfile | MyApplication/app/src/main/java/com/example/software_project/UserViewModel.kt:232-274 | the new state is the profile update step |
| Accounts.UserViewModel.Logout | MyApplication/app/src/main/java/com/example/software_project/UserViewModel.kt:275-297 | the new state is the logout step (see LogoutForgetsUser) |
| Accounts.UserViewModel.ChangePassword | MyApplication/app/src/main/java/com/example/software_project/UserViewModel.kt:298-336 | the new state is the change-password step |
| TaskScreen.RootTasks | MyApplication/app/src/main/java/com/example/software_project/TaskScreen.kt:203 | the main list holds exactly the tasks that are not DONE and have no parent, in list order |
| TaskScreen.VisibleSubTasks | MyApplication/app/src/main/java/com/example/software_project/TaskScreen.kt:352 | the sub-task rows are exactly the non-deleted direct children |
| TaskScreen.VisibleSubTasksAreLiveChildren | MyApplication/app/src/main/java/com/example/software_project/TaskScreen.kt:352 | the rows are the children progress counts, minus the deleted ones, in order |
| TaskScreen.ParentTaskHasChildren | MyApplication/app/src/main/java/com/example/software_project/TaskScreen.kt:354 | the progress bar is shown exactly when the task has a child, deleted or not |
| TaskScreen.VisibleAttachments | MyApplication/app/src/main/java/com/example/software_project/TaskScreen.kt:353 | the attachment rows are exactly the non-deleted attachments |
| TaskScreen.PermissionButtonMeansCanModify | MyApplication/app/src/main/java/com/example/software_project/TaskScreen.kt:382-383 | whoever sees the permission button, shown only to an ADMIN of the task's team, may also modify the task |
| TaskScreen.SubTaskWeight | MyApplication/app/src/main/java/com/example/software_project/TaskScreen.kt:121 | the weight is a 32-bit integer |
| TaskScreen.SubTaskWeightOfText | MyApplication/app/src/main/java/com/example/software_project/TaskScreen.kt:121 | a typed 32-bit integer is kept; text without a decimal digit of any script gives 1 |
| TaskScreen.SubTaskRequestInherits | MyApplication/app/src/main/java/com/example/software_project/TaskScreen.kt:109-123 | the sub-task sent has the typed fields, priority LOW, TODO, no tags, the parent's due date and team, the parent id and the parsed weight |
| TaskScreen.ConfirmedSubTaskShowsUnderParent | MyApplication/app/src/main/java/com/example/software_project/TaskScreen.kt:352-354 | a created sub-task shows under its parent, makes it a parent and stays off the main list |
| TaskScreen.SubTaskDialog.constructor | MyApplication/app/src/main/java/com/example/software_project/TaskScreen.kt:44-50 | closed and empty, with weight "1" |
| TaskScreen.SubTaskDialog.OpenFor | MyApplication/app/src/main/java/com/example/software_project/TaskScreen.kt:207-210 | the dialog opens for that task and keeps the typed fields |
| TaskScreen.SubTaskDialog.Dismiss | MyApplication/app/src/main/java/com/example/software_project/TaskScreen.kt:65 | the dialog closes and keeps the typed fields |
| TaskScreen.SubTaskDialog.RemoveItem | MyApplication/app/src/main/java/com/example/software_project/TaskScreen.kt:87 | only the checklist changes, by `removeAt` |
| TaskScreen.SubTaskDialog.AddItem | MyApplication/app/src/main/java/com/example/software_project/TaskScreen.kt:95-100 | only the checklist and the input change, by the add rule |
| TaskScreen.SubTaskDialog.Confirm | MyApplication/app/src/main/java/com/example/software_project/TaskScreen.kt:106-136 | a blank title only sets the message; otherwise the sub-task goes to `createSubTask` and the dialog is reset |
| TaskScreen.SubTaskCheckedChange | MyApplication/app/src/main/java/com/example/software_project/TaskScreen.kt:417-426 | ticking marks the task completed; unticking sends a TODO copy |
| TaskScreen.TickThenUntick | MyApplication/app/src/main/java/com/example/software_project/TaskScreen.kt:417-426 | ticking then unticking a listed task leaves it TODO, whatever its status before |
| Calendar.DaysInMonth | MyApplication/app/src/main/java/com/example/software_project/CalendarScreen.kt:280-282 | month lengths are 28 to 31 days |
| Calendar.DayOfWeek | MyApplication/app/src/main/java/com/example/software_project/CalendarScreen.kt:282 | day-of-week values are 1 (Monday) to 7 (Sunday) |
| Calendar.NextPrev | MyApplication/app/src/main/java/com/example/software_project/CalendarScreen.kt:320 | the next and previous day undo each other |
| Calendar.EpochDayNext | MyApplication/app/src/main/java/com/example/software_project/CalendarScreen.kt:320 | the next day is one epoch day later |
| Calendar.EpochDayPlus | MyApplication/app/src/main/java/com/example/software_project/CalendarScreen.kt:79 | `plusDays(n)` moves the epoch day by exactly n |
| Calendar.PlusDaysAdd | MyApplication/app/src/main/java/com/example/software_project/CalendarScreen.kt:78-79 | day steps compose |
| Calendar.PlusDaysInMonth | MyApplication/app/src/main/java/com/example/software_project/CalendarScreen.kt:320 | within a month, `plusDays` only advances the day of the month |
| Calendar.PlusMonths | MyApplication/app/src/main/java/com/example/software_project/CalendarScreen.kt:77 | `plusMonths(n)` moves the month index by n and clamps the day to the new month's length |
| Calendar.MonthsThereAndBack | MyApplication/app/src/main/java/com/example/software_project/CalendarScreen.kt:77 | months forward and back restore any day up to the 28th |
| Calendar.ClampedAtMonthEnd | MyApplication/app/src/main/java/com/example/software_project/CalendarScreen.kt:77 | January 31 plus a month is February 28 (29 in 2024), and back is January 28 |
| Calendar.Navigate | MyApplication/app/src/main/java/com/example/software_project/CalendarScreen.kt:75-83 | navigation always gives a valid date |
| Calendar.NavigateMeaning | MyApplication/app/src/main/java/com/example/software_project/CalendarScreen.kt:75-83 | days and weeks move the epoch day by amount and 7 × amount and are undone by the opposite amount; any other unit changes nothing |
| Calendar.IsoDate | MyApplication/app/src/main/java/com/example/software_project/CalendarScreen.kt:301 | ISO_LOCAL_DATE of years 0 to 9999 has ten characters |
| Calendar.IsoDateInjective | MyApplication/app/src/main/java/com/example/software_project/CalendarScreen.kt:301 | different dates of years 0 to 9999 are written differently |
| Calendar.DueDateMarksOneDay | MyApplication/app/src/main/java/com/example/software_project/CalendarScreen.kt:301 | a due date starts with the ISO text of at most one day |
| Calendar.DayCellMarksDueDay | MyApplication/app/src/main/java/com/example/software_project/CalendarScreen.kt:301 | a task due on d marks the cell of d and of no other day |
| Calendar.TasksForDay | MyApplication/app/src/main/java/com/example/software_project/CalendarScreen.kt:381 | the day list holds exactly the tasks whose due date starts with the day, and is non-empty exactly when the cell has a task |
| Calendar.FirstOfMonth | MyApplication/app/src/main/java/com/example/software_project/CalendarScreen.kt:281 | the first of the month is a valid date |
| Calendar.GridCells | MyApplication/app/src/main/java/com/example/software_project/CalendarScreen.kt:296-320 | n consecutive days give n cells |
| Calendar.GridCellsAt | MyApplication/app/src/main/java/com/example/software_project/CalendarScreen.kt:296-320 | cell i shows the day i days after the start |
| Calendar.MonthGrid | MyApplication/app/src/main/java/com/example/software_project/CalendarScreen.kt:280-323 | the nested `repeat(6) { repeat(7) }` loops produce the 42 cells of the consecutive days from the grid start |
| Calendar.GridIsConsecutive | MyApplication/app/src/main/java/com/example/software_project/CalendarScreen.kt:296-320 | cell i is i epoch days after the first cell |
| Calendar.FirstOfOctober2025 | MyApplication/app/src/main/java/com/example/software_project/CalendarScreen.kt:282 | October 1st, 2025 is a Wednesday |
| Calendar.MonthGridSkipsFirstDays | MyApplication/app/src/main/java/com/example/software_project/CalendarScreen.kt:282 | as written, with a Sunday-first locale, a month whose 1st is not a Sunday has no cell for its 1st |
| Calendar.DayOfWeekPlus | MyApplication/app/src/main/java/com/example/software_project/CalendarScreen.kt:339 | n days later is n places later round the week |
| Calendar.WeekStartDay | MyApplication/app/src/main/java/com/example/software_project/CalendarScreen.kt:339 | the week start has the locale's first day of the week |
| Calendar.WeekStartBack | MyApplication/app/src/main/java/com/example/software_project/CalendarScreen.kt:339 | the date lies 0 to 6 days after its week start |
| Calendar.IntendedMonthGridCoversMonth | MyApplication/app/src/main/java/com/example/software_project/CalendarScreen.kt:280-323 | the corrected grid holds every day j of the month, in cell k + j − 1, k being the 1st's column |
| Calendar.IntendedMonthGridColumns | MyApplication/app/src/main/java/com/example/software_project/CalendarScreen.kt:289-291 | each column of the corrected grid has the weekday of its Sunday-first header |
| Calendar.WeekDays | MyApplication/app/src/main/java/com/example/software_project/CalendarScreen.kt:346-348 | the week view has seven days |
| Calendar.WeekViewShowsSelected | MyApplication/app/src/main/java/com/example/software_project/CalendarScreen.kt:339-348 | the week view starts on the locale's first day of the week and shows the selected date |
| Calendar.HighlightTable | MyApplication/app/src/main/java/com/example/software_project/CalendarScreen.kt:490-515 | the overdue colour iff the due date parses to a day before today; the imminent colour iff it parses to a day from today to 3, 14 or 30 days ahead in the day, week and month views |
| Calendar.ImminenceWidensWithView | MyApplication/app/src/main/java/com/example/software_project/CalendarScreen.kt:508-512 | imminent in the day view implies imminent in the week view, which implies imminent in the month view; overdue does not depend on the view |
| Calendar.CalendarTaskList | MyApplication/app/src/main/java/com/example/software_project/CalendarScreen.kt:151 | the list holds exactly the tasks not DONE, in order |
| CreateTask.InitialForm | MyApplication/app/src/main/java/com/example/software_project/CreateTaskScreen.kt:33-53 | the opening form is consistent: ticked weekdays distinct and within 1..7, reminder offsets distinct, any daily time a valid time of day |
| CreateTask.ToggledDays | MyApplication/app/src/main/java/com/example/software_project/CreateTaskScreen.kt:167-172 | a chip toggles the membership of its day and keeps the days distinct |
| CreateTask.ToggleDayTwice | MyApplication/app/src/main/java/com/example/software_project/CreateTaskScreen.kt:167-172 | toggling an unticked day twice restores the list; a ticked day comes back at the end |
| CreateTask.WithReminderTime | MyApplication/app/src/main/java/com/example/software_project/CreateTaskScreen.kt:271-275 | an offset is added only when it is not blank and not yet listed; the list stays duplicate-free |
| CreateTask.AddThenRemoveReminderTime | MyApplication/app/src/main/java/com/example/software_project/CreateTaskScreen.kt:261-275 | an offset added and removed by its chip leaves the list as it was |
| CreateTask.SubmitRejection | MyApplication/app/src/main/java/com/example/software_project/CreateTaskScreen.kt:307-320 | blank title, then team task without a team, then unparseable due date, each iff the earlier checks pass |
| CreateTask.FormatClockTime | MyApplication/app/src/main/java/com/example/software_project/CreateTaskScreen.kt:343 | "HH:mm" has five characters with the colon in the middle |
| CreateTask.FormatClockTimeInjective | MyApplication/app/src/main/java/com/example/software_project/CreateTaskScreen.kt:343 | different times are formatted differently |
| CreateTask.TaskOfMeaning | MyApplication/app/src/main/java/com/example/software_project/CreateTaskScreen.kt:321-347 | the assembled task: team id only for team tasks with a team chosen, recurrence type iff recurring, days iff recurring with days ticked (all in 1..7), null end date iff blank, well-formed tags, no parent, weight 1, methods [IN_APP], daily time iff one was set |
| CreateTask.AcceptedTeamTaskNamesTeam | MyApplication/app/src/main/java/com/example/software_project/CreateTaskScreen.kt:311-314 | an accepted team task names its team |
| CreateTask.FreshFormNeedsOnlyTitle | MyApplication/app/src/main/java/com/example/software_project/CreateTaskScreen.kt:38 | a fresh form is accepted exactly when a non-blank title is typed |
| CreateTask.CreateTaskForm.constructor | MyApplication/app/src/main/java/com/example/software_project/CreateTaskScreen.kt:33-53 | the form opens in its initial state |
| CreateTask.CreateTaskForm.EditBasics | MyApplication/app/src/main/java/com/example/software_project/CreateTaskScreen.kt:33-40 | a field edit changes only the basic fields |
| CreateTask.CreateTaskForm.RemoveItem | MyApplication/app/src/main/java/com/example/software_project/CreateTaskScreen.kt:128-129 | only the checklist changes, by `removeAt` |
| CreateTask.CreateTaskForm.AddItem | MyApplication/app/src/main/java/com/example/software_project/CreateTaskScreen.kt:138-143 | only the checklist and the input change, by the add rule |
| CreateTask.CreateTaskForm.ToggleWeekday | MyApplication/app/src/main/java/com/example/software_project/CreateTaskScreen.kt:167-172 | chip `index` toggles day index + 1 and keeps the form consistent |
| CreateTask.CreateTaskForm.SetRecurring | MyApplication/app/src/main/java/com/example/software_project/CreateTaskScreen.kt:43 | only the recurrence switch changes |
| CreateTask.CreateTaskForm.PickEndDate | MyApplication/app/src/main/java/com/example/software_project/CreateTaskScreen.kt:193-198 | the end date text becomes the picked date in ISO form |
| CreateTask.CreateTaskForm.RemoveReminderTime | MyApplication/app/src/main/java/com/example/software_project/CreateTaskScreen.kt:261-262 | the first equal offset is removed |
| CreateTask.CreateTaskForm.AddReminderTime | MyApplication/app/src/main/java/com/example/software_project/CreateTaskScreen.kt:271-275 | the offset is added by the add rule, and the input is cleared only when it was added |
| CreateTask.CreateTaskForm.SetDailyReminderTime | MyApplication/app/src/main/java/com/example/software_project/CreateTaskScreen.kt:60-61 | only the daily time changes |
| CreateTask.CreateTaskForm.Submit | MyApplication/app/src/main/java/com/example/software_project/CreateTaskScreen.kt:303-351 | a rejected form only sets the message and never closes; an accepted one calls `createTask` with order = list size, and the screen closes exactly when the message from before the request is the success message; the alarms registered are the created task's plan, and none on a rejection or a failure |
| CreateTask.SubmitClosesOnStaleMessage | MyApplication/app/src/main/java/com/example/software_project/CreateTaskScreen.kt:348-351 | as written, after an earlier success a failed request closes the screen with no task added, and otherwise a created task leaves the screen open |
| CreateTask.SubmitClosesOnlyOnSuccess | MyApplication/app/src/main/java/com/example/software_project/CreateTaskScreen.kt:348-351 | as intended, the screen closes exactly when the checks pass and the server creates the task |
| EditTask.EditorFor | MyApplication_finalv/app/src/main/java/com/example/software_project/EditTaskScreen.kt:27-62 | no form exactly when no task has the id; otherwise the initial form of a task with that id that no earlier task shares |
| EditTask.UpdatedKeepsTheRest | MyApplication_finalv/app/src/main/java/com/example/software_project/EditTaskScreen.kt:177-185 | saving changes only title, description, priority, tags, due date, status and checklist |
| EditTask.UntouchedSaveIsIdentity | MyApplication_finalv/app/src/main/java/com/example/software_project/EditTaskScreen.kt:58 | saving an untouched form sends the task back unchanged when its tags are well formed |
| EditTask.CommaTagIsSplit | MyApplication_finalv/app/src/main/java/com/example/software_project/EditTaskScreen.kt:58 | a tag holding a comma comes back split in two |
| EditTask.SaveRejection | MyApplication_finalv/app/src/main/java/com/example/software_project/EditTaskScreen.kt:174-190 | save is refused exactly when the due date does not parse, and only with the date message |
| EditTask.SaveReplacesTask | MyApplication_finalv/app/src/main/java/com/example/software_project/EditTaskScreen.kt:186 | after a successful save the list holds the edited copy under the id |
| EditTask.EditTaskForm.constructor | MyApplication_finalv/app/src/main/java/com/example/software_project/EditTaskScreen.kt:55-62 | the form opens on the task's fields |
| EditTask.EditTaskForm.EditFieldsTo | MyApplication_finalv/app/src/main/java/com/example/software_project/EditTaskScreen.kt:55-60 | a field edit changes only the fields |
| EditTask.EditTaskForm.SetItemCompleted | MyApplication_finalv/app/src/main/java/com/example/software_project/EditTaskScreen.kt:137-143 | only item i's completion changes |
| EditTask.EditTaskForm.RemoveItem | MyApplication_finalv/app/src/main/java/com/example/software_project/EditTaskScreen.kt:146-147 | only item i is removed |
| EditTask.EditTaskForm.AddItem | MyApplication_finalv/app/src/main/java/com/example/software_project/EditTaskScreen.kt:156-161 | only the checklist and the input change, by the add rule |
| EditTask.EditTaskForm.Save | MyApplication_finalv/app/src/main/java/com/example/software_project/EditTaskScreen.kt:174-190 | the screen closes exactly when the date parses, after `updateTask` of the edited copy; otherwise only the message changes |
| RecycleBin.CountdownTable | MyApplication_finalv/app/src/main/java/com/example/software_project/DeletedTasksScreen.kt:200-231 | unknown for a null time; "in N days" iff N = days left > 1; warning colour iff the time does not parse or at most 2 days are left |
| RecycleBin.ImminentExactlyWhenExpired | MyApplication_finalv/app/src/main/java/com/example/software_project/DeletedTasksScreen.kt:213-221 | "imminent" is shown exactly for the tasks the next clean-up purges; "format error" exactly for those it cannot judge |
| RecycleBin.FreshlyBinned | MyApplication_finalv/app/src/main/java/com/example/software_project/DeletedTasksScreen.kt:213-215 | a task binned less than a day ago shows 7 days; a deletion time in the future shows more |
| RecycleBin.ClearAll | MyApplication_finalv/app/src/main/java/com/example/software_project/DeletedTasksScreen.kt:48-54 | one permanent deletion per binned task, in order |
| RecycleBin.ClearAllMeaning | MyApplication_finalv/app/src/main/java/com/example/software_project/DeletedTasksScreen.kt:48-54 | after clear-all the bin holds exactly the tasks none of whose deletions was accepted, and the task list is unchanged |
| RecycleBin.ClearAllEmptiesBin | MyApplication_finalv/app/src/main/java/com/example/software_project/DeletedTasksScreen.kt:48-54 | when every deletion is accepted, clear-all leaves no task in the bin |
| Overdue.OverdueTasks | MyApplication_finalv/app/src/main/java/com/example/software_project/ExpiredTasksScreen.kt:62-73 | the list holds exactly the unfinished tasks whose due date parses to a day before today, in order |
| Overdue.OverdueMatchesHighlight | MyApplication_finalv/app/src/main/java/com/example/software_project/ExpiredTasksScreen.kt:66-68 | a task is listed exactly when it is unfinished and the calendar paints it overdue |
| Overdue.CompletedLeavesList | MyApplication_finalv/app/src/main/java/com/example/software_project/ExpiredTasksScreen.kt:106-107 | once completion succeeds, no task with that id is listed |
| Overdue.DeletedLeavesList | MyApplication_finalv/app/src/main/java/com/example/software_project/ExpiredTasksScreen.kt:106-107 | once deletion succeeds, that id leaves the list and the others stay |
| Overdue.RefusedActionKeepsList | MyApplication_finalv/app/src/main/java/com/example/software_project/ExpiredTasksScreen.kt:106-107 | a refused action leaves the list as it was |

## Left out

- Network transport and coroutines. Each server call is an input `success` plus the returned entity, and each launched body is one atomic step. Interleavings of concurrent launches are not modelled.
- Platform services: the alarm manager, notifications, SMS, e-mail, shared-preference files, content resolver, file saving and navigation. The model keeps only the decisions: the alarm plan, the actions, the stored values and whether a screen closes.
- Time zones. Times are epoch seconds or milliseconds in one zone. The daily reminder's calendar is the same zone.
- The date and time parsers (`LocalDate.parse`, `LocalTime.parse`, `ZonedDateTime.parse`) and the email pattern are parameters. `Char.isUpperCase` and `isLowerCase` are restricted to ASCII.
- Text.Pad2: `String.format` uses the default locale (TomatoClockView.kt:43-48), whose zero digit need not be ASCII; in Arabic or Persian locales the timer shows Arabic-Indic digits. The model fixes a locale with ASCII digits.
- TomatoClock.FormatCountTime: built on `Text.Pad2`, so it gives the ASCII-digit text of the same locale choice.
- TomatoClock.WorkDurationShown: the literal "25:00" is the text in a locale with ASCII digits only.
- TomatoClock.StopResets: the "25:00" it shows is the text in a locale with ASCII digits only.
- Text.IsDigit: the decimal digits are the 37 runs of ten in the Basic Multilingual Plane of current Unicode versions. An older platform table with fewer runs is not modelled.
- Sorting.LowerAscii: `lowercase()` applies the full Unicode lower-case mapping and can give more than one character. The model lowers A..Z only, so tags whose first letter is from another cased script are ordered by the unlowered letter.
- Sorting.TagInitial: a Kotlin `Char` is one UTF-16 code unit, so a tag that starts with a character outside the Basic Multilingual Plane has its high surrogate as `firstOrNull()`. The model takes the whole character.
- Accounts.IsValidPassword: `length` counts UTF-16 code units, so characters outside the Basic Multilingual Plane count twice in the source and once in the model. `isUpperCase` and `isLowerCase` are restricted to ASCII letters.
- `Duration` and `LocalDateTime` overflow, and the year range of `java.time`, are not bounded.
- Floating point. Progress is an exact `real`, and the timer's elapsed fraction is integer milliseconds. The float rounding of `resume` and `stop` is not modelled.
- TomatoClock.TomatoClockView.Advance: the animator's frame timing is one step of a given length.
- The `cancelNotifications` lookup with `FLAG_NO_CREATE` returns null for an alarm that was never registered, and the `!!` then throws. The model cancels every code and does not model that exception.
- Tasks.TaskViewModel.UploadAttachment: the file's bytes, name and MIME type are not read. The file is modelled by its size and whether it is readable.
- `loadTeams`, `loadUserStats`, `updateStatsView`, `submitFocusData`, `createTeam`, `dissolveTeam`, `reorderTasks`, `updateTaskDueDate`, `downloadAttachment`, `saveFile` and `updateAttachmentPermissions` in TaskViewModel.kt are not part of this model. They are server round-trips that replace a list with the reply, or file and statistics plumbing.
- The private `updateTeam` server refresh after a team edit is not part of this model. The local team edit is modelled.
- `sendVerificationCode`, `loadProfile`, `uploadAvatar`, `loadProfileForViewing` and `parseErrorBody` in UserViewModel.kt are not part of this model.
- Screen text fields are written with whole-field setters (`EditBasics`, `EditFieldsTo`). Typing character by character and Compose recomposition are not modelled. Neither are the `remember` keys that reset a form when its task changes.
- Drawing, drag-and-drop date targets and the calendar's cell-bounds hit-testing are not modelled.
- The server's failure texts are not modelled. A failed call sets a failure notice without the server's message.

## Findings

| source | as written | input that shows it | evidently intended | confidence | as-written member | corrected member |
|---|---|---|---|---|---|---|
| MyApplication/app/src/main/java/com/example/software_project/NotificationScheduler.kt:149 | `onReceive` reads `task_id` with `getStringExtra`, but `createPendingIntent` stores it as an Int (line 106). `getStringExtra` then gives null and the receiver returns before it notifies | any scheduled alarm, e.g. task 7 with an offset "1h" and methods [IN_APP] | read the id as the Int it was stored as (or store a string), so the alarm shows its notification | high (not executed) | Reminders.OnReceive, Reminders.ReceiverIgnoresScheduledAlarms | Reminders.OnReceiveIntended, Reminders.IntendedReceiverNotifies |
| MyApplication/app/src/main/java/com/example/software_project/CalendarScreen.kt:282 | the grid starts at `firstDayOfMonth.with(firstDayOfWeek)`. `with(DayOfWeek)` picks that weekday within the Monday-to-Sunday week, so with a Sunday-first locale it moves forward to the Sunday after the 1st | October 2025 with a Sunday-first locale: the 1st is a Wednesday, the grid starts on 2025-10-05 and the 1st to the 4th have no cell | start at the Sunday on or before the 1st, matching the Sunday-first header at line 289 | high (not executed) | Calendar.MonthGridSkipsFirstDays, Calendar.FirstOfOctober2025 | Calendar.IntendedMonthGridCoversMonth, Calendar.IntendedMonthGridColumns |
| MyApplication/app/src/main/java/com/example/software_project/CreateTaskScreen.kt:349 | the create button compares `errorMessage` with the success text right after `createTask` returns. `createTask` only launches the request (TaskViewModel.kt:315), and the message is set when the reply arrives, so the comparison sees the message from before the request | a fresh view model (empty message) and a request that succeeds: the task is created and the screen stays open, and a second press creates a second task; after that, a request that fails closes the screen | close the screen once the reply reports success | high (not executed) | CreateTask.CreateTaskForm.Submit, CreateTask.SubmitClosesOnStaleMessage | CreateTask.SubmitClosesIntended, CreateTask.SubmitClosesOnlyOnSuccess |
| MyApplication/app/src/main/java/com/example/software_project/TomatoClockView.kt:106 | at the end of a work session `onFinish` sets the state to BREAK and calls `start()`. `isStarted` is still true, so `start()` returns at once: no break countdown or animation begins, and the view stays in BREAK with nothing running | any completed work session: after 25 minutes the view shows BREAK and never counts the 5-minute break down | mark the timer stopped (`isStarted = false`) before `start()`, so the break countdown begins, as the notification sent just before (a 5-minute break) announces | high (not executed) | TomatoClock.TomatoClockView.OnFinish, TomatoClock.WorkFinishStallsInBreak | TomatoClock.FinishStepIntended, TomatoClock.IntendedWorkFinishStartsBreak |
