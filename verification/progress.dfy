/** The derived values of the task view model: weighted parent-task progress,
    team progress and the role-based permission to modify a task. They read
    the view model's `tasks`, `teams` and `currentUserId`, passed in here. */
module Progress {
  import opened Domain
  import Text

  /** The exact sum of the selected values. */
  function SumOf(ts: seq<Task>, f: Task -> int): int
  {
    if |ts| == 0 then 0 else f(ts[0]) + SumOf(ts[1..], f)
  }

  /** `sumOf` with an `Int` selector: every addition wraps around like `Int`
      addition. */
  function IntSumOf(ts: seq<Task>, f: Task -> int): (r: int)
    ensures Text.INT_MIN <= r <= Text.INT_MAX
  {
    if |ts| == 0 then 0 else Text.Wrap32(f(ts[0]) + IntSumOf(ts[1..], f))
  }

  /** The `Int` sum is the exact sum wrapped once; it is the exact sum when
      that fits in an `Int`. */
  lemma {:induction false} IntSumWraps(ts: seq<Task>, f: Task -> int)
    ensures IntSumOf(ts, f) == Text.Wrap32(SumOf(ts, f))
    ensures Text.INT_MIN <= SumOf(ts, f) <= Text.INT_MAX ==> IntSumOf(ts, f) == SumOf(ts, f)
  {
    if |ts| > 0 {
      IntSumWraps(ts[1..], f);
      var rest, exact := IntSumOf(ts[1..], f), SumOf(ts[1..], f);
      assert (rest - exact) % Text.TWO_POW_32 == 0;
      Text.WrapCongruent(f(ts[0]) + rest, f(ts[0]) + exact);
    }
  }

  function Weight(t: Task): int { t.weight }

  /** The weight a task contributes to the completed part. */
  function DoneWeight(t: Task): int { if t.status == Done then t.weight else 0 }

  /** A sum does not depend on the order of its terms. */
  lemma {:induction false} SumOfPermutation(a: seq<Task>, b: seq<Task>, f: Task -> int)
    requires multiset(a) == multiset(b)
    ensures SumOf(a, f) == SumOf(b, f)
    decreases |a|
  {
    if |a| > 0 {
      assert a[0] in multiset(b);
      var i :| 0 <= i < |b| && b[i] == a[0];
      var rest := b[..i] + b[i + 1..];
      RestIsPermutation(a, b, i);
      SumOfPermutation(a[1..], rest, f);
      SumWithout(b, i, f);
    }
  }

  /** Taking the head of one side and its match out of the other keeps two
      permutations permutations of each other. */
  lemma RestIsPermutation(a: seq<Task>, b: seq<Task>, i: int)
    requires multiset(a) == multiset(b) && |a| > 0
    requires 0 <= i < |b| && b[i] == a[0]
    ensures multiset(a[1..]) == multiset(b[..i] + b[i + 1..])
  {
    var rest := b[..i] + b[i + 1..];
    assert b == b[..i] + [b[i]] + b[i + 1..];
    assert multiset(b) == multiset(rest) + multiset{b[i]};
    assert a == [a[0]] + a[1..];
    assert multiset(a) == multiset{a[0]} + multiset(a[1..]);
    calc {
      multiset(a[1..]);
      multiset(a) - multiset{a[0]};
      multiset(b) - multiset{b[i]};
      multiset(rest);
    }
  }

  /** A sum is the term at `i` plus the sum of the others. */
  lemma {:induction false} SumWithout(b: seq<Task>, i: int, f: Task -> int)
    requires 0 <= i < |b|
    ensures SumOf(b, f) == f(b[i]) + SumOf(b[..i] + b[i + 1..], f)
  {
    var others := b[..i] + b[i + 1..];
    if i == 0 {
      assert others == b[1..];
    } else {
      var tail := b[1..];
      SumWithout(tail, i - 1, f);
      var tailOthers := tail[..i - 1] + tail[i..];
      assert others[0] == b[0] && others[1..] == tailOthers;
      assert tail[i - 1] == b[i];
    }
  }

  lemma {:induction false} DoneWithinExactTotal(ts: seq<Task>)
    requires forall t :: t in ts ==> t.weight >= 0
    ensures 0 <= SumOf(ts, DoneWeight) <= SumOf(ts, Weight)
  {
    if |ts| > 0 {
      assert forall t :: t in ts[1..] ==> t in ts;
      DoneWithinExactTotal(ts[1..]);
    }
  }

  /** With non-negative weights whose total fits in an `Int`, the completed
      weight lies between 0 and the total weight. */
  lemma DoneWithinTotal(ts: seq<Task>)
    requires forall t :: t in ts ==> t.weight >= 0
    requires SumOf(ts, Weight) <= Text.INT_MAX
    ensures 0 <= IntSumOf(ts, DoneWeight) <= IntSumOf(ts, Weight)
  {
    DoneWithinExactTotal(ts);
    IntSumWraps(ts, DoneWeight);
    IntSumWraps(ts, Weight);
  }

  lemma {:induction false} AllDoneSums(ts: seq<Task>)
    requires forall t :: t in ts ==> t.status == Done
    ensures SumOf(ts, DoneWeight) == SumOf(ts, Weight)
  {
    if |ts| > 0 {
      assert forall t :: t in ts[1..] ==> t in ts;
      AllDoneSums(ts[1..]);
    }
  }

  lemma {:induction false} NoneDoneSums(ts: seq<Task>)
    requires forall t :: t in ts ==> t.status != Done
    ensures SumOf(ts, DoneWeight) == 0
  {
    if |ts| > 0 {
      assert forall t :: t in ts[1..] ==> t in ts;
      NoneDoneSums(ts[1..]);
    }
  }

  /** `tasks.filter { it.parentTaskId == parentTaskId }`: direct children only. */
  function Children(tasks: seq<Task>, parentId: int): (r: seq<Task>)
    ensures forall t :: t in r <==> t in tasks && t.parentTaskId == Some(parentId)
    ensures |r| <= |tasks|
  {
    if |tasks| == 0 then []
    else if tasks[0].parentTaskId == Some(parentId) then [tasks[0]] + Children(tasks[1..], parentId)
    else Children(tasks[1..], parentId)
  }

  /** The completed share of a weighted list, in percent; 0 when the total is 0. */
  function Percent(done: int, total: int): real
  {
    if total == 0 then 0.0 else 100.0 * (done as real) / (total as real)
  }

  lemma PercentBounds(done: int, total: int)
    requires 0 <= done <= total
    ensures 0.0 <= Percent(done, total) <= 100.0
  {
    if total > 0 {
      assert (done as real) / (total as real) <= 1.0;
    }
  }

  /** `calculateParentTaskProgress`. */
  function ParentTaskProgress(tasks: seq<Task>, parentId: int): real
  {
    var subs := Children(tasks, parentId);
    if |subs| == 0 then
      (match FindTask(tasks, parentId)
       case Some(p) => if p.status == Done then 100.0 else 0.0
       case None => 0.0)
    else Percent(IntSumOf(subs, DoneWeight), IntSumOf(subs, Weight))
  }

  /** A task without direct children counts as all done or not started:
      100 exactly when the first task with that id is DONE, and 0 when no task
      has that id. */
  lemma ChildlessProgress(tasks: seq<Task>, parentId: int)
    requires forall t :: t in tasks ==> t.parentTaskId != Some(parentId)
    ensures ParentTaskProgress(tasks, parentId) == 100.0 <==>
            FindTask(tasks, parentId).Some? && FindTask(tasks, parentId).value.status == Done
    ensures ParentTaskProgress(tasks, parentId) != 100.0 ==> ParentTaskProgress(tasks, parentId) == 0.0
    ensures (forall t :: t in tasks ==> t.id != parentId) ==> ParentTaskProgress(tasks, parentId) == 0.0
  {
    if |Children(tasks, parentId)| > 0 {
      assert Children(tasks, parentId)[0] in Children(tasks, parentId);
    }
  }

  /** With children, the progress is their weighted completed share, over
      the `Int` sums of the weights. */
  lemma ParentProgressWithChildren(tasks: seq<Task>, parentId: int)
    requires exists t :: t in tasks && t.parentTaskId == Some(parentId)
    ensures var subs := Children(tasks, parentId);
      ParentTaskProgress(tasks, parentId) == Percent(IntSumOf(subs, DoneWeight), IntSumOf(subs, Weight))
  {
    var w :| w in tasks && w.parentTaskId == Some(parentId);
    assert w in Children(tasks, parentId);
  }

  /** For non-negative weights whose total over the children fits in an
      `Int`, the progress lies in [0, 100]. */
  lemma ParentProgressBounds(tasks: seq<Task>, parentId: int)
    requires forall t :: t in tasks ==> t.weight >= 0
    requires SumOf(Children(tasks, parentId), Weight) <= Text.INT_MAX
    ensures 0.0 <= ParentTaskProgress(tasks, parentId) <= 100.0
  {
    var subs := Children(tasks, parentId);
    if |subs| > 0 {
      assert subs[0] in subs;
      ParentProgressWithChildren(tasks, parentId);
      DoneWithinTotal(subs);
      PercentBounds(IntSumOf(subs, DoneWeight), IntSumOf(subs, Weight));
    }
  }

  /** Past the `Int` range the bound fails: a DONE child of weight
      2147483647 and a TODO child of weight 1 wrap the total weight to
      -2147483648, and the progress comes out negative. */
  lemma ParentProgressOverflow()
    ensures var done := NewTask(1, "a", "", Medium, [], Done, "", 0).(parentTaskId := Some(0), weight := Text.INT_MAX);
      var todo := NewTask(2, "b", "", Medium, [], Todo, "", 1).(parentTaskId := Some(0), weight := 1);
      ParentTaskProgress([done, todo], 0) < 0.0
  {
    var done := NewTask(1, "a", "", Medium, [], Done, "", 0).(parentTaskId := Some(0), weight := Text.INT_MAX);
    var todo := NewTask(2, "b", "", Medium, [], Todo, "", 1).(parentTaskId := Some(0), weight := 1);
    var subs := [done, todo];
    assert Children(subs, 0) == subs;
    assert subs[1..] == [todo] && [todo][1..] == [];
    assert IntSumOf([todo], Weight) == Text.Wrap32(1) == 1;
    assert IntSumOf([todo], DoneWeight) == Text.Wrap32(0) == 0;
    assert IntSumOf(subs, Weight) == Text.Wrap32(Text.INT_MAX + 1) == Text.INT_MIN;
    assert IntSumOf(subs, DoneWeight) == Text.Wrap32(Text.INT_MAX) == Text.INT_MAX;
  }

  /** Children that are all done give 100, unless their total weight is 0. */
  lemma ParentProgressAllDone(tasks: seq<Task>, parentId: int)
    requires exists t :: t in tasks && t.parentTaskId == Some(parentId)
    requires forall t :: t in Children(tasks, parentId) ==> t.status == Done
    requires IntSumOf(Children(tasks, parentId), Weight) != 0
    ensures ParentTaskProgress(tasks, parentId) == 100.0
  {
    var subs := Children(tasks, parentId);
    ParentProgressWithChildren(tasks, parentId);
    AllDoneSums(subs);
    IntSumWraps(subs, DoneWeight);
    IntSumWraps(subs, Weight);
    PercentOfWhole(IntSumOf(subs, Weight));
  }

  lemma PercentOfWhole(total: int)
    requires total != 0
    ensures Percent(total, total) == 100.0
  {
    var x := total as real;
    assert 100.0 * x / x == 100.0;
  }

  /** Children none of which is done give 0. */
  lemma ParentProgressNoneDone(tasks: seq<Task>, parentId: int)
    requires exists t :: t in tasks && t.parentTaskId == Some(parentId)
    requires forall t :: t in Children(tasks, parentId) ==> t.status != Done
    ensures ParentTaskProgress(tasks, parentId) == 0.0
  {
    ParentProgressWithChildren(tasks, parentId);
    NoneDoneSums(Children(tasks, parentId));
    IntSumWraps(Children(tasks, parentId), DoneWeight);
  }

  /** Reordering the children (for example by the priority sort) leaves a
      parent's progress unchanged. */
  lemma ParentProgressOrderIndependent(tasks: seq<Task>, tasks': seq<Task>, parentId: int)
    requires multiset(Children(tasks, parentId)) == multiset(Children(tasks', parentId))
    requires |Children(tasks, parentId)| > 0
    ensures ParentTaskProgress(tasks, parentId) == ParentTaskProgress(tasks', parentId)
  {
    var a := Children(tasks, parentId);
    var b := Children(tasks', parentId);
    SumOfPermutation(a, b, Weight);
    SumOfPermutation(a, b, DoneWeight);
    IntSumWraps(a, Weight);
    IntSumWraps(b, Weight);
    IntSumWraps(a, DoneWeight);
    IntSumWraps(b, DoneWeight);
    assert |a| == |multiset(a)| == |multiset(b)| == |b|;
  }

  lemma {:induction false} ChildrenOfPermutation(a: seq<Task>, b: seq<Task>, parentId: int)
    requires multiset(a) == multiset(b)
    ensures multiset(Children(a, parentId)) == multiset(Children(b, parentId))
  {
    ChildrenMultiset(a, parentId);
    ChildrenMultiset(b, parentId);
  }

  lemma {:induction false} ChildrenMultiset(a: seq<Task>, parentId: int)
    ensures forall t :: multiset(Children(a, parentId))[t] == (if t.parentTaskId == Some(parentId) then multiset(a)[t] else 0)
  {
    if |a| > 0 {
      ChildrenMultiset(a[1..], parentId);
      assert a == [a[0]] + a[1..];
    }
  }

  /** Any permutation of the whole task list keeps the progress of every
      parent that has children. */
  lemma ProgressUnderPermutation(tasks: seq<Task>, tasks': seq<Task>, parentId: int)
    requires multiset(tasks) == multiset(tasks')
    requires exists t :: t in tasks && t.parentTaskId == Some(parentId)
    ensures ParentTaskProgress(tasks, parentId) == ParentTaskProgress(tasks', parentId)
  {
    ChildrenOfPermutation(tasks, tasks', parentId);
    var w :| w in tasks && w.parentTaskId == Some(parentId);
    assert w in Children(tasks, parentId);
    ParentProgressOrderIndependent(tasks, tasks', parentId);
  }

  /** `tasks.filter { it.teamId == teamId && it.parentTaskId == null }`. */
  function RootTeamTasks(tasks: seq<Task>, teamId: int): (r: seq<Task>)
    ensures forall t :: t in r <==> t in tasks && t.teamId == Some(teamId) && t.parentTaskId.None?
  {
    if |tasks| == 0 then []
    else if tasks[0].teamId == Some(teamId) && tasks[0].parentTaskId.None? then
      [tasks[0]] + RootTeamTasks(tasks[1..], teamId)
    else RootTeamTasks(tasks[1..], teamId)
  }

  /** `calculateTeamProgress`. */
  function TeamProgress(tasks: seq<Task>, teams: seq<Team>, teamId: int): real
  {
    if FindTeam(teams, teamId).None? then 0.0
    else
      var tt := RootTeamTasks(tasks, teamId);
      if |tt| == 0 then 0.0
      else
        var total := IntSumOf(tt, Weight);
        if total > 0 then 100.0 * (IntSumOf(tt, DoneWeight) as real) / (total as real) else 0.0
  }

  /** Team progress is 0 for an unknown team and for a team without root
      tasks: sub-tasks and other teams' tasks do not count. */
  lemma TeamProgressZero(tasks: seq<Task>, teams: seq<Team>, teamId: int)
    ensures (forall t :: t in teams ==> t.id != teamId) ==> TeamProgress(tasks, teams, teamId) == 0.0
    ensures (forall t :: t in tasks ==> t.teamId != Some(teamId) || t.parentTaskId.Some?) ==>
      TeamProgress(tasks, teams, teamId) == 0.0
  {
    var tt := RootTeamTasks(tasks, teamId);
    if |tt| > 0 {
      assert tt[0] in tt;
    }
  }

  /** Otherwise team progress is the weighted completed share of exactly the
      team's root tasks, over the `Int` sums of the weights, and lies in
      [0, 100] for non-negative weights whose total fits in an `Int`. */
  lemma TeamProgressMeaning(tasks: seq<Task>, teams: seq<Team>, teamId: int)
    ensures (forall t :: t in tasks ==> t.weight >= 0) && SumOf(RootTeamTasks(tasks, teamId), Weight) <= Text.INT_MAX ==>
      0.0 <= TeamProgress(tasks, teams, teamId) <= 100.0
    ensures FindTeam(teams, teamId).Some? && IntSumOf(RootTeamTasks(tasks, teamId), Weight) > 0 ==>
      TeamProgress(tasks, teams, teamId) ==
        Percent(IntSumOf(RootTeamTasks(tasks, teamId), DoneWeight), IntSumOf(RootTeamTasks(tasks, teamId), Weight))
  {
    var tt := RootTeamTasks(tasks, teamId);
    if (forall t :: t in tasks ==> t.weight >= 0) && SumOf(tt, Weight) <= Text.INT_MAX {
      DoneWithinTotal(tt);
      PercentBounds(IntSumOf(tt, DoneWeight), IntSumOf(tt, Weight));
    }
    if |tt| == 0 {
      assert IntSumOf(tt, Weight) == 0;
    }
  }

  /** Adding a task that is not a root task of the team leaves its progress alone. */
  lemma TeamProgressIgnoresOthers(tasks: seq<Task>, teams: seq<Team>, teamId: int, extra: Task)
    requires extra.teamId != Some(teamId) || extra.parentTaskId.Some?
    ensures TeamProgress(tasks + [extra], teams, teamId) == TeamProgress(tasks, teams, teamId)
  {
    RootTeamTasksAppend(tasks, teamId, extra);
  }

  lemma {:induction false} RootTeamTasksAppend(tasks: seq<Task>, teamId: int, extra: Task)
    requires extra.teamId != Some(teamId) || extra.parentTaskId.Some?
    ensures RootTeamTasks(tasks + [extra], teamId) == RootTeamTasks(tasks, teamId)
  {
    if |tasks| > 0 {
      assert (tasks + [extra])[1..] == tasks[1..] + [extra];
      RootTeamTasksAppend(tasks[1..], teamId, extra);
    } else {
      assert (tasks + [extra])[1..] == [];
    }
  }

  /** `canCurrentUserModifyTask`. */
  function CanModify(task: Task, teams: seq<Team>, currentUserId: Option<int>): bool
  {
    if !task.isTeamTask || task.teamId.None? then true
    else match FindTeam(teams, task.teamId.value)
      case None => false
      case Some(team) =>
        var role := RoleOf(team, currentUserId);
        if role == Some(ADMIN) then true
        else if role == Some(MEMBER) then task.assignedTo == currentUserId || task.assignedTo.None?
        else false
  }

  /** The permission truth table: personal tasks always; a team task whose team
      is unknown never; an admin always; a member exactly when the task is
      unassigned or assigned to them; any other role or no role never. */
  lemma CanModifyTable(task: Task, teams: seq<Team>, user: Option<int>)
    ensures !task.isTeamTask || task.teamId.None? ==> CanModify(task, teams, user)
    ensures task.isTeamTask && task.teamId.Some? && (forall t :: t in teams ==> t.id != task.teamId.value) ==>
      !CanModify(task, teams, user)
    ensures task.isTeamTask && task.teamId.Some? && FindTeam(teams, task.teamId.value).Some? ==>
      var team := FindTeam(teams, task.teamId.value).value;
      (user.Some? && user.value in team.members && team.members[user.value] == ADMIN ==> CanModify(task, teams, user)) &&
      (user.Some? && user.value in team.members && team.members[user.value] == MEMBER ==>
        (CanModify(task, teams, user) <==> task.assignedTo.None? || task.assignedTo == user)) &&
      (!(user.Some? && user.value in team.members && team.members[user.value] in {ADMIN, MEMBER}) ==>
        !CanModify(task, teams, user))
  {
  }

  /** On a team task assigned to someone else, only an admin of the task's team
      may make changes. */
  lemma OthersTaskNeedsAdmin(task: Task, teams: seq<Team>, user: Option<int>)
    requires task.isTeamTask && task.teamId.Some?
    requires task.assignedTo.Some? && task.assignedTo != user
    ensures CanModify(task, teams, user) <==>
      FindTeam(teams, task.teamId.value).Some? &&
      RoleOf(FindTeam(teams, task.teamId.value).value, user) == Some(ADMIN)
  {
  }
}
