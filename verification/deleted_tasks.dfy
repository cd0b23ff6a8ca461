/** The recycle-bin screen: the countdown each binned task shows, and the
    "clear all" button. */
module RecycleBin {
  import opened Domain
  import opened Tasks

  /** The countdown line of a binned task, as which of its texts it shows. */
  datatype CountdownText =
    | TimeUnknown           // no deletion time stored
    | DateFormatError       // the stored time does not parse
    | InDays(days: int)     // "deleted for good in `days` days", days > 1
    | InOneDay
    | Imminent              // "about to be deleted for good"

  /** The text and whether it is drawn in the warning colour. */
  datatype Countdown = Countdown(text: CountdownText, warning: bool)

  /** Whole days left before the seven-day retention runs out. */
  function DaysLeft(deletedAt: int, now: int): int
  {
    RETENTION_DAYS - WholeDays(deletedAt, now)
  }

  function CountdownOf(deletedAt: Option<Stamp>, now: int): Countdown
  {
    match deletedAt
    case None => Countdown(TimeUnknown, false)
    case Some(stamp) =>
      if !stamp.parses then Countdown(DateFormatError, true)
      else
        var daysLeft := DaysLeft(stamp.second, now);
        var text := if daysLeft > 1 then InDays(daysLeft) else if daysLeft == 1 then InOneDay else Imminent;
        Countdown(text, daysLeft <= 2)
  }

  /** The countdown table: the warning colour marks an unparseable time and
      the last two days; a day count is shown only while more than one day
      is left. */
  lemma CountdownTable(deletedAt: Option<Stamp>, now: int)
    ensures var c := CountdownOf(deletedAt, now);
      (c.warning <==> deletedAt.Some? && (!deletedAt.value.parses || DaysLeft(deletedAt.value.second, now) <= 2)) &&
      (c.text.InDays? <==> deletedAt.Some? && deletedAt.value.parses && DaysLeft(deletedAt.value.second, now) > 1) &&
      (c.text.InDays? ==> c.text.days == DaysLeft(deletedAt.value.second, now) && c.text.days > 1) &&
      (c.text == TimeUnknown <==> deletedAt.None?)
  {
  }

  /** The countdown agrees with the purge rule the next load applies: a task
      shows "about to be deleted" exactly when it is expired, and a task that
      is not yet expired shows how many days it has left. */
  lemma ImminentExactlyWhenExpired(deletedAt: Option<Stamp>, now: int)
    ensures CountdownOf(deletedAt, now).text == Imminent <==> Tasks.Expired(deletedAt, now) == Some(true)
    ensures CountdownOf(deletedAt, now).text == DateFormatError <==> Tasks.Expired(deletedAt, now).None?
  {
  }

  /** A task binned less than a day ago has seven days left; with deletion
      times in the future (a clock set back) the count exceeds seven. */
  lemma FreshlyBinned(deletedAt: int, now: int)
    requires deletedAt <= now < deletedAt + SECONDS_PER_DAY
    ensures CountdownOf(Some(Stamp(true, deletedAt)), now) == Countdown(InDays(7), false)
    ensures CountdownOf(Some(Stamp(true, now + 2 * SECONDS_PER_DAY)), now) == Countdown(InDays(9), false)
  {
  }

  /** "全部清空": one permanent deletion per task in the bin, in order, the
      i-th accepted by the server when `purged(i)`. */
  method ClearAll(vm: TaskViewModel, purged: nat -> bool)
    modifies vm
    ensures vm.State() == PurgeAll(old(vm.State()), old(vm.deletedTasks), purged)
  {
    vm.PurgeTasks(vm.deletedTasks, purged);
  }

  /** After "clear all" the bin holds exactly the tasks some of whose
      deletions were refused and none accepted, and the task list is
      untouched. */
  lemma ClearAllMeaning(s: VmState, purged: nat -> bool)
    ensures var s' := PurgeAll(s, s.deletedTasks, purged);
      s'.tasks == s.tasks &&
      (forall t :: t in s'.deletedTasks <==>
        t in s.deletedTasks && forall i :: 0 <= i < |s.deletedTasks| && purged(i) ==> s.deletedTasks[i].id != t.id)
  {
    PurgeAllMeaning(s, s.deletedTasks, purged);
  }

  /** When the server accepts every deletion, "clear all" leaves nothing in
      the bin. */
  lemma ClearAllEmptiesBin(s: VmState, purged: nat -> bool)
    requires forall i :: 0 <= i < |s.deletedTasks| ==> purged(i)
    ensures forall t :: t !in PurgeAll(s, s.deletedTasks, purged).deletedTasks
  {
    PurgeAllMeaning(s, s.deletedTasks, purged);
    AllAcceptedLeavesNothing(s.deletedTasks, PurgeAll(s, s.deletedTasks, purged).deletedTasks, purged);
  }

  /** A bin kept to the tasks no accepted deletion names holds nothing once
      every deletion was accepted. */
  lemma AllAcceptedLeavesNothing(binned: seq<Task>, bin: seq<Task>, purged: nat -> bool)
    requires forall t :: t in bin <==>
      t in binned && forall i :: 0 <= i < |binned| && purged(i) ==> binned[i].id != t.id
    requires forall i :: 0 <= i < |binned| ==> purged(i)
    ensures forall t :: t !in bin
  {
    forall t | t in binned
      ensures t !in bin
    {
      var k :| 0 <= k < |binned| && binned[k] == t;
      assert purged(k);
    }
  }
}
