/** `NotificationScheduler` and `NotificationReceiver`: which alarms a task's
    reminder settings register (as a plan of request codes, first trigger
    instants and intent extras), which request codes a cancellation
    addresses, and what the receiver does with an alarm's intent.

    Times are local wall-clock milliseconds since the epoch in one fixed
    zone; a date is its epoch day. Request codes are 32-bit `Int`s. */
module Reminders {
  import opened Domain
  import opened Text

  const DAILY_REMINDER_REQUEST_CODE_PREFIX: int := 2_000_000_000
  const MS_PER_SECOND: int := 1000
  const MS_PER_MINUTE: int := 60_000
  const MS_PER_HOUR: int := 3_600_000
  const MS_PER_DAY: int := 86_400_000

  // ----- trigger instants -----

  /** `LocalDateTime.parse(dueDate + "T23:59:59")` for the due date's epoch day. */
  function DueInstant(dueDay: int): (r: int)
    ensures r == dueDay * MS_PER_DAY + MS_PER_DAY - MS_PER_SECOND
  {
    dueDay * MS_PER_DAY + 23 * MS_PER_HOUR + 59 * MS_PER_MINUTE + 59 * MS_PER_SECOND
  }

  predicate EndsWith(s: string, c: char) { |s| > 0 && s[|s| - 1] == c }

  /** The count before the unit letter: `removeSuffix(..).toLongOrNull() ?: 0`. */
  function OffsetCount(s: string): int
    requires |s| > 0
  {
    match ToLongOrNull(s[..|s| - 1])
    case Some(n) => n
    case None => 0
  }

  /** The `Duration` of `calculateTriggerTime`, in seconds: the suffixes
      "d", "h" and "m" are tried in that order, anything else is zero. */
  function OffsetSeconds(r: string): (d: int)
    ensures !EndsWith(r, 'd') && !EndsWith(r, 'h') && !EndsWith(r, 'm') ==> d == 0
    ensures EndsWith(r, 'd') ==> d == OffsetCount(r) * 86_400
    ensures EndsWith(r, 'h') ==> d == OffsetCount(r) * 3_600
    ensures EndsWith(r, 'm') ==> d == OffsetCount(r) * 60
  {
    if EndsWith(r, 'd') then OffsetCount(r) * 86_400
    else if EndsWith(r, 'h') then OffsetCount(r) * 3_600
    else if EndsWith(r, 'm') then OffsetCount(r) * 60
    else 0
  }

  /** `calculateTriggerTime`: the due instant minus the offset. */
  function TriggerTime(due: int, reminder: string): int
  {
    due - OffsetSeconds(reminder) * MS_PER_SECOND
  }

  /** A reminder written as a count and a unit letter reads back as that
      many days, hours or minutes before the due instant. */
  lemma TriggerOfWrittenOffset(due: int, n: int, unit: char)
    requires LONG_MIN <= n <= LONG_MAX
    requires unit == 'd' || unit == 'h' || unit == 'm'
    ensures TriggerTime(due, ShowInt(n) + [unit]) ==
      due - n * (if unit == 'd' then MS_PER_DAY else if unit == 'h' then MS_PER_HOUR else MS_PER_MINUTE)
  {
    var s := ShowInt(n) + [unit];
    assert s[..|s| - 1] == ShowInt(n);
    ParseShowInt(n, LONG_MIN, LONG_MAX);
  }

  /** A count with no digit in it means no offset at all. */
  lemma NonNumericCountIsZero(due: int, count: string, unit: char)
    requires forall i :: 0 <= i < |count| ==> !IsDigit(count[i])
    ensures TriggerTime(due, count + [unit]) == due
  {
    var s := count + [unit];
    assert s[..|s| - 1] == count;
    NoDigitNoInteger(count, LONG_MIN, LONG_MAX);
  }

  // ----- request codes -----

  /** The code `createPendingIntent` registers for a requested code. */
  function FinalRequestCode(taskId: int, requestCode: int): int
  {
    if requestCode >= DAILY_REMINDER_REQUEST_CODE_PREFIX then requestCode else Wrap32(taskId + requestCode)
  }

  /** The code of the offset reminder at `index`. */
  function OffsetCode(taskId: int, index: nat): int
  {
    FinalRequestCode(taskId, index)
  }

  /** The code of the daily reminder: `2000000000 + id`, wrapped. */
  function DailyCode(taskId: int): int
  {
    FinalRequestCode(taskId, Wrap32(DAILY_REMINDER_REQUEST_CODE_PREFIX + taskId))
  }

  /** Ids up to 147483647 keep their daily codes apart from each other and
      from every offset code below the prefix. For any other id,
      `2000000000 + id` falls below the prefix (a negative id directly, a
      larger one by wrapping above `Int.MAX_VALUE`), so `id + (2000000000 + id)`
      is taken and wrapped. */
  lemma DailyCodeShape(taskId: int)
    requires INT_MIN <= taskId <= INT_MAX
    ensures 0 <= taskId <= INT_MAX - DAILY_REMINDER_REQUEST_CODE_PREFIX ==>
      DailyCode(taskId) == DAILY_REMINDER_REQUEST_CODE_PREFIX + taskId
    ensures !(0 <= taskId <= INT_MAX - DAILY_REMINDER_REQUEST_CODE_PREFIX) ==>
      DailyCode(taskId) == Wrap32(2 * taskId + DAILY_REMINDER_REQUEST_CODE_PREFIX)
  {
    var rc := Wrap32(DAILY_REMINDER_REQUEST_CODE_PREFIX + taskId);
    if !(0 <= taskId <= INT_MAX - DAILY_REMINDER_REQUEST_CODE_PREFIX) {
      if taskId > 0 {
        assert rc == DAILY_REMINDER_REQUEST_CODE_PREFIX + taskId - TWO_POW_32;
      } else {
        assert rc == DAILY_REMINDER_REQUEST_CODE_PREFIX + taskId;
      }
      assert rc < DAILY_REMINDER_REQUEST_CODE_PREFIX;
      assert (Wrap32(taskId + rc) - (2 * taskId + DAILY_REMINDER_REQUEST_CODE_PREFIX)) % TWO_POW_32 == 0;
      WrapCongruent(taskId + rc, 2 * taskId + DAILY_REMINDER_REQUEST_CODE_PREFIX);
    }
  }

  /** Within one task, distinct indices get distinct offset codes. */
  lemma OffsetCodesDistinctWithinTask(taskId: int, i: nat, j: nat)
    requires i < j < DAILY_REMINDER_REQUEST_CODE_PREFIX
    ensures OffsetCode(taskId, i) != OffsetCode(taskId, j)
  {
    if Wrap32(taskId + i) == Wrap32(taskId + j) {
      WrapInjectiveOnWindow(taskId + i, taskId + j);
    }
  }

  /** Across tasks the offset codes collide: the second reminder of task 5
      and the first reminder of task 6 share code 6, so scheduling one
      replaces the other's alarm. */
  lemma OffsetCodesCollideAcrossTasks()
    ensures OffsetCode(5, 1) == OffsetCode(6, 0) == 6
  {
  }

  // ----- intents -----

  /** The values an intent's extras hold. */
  datatype Extra = IntExtra(i: int) | StringExtra(s: string) | StringListExtra(items: seq<string>)

  type Extras = map<string, Extra>

  /** The extras `createPendingIntent` puts on the receiver's intent. */
  function ReminderExtras(task: Task, methods: Option<seq<string>>): (r: Extras)
    ensures "task_id" in r && "task_title" in r && "task_description" in r
    ensures r["task_id"] == IntExtra(task.id)
    ensures r["task_title"] == StringExtra(task.title)
    ensures r["task_description"] == StringExtra(task.description)
    ensures "reminder_methods" in r <==> methods.Some?
    ensures methods.Some? ==> r["reminder_methods"] == StringListExtra(methods.value)
  {
    var base := map["task_id" := IntExtra(task.id), "task_title" := StringExtra(task.title),
                    "task_description" := StringExtra(task.description)];
    if methods.Some? then base["reminder_methods" := StringListExtra(methods.value)] else base
  }

  function MethodNames(ms: seq<ReminderMethod>): (r: seq<string>)
    ensures |r| == |ms| && forall i :: 0 <= i < |ms| ==> r[i] == MethodName(ms[i])
  {
    if |ms| == 0 then [] else [MethodName(ms[0])] + MethodNames(ms[1..])
  }

  // ----- the scheduling plan -----

  /** One registered alarm: its request code, its (first) trigger instant,
      whether it repeats daily, and its intent's extras. */
  datatype Alarm = Alarm(requestCode: int, triggerMs: int, repeating: bool, extras: Extras)

  /** The extras of every alarm a task's settings schedule. */
  function PlanExtras(task: Task, rs: ReminderSettings): Extras
  {
    ReminderExtras(task, Some(MethodNames(rs.reminderMethods)))
  }

  /** `calculateTriggerTime` of every reminder entry, in order. */
  function Triggers(due: int, times: seq<string>): (r: seq<int>)
    ensures |r| == |times| && forall i :: 0 <= i < |times| ==> r[i] == TriggerTime(due, times[i])
  {
    if |times| == 0 then [] else [TriggerTime(due, times[0])] + Triggers(due, times[1..])
  }

  /** The one-off alarm of entry `i`, given the entries' trigger instants. */
  function OffsetAlarm(taskId: int, triggers: seq<int>, extras: Extras, i: nat): Alarm
    requires i < |triggers|
  {
    Alarm(OffsetCode(taskId, i), triggers[i], false, extras)
  }

  /** The offset alarms for indices below `n` whose trigger is after `now`, in
      index order. */
  function OffsetAlarms(taskId: int, triggers: seq<int>, extras: Extras, now: int, n: nat)
    : (r: seq<Alarm>)
    requires n <= |triggers|
    ensures forall a :: a in r ==> !a.repeating && a.triggerMs > now
  {
    if n == 0 then []
    else
      var rest := OffsetAlarms(taskId, triggers, extras, now, n - 1);
      if triggers[n - 1] > now then rest + [OffsetAlarm(taskId, triggers, extras, n - 1)] else rest
  }

  /** The first firing of the daily reminder at `hour:minute`: today at that
      time with the seconds set to zero (the milliseconds of `now` stay), or
      the same time tomorrow if that is already past. */
  function DailyFirstFire(now: int, hour: int, minute: int): int
  {
    var today := now - now % MS_PER_DAY + hour * MS_PER_HOUR + minute * MS_PER_MINUTE + now % MS_PER_SECOND;
    if today < now then today + MS_PER_DAY else today
  }

  /** The first firing is never in the past and comes within a day, at the
      chosen time of day. */
  lemma DailyFirstFireWindow(now: int, hour: int, minute: int)
    requires 0 <= hour < 24 && 0 <= minute < 60
    ensures now <= DailyFirstFire(now, hour, minute) < now + MS_PER_DAY
    ensures DailyFirstFire(now, hour, minute) % MS_PER_DAY ==
      hour * MS_PER_HOUR + minute * MS_PER_MINUTE + now % MS_PER_SECOND
  {
    var start := now - now % MS_PER_DAY;
    var tod := hour * MS_PER_HOUR + minute * MS_PER_MINUTE + now % MS_PER_SECOND;
    assert 0 <= tod < MS_PER_DAY;
    assert start % MS_PER_DAY == 0 by {
      assert start == (now / MS_PER_DAY) * MS_PER_DAY;
    }
    DayOffset(start / MS_PER_DAY, tod);
    DayOffset(start / MS_PER_DAY + 1, tod);
  }

  lemma DayOffset(d: int, tod: int)
    requires 0 <= tod < MS_PER_DAY
    ensures (d * MS_PER_DAY + tod) % MS_PER_DAY == tod
  {
  }

  /** The daily alarm, when the settings name a time that parses. */
  function DailyAlarms(task: Task, rs: ReminderSettings, parseTime: string -> Option<(int, int)>, now: int)
    : (r: seq<Alarm>)
    ensures |r| <= 1 && forall a :: a in r ==> a.repeating && a.requestCode == DailyCode(task.id)
    ensures |r| == 1 <==> rs.dailyReminderTime.Some? && parseTime(rs.dailyReminderTime.value).Some?
  {
    if rs.dailyReminderTime.Some? && parseTime(rs.dailyReminderTime.value).Some? then
      var (h, m) := parseTime(rs.dailyReminderTime.value).value;
      [Alarm(DailyCode(task.id), DailyFirstFire(now, h, m), true, PlanExtras(task, rs))]
    else []
  }

  /** The offset part of the plan: empty when the due date does not parse. */
  function OffsetPart(task: Task, rs: ReminderSettings, parseDate: string -> Option<int>, now: int): seq<Alarm>
  {
    match parseDate(task.dueDate)
    case None => []
    case Some(d) =>
      var triggers := Triggers(DueInstant(d), rs.remindAtTimes);
      OffsetAlarms(task.id, triggers, PlanExtras(task, rs), now, |triggers|)
  }

  /** What `scheduleNotifications` registers. A due date that does not parse
      skips the offsets only; a missing exact-alarm privilege, met at the
      first offset still in the future, returns before anything is set. */
  function SchedulePlan(task: Task, parseDate: string -> Option<int>, parseTime: string -> Option<(int, int)>,
                        now: int, exactAllowed: bool): seq<Alarm>
  {
    match task.reminderSettings
    case None => []
    case Some(rs) =>
      var offsets := OffsetPart(task, rs, parseDate, now);
      if !exactAllowed && offsets != [] then [] else offsets + DailyAlarms(task, rs, parseTime, now)
  }

  /** `scheduleNotifications`, as the list of alarms it registers, in order. */
  method ScheduleNotifications(task: Task, parseDate: string -> Option<int>, parseTime: string -> Option<(int, int)>,
                               now: int, exactAllowed: bool) returns (plan: seq<Alarm>)
    ensures plan == SchedulePlan(task, parseDate, parseTime, now, exactAllowed)
  {
    if task.reminderSettings.None? {
      return [];
    }
    var rs := task.reminderSettings.value;
    var offsets: seq<Alarm> := [];
    var dueDay := parseDate(task.dueDate);
    if dueDay.Some? {
      var stopped;
      var triggers := Triggers(DueInstant(dueDay.value), rs.remindAtTimes);
      offsets, stopped := ScheduleOffsets(task.id, triggers, PlanExtras(task, rs), now, exactAllowed);
      if stopped {
        return [];
      }
    }
    plan := offsets + DailyAlarms(task, rs, parseTime, now);
  }

  /** The offset loop of `scheduleNotifications`: the offsets still in the
      future, in index order; without the exact-alarm privilege it stops at
      the first of them, and then nothing is registered. */
  method ScheduleOffsets(taskId: int, triggers: seq<int>, extras: Extras, now: int, exactAllowed: bool)
    returns (plan: seq<Alarm>, stopped: bool)
    ensures stopped <==> !exactAllowed && OffsetAlarms(taskId, triggers, extras, now, |triggers|) != []
    ensures plan == if stopped then [] else OffsetAlarms(taskId, triggers, extras, now, |triggers|)
  {
    plan := [];
    var i := 0;
    while i < |triggers|
      invariant 0 <= i <= |triggers|
      invariant plan == OffsetAlarms(taskId, triggers, extras, now, i)
      invariant !exactAllowed ==> plan == []
    {
      if triggers[i] > now {
        if !exactAllowed {
          OffsetAlarmsGrow(taskId, triggers, extras, now, i + 1, |triggers|);
          return [], true;
        }
        plan := plan + [OffsetAlarm(taskId, triggers, extras, i)];
      }
      assert plan == OffsetAlarms(taskId, triggers, extras, now, i + 1);
      i := i + 1;
    }
    stopped := false;
  }

  lemma {:induction false} OffsetAlarmsGrow(taskId: int, triggers: seq<int>, extras: Extras, now: int,
                                            m: nat, n: nat)
    requires m <= n <= |triggers|
    ensures |OffsetAlarms(taskId, triggers, extras, now, m)| <= |OffsetAlarms(taskId, triggers, extras, now, n)|
    decreases n
  {
    if m < n {
      OffsetAlarmsGrow(taskId, triggers, extras, now, m, n - 1);
      var rest := OffsetAlarms(taskId, triggers, extras, now, n - 1);
      var all := OffsetAlarms(taskId, triggers, extras, now, n);
      assert all == rest || all == rest + [OffsetAlarm(taskId, triggers, extras, n - 1)];
    }
  }

  /** Every offset alarm belongs to an index below `n`. */
  lemma {:induction false} OffsetAlarmsSound(taskId: int, triggers: seq<int>, extras: Extras, now: int,
                                             n: nat, a: Alarm)
    requires n <= |triggers|
    requires a in OffsetAlarms(taskId, triggers, extras, now, n)
    ensures exists i :: 0 <= i < n && a == OffsetAlarm(taskId, triggers, extras, i)
  {
    if a !in OffsetAlarms(taskId, triggers, extras, now, n - 1) {
      assert a == OffsetAlarm(taskId, triggers, extras, n - 1);
    } else {
      OffsetAlarmsSound(taskId, triggers, extras, now, n - 1, a);
    }
  }

  /** The alarm of index `i` is registered exactly when its trigger is after `now`. */
  lemma {:induction false} OffsetAlarmsComplete(taskId: int, triggers: seq<int>, extras: Extras, now: int,
                                                n: nat, i: nat)
    requires i < n <= |triggers| < DAILY_REMINDER_REQUEST_CODE_PREFIX
    ensures OffsetAlarm(taskId, triggers, extras, i) in OffsetAlarms(taskId, triggers, extras, now, n) <==>
      triggers[i] > now
  {
    var mine := OffsetAlarm(taskId, triggers, extras, i);
    var rest := OffsetAlarms(taskId, triggers, extras, now, n - 1);
    if i < n - 1 {
      OffsetAlarmsComplete(taskId, triggers, extras, now, n - 1, i);
      OffsetCodesDistinctWithinTask(taskId, i, n - 1);
      assert mine != OffsetAlarm(taskId, triggers, extras, n - 1);
    } else if mine in rest {
      OffsetAlarmsSound(taskId, triggers, extras, now, n - 1, mine);
      var k :| 0 <= k < n - 1 && mine == OffsetAlarm(taskId, triggers, extras, k);
      OffsetCodesDistinctWithinTask(taskId, k, i);
    }
  }

  /** With the privilege, every future offset and the daily reminder (when its
      time parses) are registered, and nothing else. */
  lemma ScheduleWithPrivilege(task: Task, parseDate: string -> Option<int>,
                              parseTime: string -> Option<(int, int)>, now: int, d: int, i: nat)
    requires task.reminderSettings.Some? && parseDate(task.dueDate) == Some(d)
    requires i < |task.reminderSettings.value.remindAtTimes| < DAILY_REMINDER_REQUEST_CODE_PREFIX
    ensures var rs := task.reminderSettings.value;
      var plan := SchedulePlan(task, parseDate, parseTime, now, true);
      OffsetAlarm(task.id, Triggers(DueInstant(d), rs.remindAtTimes), PlanExtras(task, rs), i) in plan <==>
        TriggerTime(DueInstant(d), rs.remindAtTimes[i]) > now
  {
    var rs := task.reminderSettings.value;
    OffsetAlarmsComplete(task.id, Triggers(DueInstant(d), rs.remindAtTimes), PlanExtras(task, rs), now, |rs.remindAtTimes|, i);
  }

  /** Every one-off alarm in a plan is in the future, and a plan that goes
      ahead holds the daily alarm exactly when its time parses. */
  lemma SchedulePlanShape(task: Task, parseDate: string -> Option<int>,
                          parseTime: string -> Option<(int, int)>, now: int, exactAllowed: bool)
    requires task.reminderSettings.Some?
    ensures var plan := SchedulePlan(task, parseDate, parseTime, now, exactAllowed);
      forall a :: a in plan && !a.repeating ==> a.triggerMs > now
    ensures var rs := task.reminderSettings.value;
      exactAllowed ==>
        ((exists a :: a in SchedulePlan(task, parseDate, parseTime, now, true) && a.repeating) <==>
         rs.dailyReminderTime.Some? && parseTime(rs.dailyReminderTime.value).Some?)
  {
    var rs := task.reminderSettings.value;
    var daily := DailyAlarms(task, rs, parseTime, now);
    if |daily| == 1 {
      assert daily[0] in SchedulePlan(task, parseDate, parseTime, now, true);
    }
  }

  /** Without the privilege, one future offset cancels the whole plan, the
      daily reminder included. */
  lemma ScheduleWithoutPrivilege(task: Task, parseDate: string -> Option<int>,
                                 parseTime: string -> Option<(int, int)>, now: int, d: int, i: nat)
    requires task.reminderSettings.Some? && parseDate(task.dueDate) == Some(d)
    requires i < |task.reminderSettings.value.remindAtTimes| < DAILY_REMINDER_REQUEST_CODE_PREFIX
    requires TriggerTime(DueInstant(d), task.reminderSettings.value.remindAtTimes[i]) > now
    ensures SchedulePlan(task, parseDate, parseTime, now, false) == []
  {
    var rs := task.reminderSettings.value;
    OffsetAlarmsComplete(task.id, Triggers(DueInstant(d), rs.remindAtTimes), PlanExtras(task, rs), now, |rs.remindAtTimes|, i);
  }

  // ----- cancellation -----

  /** The request codes `cancelNotifications` cancels, in order. */
  method CancelNotifications(task: Task) returns (codes: seq<int>)
    ensures task.reminderSettings.None? ==> codes == []
    ensures task.reminderSettings.Some? ==>
      var rs := task.reminderSettings.value;
      |codes| == |rs.remindAtTimes| + (if rs.dailyReminderTime.Some? then 1 else 0) &&
      (forall i :: 0 <= i < |rs.remindAtTimes| ==> codes[i] == OffsetCode(task.id, i)) &&
      (rs.dailyReminderTime.Some? ==> codes[|codes| - 1] == DailyCode(task.id))
  {
    if task.reminderSettings.None? {
      return [];
    }
    var rs := task.reminderSettings.value;
    codes := [];
    var i := 0;
    while i < |rs.remindAtTimes|
      invariant 0 <= i <= |rs.remindAtTimes|
      invariant |codes| == i && forall k :: 0 <= k < i ==> codes[k] == OffsetCode(task.id, k)
    {
      codes := codes + [OffsetCode(task.id, i)];
      i := i + 1;
    }
    if rs.dailyReminderTime.Some? {
      codes := codes + [DailyCode(task.id)];
    }
  }

  /** Cancelling a task addresses every code its scheduling can register,
      as long as the reminder settings did not change in between. */
  lemma CancelCoversSchedule(task: Task, parseDate: string -> Option<int>, parseTime: string -> Option<(int, int)>,
                             now: int, exactAllowed: bool, codes: seq<int>, a: Alarm)
    requires task.reminderSettings.Some?
    requires var rs := task.reminderSettings.value;
      |codes| == |rs.remindAtTimes| + (if rs.dailyReminderTime.Some? then 1 else 0) &&
      (forall i :: 0 <= i < |rs.remindAtTimes| ==> codes[i] == OffsetCode(task.id, i)) &&
      (rs.dailyReminderTime.Some? ==> codes[|codes| - 1] == DailyCode(task.id))
    requires a in SchedulePlan(task, parseDate, parseTime, now, exactAllowed)
    ensures a.requestCode in codes
  {
    var rs := task.reminderSettings.value;
    var offsets := OffsetPart(task, rs, parseDate, now);
    if a in offsets {
      var d := parseDate(task.dueDate).value;
      OffsetAlarmsSound(task.id, Triggers(DueInstant(d), rs.remindAtTimes), PlanExtras(task, rs), now, |rs.remindAtTimes|, a);
      var i :| 0 <= i < |rs.remindAtTimes| && a == OffsetAlarm(task.id, Triggers(DueInstant(d), rs.remindAtTimes), PlanExtras(task, rs), i);
      assert codes[i] == a.requestCode;
    } else {
      assert a in DailyAlarms(task, rs, parseTime, now);
      assert codes[|codes| - 1] == a.requestCode;
    }
  }

  // ----- the receiver -----

  /** What the receiver does for one reminder method. */
  datatype Action =
    | Notify(title: string, text: string)
    | SendSms(phone: string, message: string)
    | OpenMail(address: string, subject: string, body: string)

  /** The receiver's surroundings: the stored phone number and email address,
      the SMS permission, and whether some app handles `mailto:`. */
  datatype Contacts = Contacts(phone: Option<string>, email: Option<string>, smsGranted: bool, mailAppFound: bool)

  predicate NullOrBlank(s: Option<string>) { s.None? || IsBlank(s.value) }

  /** The action for one method name; an unknown name (which `valueOf`
      rejects) has none. */
  function MethodAction(name: string, title: string, description: string, c: Contacts): (r: Option<Action>)
    ensures r.Some? <==> MethodOf(name).Some?
    ensures MethodOf(name) == Some(InApp) || MethodOf(name) == Some(FloatWindow) ==>
      r == Some(Notify(title, description))
    ensures MethodOf(name) == Some(Sms) && !NullOrBlank(c.phone) && c.smsGranted ==> r.value.SendSms?
    ensures MethodOf(name) == Some(Email) && !NullOrBlank(c.email) && c.mailAppFound ==> r.value.OpenMail?
    ensures MethodOf(name) == Some(Sms) || MethodOf(name) == Some(Email) ==>
      (r.value.Notify? <==>
        (if MethodOf(name) == Some(Sms) then NullOrBlank(c.phone) || !c.smsGranted
         else NullOrBlank(c.email) || !c.mailAppFound))
  {
    match MethodOf(name)
    case None => None
    case Some(InApp) => Some(Notify(title, description))
    case Some(FloatWindow) => Some(Notify(title, description))
    case Some(Sms) =>
      if NullOrBlank(c.phone) then Some(Notify("短信提醒失败", "未设置用户手机号"))
      else if c.smsGranted then Some(SendSms(c.phone.value, "任务提醒: " + title + ". 详情: " + description))
      else Some(Notify("短信权限不足", "请授予应用发送短信的权限"))
    case Some(Email) =>
      if NullOrBlank(c.email) then Some(Notify("邮件提醒失败", "未设置用户邮箱"))
      else if c.mailAppFound then
        Some(OpenMail(c.email.value, "任务提醒: " + title,
                      "您好,\n\n您有一个任务即将到期。\n\n标题: " + title + "\n详情: " + description + "\n\n请及时处理。"))
      else Some(Notify("邮件应用未找到", "无法打开邮件客户端"))
  }

  /** The names the receiver acts on, in order. */
  function KnownNames(names: seq<string>): (r: seq<string>)
    ensures forall n :: n in r <==> n in names && MethodOf(n).Some?
  {
    if |names| == 0 then []
    else if MethodOf(names[|names| - 1]).Some? then KnownNames(names[..|names| - 1]) + [names[|names| - 1]]
    else KnownNames(names[..|names| - 1])
  }

  /** The actions of a method list, in order. */
  function Dispatch(names: seq<string>, title: string, description: string, c: Contacts): seq<Action>
  {
    if |names| == 0 then []
    else
      var rest := Dispatch(names[..|names| - 1], title, description, c);
      match MethodAction(names[|names| - 1], title, description, c)
      case None => rest
      case Some(a) => rest + [a]
  }

  /** Each recognised method yields exactly one action, in list order; the
      unrecognised ones are skipped. */
  lemma {:induction false} DispatchMeaning(names: seq<string>, title: string, description: string, c: Contacts)
    ensures |Dispatch(names, title, description, c)| == |KnownNames(names)|
    ensures forall j :: 0 <= j < |KnownNames(names)| ==>
      Some(Dispatch(names, title, description, c)[j]) == MethodAction(KnownNames(names)[j], title, description, c)
  {
    if |names| > 0 {
      DispatchMeaning(names[..|names| - 1], title, description, c);
    }
  }

  /** The dispatch loop of `onReceive`. */
  method DispatchMethods(names: seq<string>, title: string, description: string, c: Contacts)
    returns (actions: seq<Action>)
    ensures actions == Dispatch(names, title, description, c)
  {
    actions := [];
    var i := 0;
    while i < |names|
      invariant 0 <= i <= |names|
      invariant actions == Dispatch(names[..i], title, description, c)
    {
      assert names[..i + 1][..i] == names[..i];
      var a := MethodAction(names[i], title, description, c);
      if a.Some? {
        actions := actions + [a.value];
      }
      i := i + 1;
    }
    assert names[..|names|] == names;
  }

  /** `getStringExtra`: a value of another type reads as null. */
  function GetStringExtra(extras: Extras, key: string): (r: Option<string>)
    ensures r.Some? <==> key in extras && extras[key].StringExtra?
  {
    if key in extras && extras[key].StringExtra? then Some(extras[key].s) else None
  }

  /** `getStringArrayListExtra`. */
  function GetListExtra(extras: Extras, key: string): Option<seq<string>>
  {
    if key in extras && extras[key].StringListExtra? then Some(extras[key].items) else None
  }

  function TitleOf(extras: Extras): string
  {
    match GetStringExtra(extras, "task_title") case Some(t) => t case None => "任务提醒"
  }

  function DescriptionOf(extras: Extras): string
  {
    match GetStringExtra(extras, "task_description") case Some(t) => t case None => "您有一个任务即将到期"
  }

  /** The method names the receiver reads; a missing list means IN_APP alone. */
  function MethodsOf(extras: Extras): seq<string>
  {
    match GetListExtra(extras, "reminder_methods") case Some(ms) => ms case None => ["IN_APP"]
  }

  /** `onReceive` as written: the task id is read as a string. */
  method OnReceive(extras: Extras, c: Contacts) returns (actions: seq<Action>)
    ensures GetStringExtra(extras, "task_id").None? ==> actions == []
    ensures GetStringExtra(extras, "task_id").Some? ==>
      actions == Dispatch(MethodsOf(extras), TitleOf(extras), DescriptionOf(extras), c)
  {
    if GetStringExtra(extras, "task_id").None? {
      return [];
    }
    actions := DispatchMethods(MethodsOf(extras), TitleOf(extras), DescriptionOf(extras), c);
  }

  /** The scheduler stores the task id as an `Int`, so the receiver as written
      finds no string under "task_id" and returns before any action, for
      every alarm the scheduler registers. */
  lemma ReceiverIgnoresScheduledAlarms(task: Task, methods: Option<seq<string>>)
    ensures GetStringExtra(ReminderExtras(task, methods), "task_id").None?
  {
  }

  /** `onReceive` reading the id with the type it was stored with. */
  method OnReceiveIntended(extras: Extras, c: Contacts) returns (actions: seq<Action>)
    ensures !("task_id" in extras && extras["task_id"].IntExtra?) ==> actions == []
    ensures "task_id" in extras && extras["task_id"].IntExtra? ==>
      actions == Dispatch(MethodsOf(extras), TitleOf(extras), DescriptionOf(extras), c)
  {
    if !("task_id" in extras && extras["task_id"].IntExtra?) {
      return [];
    }
    actions := DispatchMethods(MethodsOf(extras), TitleOf(extras), DescriptionOf(extras), c);
  }

  /** With the id read as an `Int`, an alarm of a task whose methods include
      IN_APP shows the task's title and description. */
  lemma IntendedReceiverNotifies(task: Task, rs: ReminderSettings, c: Contacts, k: nat)
    requires k < |rs.reminderMethods| && rs.reminderMethods[k] == InApp
    ensures var extras := PlanExtras(task, rs);
      Notify(task.title, task.description) in Dispatch(MethodsOf(extras), TitleOf(extras), DescriptionOf(extras), c)
  {
    var names := MethodNames(rs.reminderMethods);
    var extras := PlanExtras(task, rs);
    assert MethodsOf(extras) == names;
    assert names[k] == "IN_APP";
    assert names[k] in KnownNames(names);
    var j :| 0 <= j < |KnownNames(names)| && KnownNames(names)[j] == "IN_APP";
    DispatchMeaning(names, task.title, task.description, c);
  }
}
