/** The calendar screen: the proleptic ISO calendar of `java.time.LocalDate`
    (the date as year, month and day-of-month, its epoch-day number and day of
    week, day and month arithmetic), the header navigation, the `hasTask`
    matching of a day cell, the month and week grids, and the due-date
    highlight of the task list. */
module Calendar {
  import opened Domain
  import opened Text
  import Lists

  // ----- the ISO calendar -----

  datatype Date = Date(year: int, month: int, day: int)

  /** `Year.isLeap`: divisible by 4, and not by 100 unless by 400. */
  predicate IsLeapYear(y: int)
  {
    y % 4 == 0 && (y % 100 != 0 || y % 400 == 0)
  }

  /** `Month.length`. */
  function DaysInMonth(y: int, m: int): (r: int)
    ensures 28 <= r <= 31
  {
    if m == 2 then (if IsLeapYear(y) then 29 else 28)
    else if m == 4 || m == 6 || m == 9 || m == 11 then 30
    else 31
  }

  /** The dates `LocalDate.of` accepts (the year range is not bounded here). */
  predicate Valid(d: Date)
  {
    1 <= d.month <= 12 && 1 <= d.day <= DaysInMonth(d.year, d.month)
  }

  /** `toEpochDay`: days since 1970-01-01, by the closed form of the library;
      its truncating divisions of a negative year are written on `-y`. */
  function EpochDay(d: Date): int
  {
    var y := d.year;
    var m := d.month;
    var leapDays := if y >= 0 then (y + 3) / 4 - (y + 99) / 100 + (y + 399) / 400
                    else -((-y) / 4 - (-y) / 100 + (-y) / 400);
    var total := 365 * y + leapDays + (367 * m - 362) / 12 + d.day - 1;
    var marchOn := if m > 2 then (if IsLeapYear(y) then total - 1 else total - 2) else total;
    marchOn - 719_528
  }

  /** `getDayOfWeek().getValue()`: Monday is 1 and Sunday is 7. */
  function DayOfWeek(d: Date): (r: int)
    ensures 1 <= r <= 7
  {
    (EpochDay(d) + 3) % 7 + 1
  }

  const SUNDAY: int := 7

  function NextDay(d: Date): (r: Date)
    requires Valid(d)
    ensures Valid(r)
  {
    if d.day < DaysInMonth(d.year, d.month) then d.(day := d.day + 1)
    else if d.month < 12 then Date(d.year, d.month + 1, 1)
    else Date(d.year + 1, 1, 1)
  }

  function PrevDay(d: Date): (r: Date)
    requires Valid(d)
    ensures Valid(r)
  {
    if d.day > 1 then d.(day := d.day - 1)
    else if d.month > 1 then Date(d.year, d.month - 1, DaysInMonth(d.year, d.month - 1))
    else Date(d.year - 1, 12, 31)
  }

  lemma NextPrev(d: Date)
    requires Valid(d)
    ensures PrevDay(NextDay(d)) == d && NextDay(PrevDay(d)) == d
  {
  }

  /** `plusDays`: `n` steps forward, or `-n` steps back. */
  function PlusDays(d: Date, n: int): (r: Date)
    requires Valid(d)
    ensures Valid(r)
    decreases if n >= 0 then n else -n
  {
    if n == 0 then d
    else if n > 0 then PlusDays(NextDay(d), n - 1)
    else PlusDays(PrevDay(d), n + 1)
  }

  // The number of leap years before year `y` that the closed form counts.
  function LeapDays(y: int): int
  {
    if y >= 0 then (y + 3) / 4 - (y + 99) / 100 + (y + 399) / 400
    else -((-y) / 4 - (-y) / 100 + (-y) / 400)
  }

  // The days of year `y` before the first of month `m`.
  function MonthStart(y: int, m: int): int
  {
    (367 * m - 362) / 12 - (if m > 2 then (if IsLeapYear(y) then 1 else 2) else 0)
  }

  // One more year adds one to each count of multiples it passes.
  lemma CountSteps(y: nat)
    ensures (y + 4) / 4 - (y + 3) / 4 == if y % 4 == 0 then 1 else 0
    ensures (y + 100) / 100 - (y + 99) / 100 == if y % 100 == 0 then 1 else 0
    ensures (y + 400) / 400 - (y + 399) / 400 == if y % 400 == 0 then 1 else 0
  {
    assert (y + 4) / 4 == y / 4 + 1;
    assert (y + 100) / 100 == y / 100 + 1;
    assert (y + 400) / 400 == y / 400 + 1;
  }

  lemma NegativeCountSteps(b: nat)
    requires b > 1
    ensures b / 4 - (b - 1) / 4 == if b % 4 == 0 then 1 else 0
    ensures b / 100 - (b - 1) / 100 == if b % 100 == 0 then 1 else 0
    ensures b / 400 - (b - 1) / 400 == if b % 400 == 0 then 1 else 0
  {
  }

  lemma DividesNegation(y: int)
    ensures y % 4 == 0 <==> (-y) % 4 == 0
    ensures y % 100 == 0 <==> (-y) % 100 == 0
    ensures y % 400 == 0 <==> (-y) % 400 == 0
  {
    NegatedMultiple4(y);
    NegatedMultiple4(-y);
    NegatedMultiple100(y);
    NegatedMultiple100(-y);
    NegatedMultiple400(y);
    NegatedMultiple400(-y);
  }

  lemma NegatedMultiple4(y: int)
    ensures y % 4 == 0 ==> (-y) % 4 == 0
  {
    if y % 4 == 0 {
      var q := y / 4;
      assert -y == 4 * (-q);
    }
  }

  lemma NegatedMultiple100(y: int)
    ensures y % 100 == 0 ==> (-y) % 100 == 0
  {
    if y % 100 == 0 {
      var q := y / 100;
      assert -y == 100 * (-q);
    }
  }

  lemma NegatedMultiple400(y: int)
    ensures y % 400 == 0 ==> (-y) % 400 == 0
  {
    if y % 400 == 0 {
      var q := y / 400;
      assert -y == 400 * (-q);
    }
  }

  lemma DivisorsOfCenturies(y: int)
    ensures y % 100 == 0 ==> y % 4 == 0
    ensures y % 400 == 0 ==> y % 100 == 0
  {
    if y % 100 == 0 { assert y == 4 * (25 * (y / 100)); }
    if y % 400 == 0 { assert y == 100 * (4 * (y / 400)); }
  }

  lemma LeapDaysStepNonNegative(y: int)
    requires y >= 0
    ensures LeapDays(y + 1) - LeapDays(y) == if IsLeapYear(y) then 1 else 0
  {
    CountSteps(y);
    DivisorsOfCenturies(y);
  }

  lemma LeapDaysStepNegative(y: int)
    requires y < 0
    ensures LeapDays(y + 1) - LeapDays(y) == if IsLeapYear(y) then 1 else 0
  {
    var b := -y;
    DividesNegation(y);
    DivisorsOfCenturies(b);
    if y < -1 {
      NegativeCountSteps(b);
      assert LeapDays(y) == -(b / 4 - b / 100 + b / 400);
      assert LeapDays(y + 1) == -((b - 1) / 4 - (b - 1) / 100 + (b - 1) / 400);
      assert IsLeapYear(y) <==> b % 4 == 0 && (b % 100 != 0 || b % 400 == 0);
    } else {
      assert LeapDays(y) == 0 && LeapDays(y + 1) == 0;
    }
  }

  /** Each year adds one leap day to the count exactly when it is a leap year. */
  lemma LeapDaysStep(y: int)
    ensures LeapDays(y + 1) - LeapDays(y) == if IsLeapYear(y) then 1 else 0
  {
    if y >= 0 {
      LeapDaysStepNonNegative(y);
    } else {
      LeapDaysStepNegative(y);
    }
  }

  /** Each month starts where the previous one ends, and the year has 365
      days plus its leap day. */
  lemma MonthStartStep(y: int, m: int)
    requires 1 <= m <= 12
    ensures m < 12 ==> MonthStart(y, m + 1) == MonthStart(y, m) + DaysInMonth(y, m)
    ensures m == 12 ==> MonthStart(y, 12) + 31 == 365 + (if IsLeapYear(y) then 1 else 0)
    ensures MonthStart(y, 1) == 0
  {
    if m == 1 {} else if m == 2 {} else if m == 3 {} else if m == 4 {} else if m == 5 {} else if m == 6 {}
    else if m == 7 {} else if m == 8 {} else if m == 9 {} else if m == 10 {} else if m == 11 {} else {}
  }

  lemma EpochDayUsesLeapDays(d: Date)
    ensures EpochDay(d) ==
      365 * d.year + LeapDays(d.year) + MonthStart(d.year, d.month) + d.day - 1 - 719_528
  {
  }

  /** The next day is one epoch day later: the stepping arithmetic agrees
      with the library's closed form. */
  lemma EpochDayNext(d: Date)
    requires Valid(d)
    ensures EpochDay(NextDay(d)) == EpochDay(d) + 1
  {
    EpochDayUsesLeapDays(d);
    EpochDayUsesLeapDays(NextDay(d));
    if d.day == DaysInMonth(d.year, d.month) {
      MonthStartStep(d.year, d.month);
      if d.month == 12 {
        LeapDaysStep(d.year);
        MonthStartStep(d.year + 1, 1);
      }
    }
  }

  lemma EpochDayPrev(d: Date)
    requires Valid(d)
    ensures EpochDay(PrevDay(d)) == EpochDay(d) - 1
  {
    NextPrev(d);
    EpochDayNext(PrevDay(d));
  }

  /** `plusDays(n)` moves the epoch day by exactly `n`, as the library's
      `ofEpochDay(toEpochDay() + n)` does. */
  lemma {:induction false} EpochDayPlus(d: Date, n: int)
    requires Valid(d)
    ensures EpochDay(PlusDays(d, n)) == EpochDay(d) + n
  {
    if n >= 0 {
      EpochDayForward(d, n);
    } else {
      EpochDayBackward(d, -n);
    }
  }

  lemma {:induction false} EpochDayForward(d: Date, n: nat)
    requires Valid(d)
    ensures EpochDay(PlusDays(d, n)) == EpochDay(d) + n
    decreases n
  {
    if n > 0 {
      EpochDayNext(d);
      EpochDayForward(NextDay(d), n - 1);
    }
  }

  lemma {:induction false} EpochDayBackward(d: Date, n: nat)
    requires Valid(d)
    ensures EpochDay(PlusDays(d, -(n as int))) == EpochDay(d) - n
    decreases n
  {
    if n > 0 {
      EpochDayPrev(d);
      EpochDayBackward(PrevDay(d), n - 1);
    }
  }

  lemma {:induction false} PlusDaysAfterNext(d: Date, n: int)
    requires Valid(d)
    ensures PlusDays(NextDay(d), n - 1) == PlusDays(d, n)
  {
    if n <= 0 {
      NextPrev(d);
    }
  }

  lemma {:induction false} PlusDaysAfterPrev(d: Date, n: int)
    requires Valid(d)
    ensures PlusDays(PrevDay(d), n + 1) == PlusDays(d, n)
  {
    if n >= 0 {
      NextPrev(d);
    }
  }

  /** Day steps compose: `plusDays(a).plusDays(b) == plusDays(a + b)`. */
  lemma {:induction false} PlusDaysAdd(d: Date, a: int, b: int)
    requires Valid(d)
    ensures PlusDays(PlusDays(d, a), b) == PlusDays(d, a + b)
    decreases if a >= 0 then a else -a
  {
    if a > 0 {
      PlusDaysAdd(NextDay(d), a - 1, b);
      PlusDaysAfterNext(d, a + b);
    } else if a < 0 {
      PlusDaysAdd(PrevDay(d), a + 1, b);
      PlusDaysAfterPrev(d, a + b);
    }
  }

  /** Within a month, `plusDays` only advances the day of the month. */
  lemma {:induction false} PlusDaysInMonth(d: Date, n: nat)
    requires Valid(d) && d.day + n <= DaysInMonth(d.year, d.month)
    ensures PlusDays(d, n) == d.(day := d.day + n)
    decreases n
  {
    if n > 0 {
      PlusDaysInMonth(NextDay(d), n - 1);
    }
  }

  /** `plusMonths`: the month moves by `n` (the year by floor division), and a
      day past the end of the new month is clamped to its last day. */
  function PlusMonths(d: Date, n: int): (r: Date)
    requires Valid(d)
    ensures Valid(r)
    ensures r.year * 12 + r.month - 1 == d.year * 12 + d.month - 1 + n
    ensures r.day == if d.day <= DaysInMonth(r.year, r.month) then d.day else DaysInMonth(r.year, r.month)
  {
    var count := d.year * 12 + d.month - 1 + n;
    var y, m := count / 12, count % 12 + 1;
    var dim := DaysInMonth(y, m);
    Date(y, m, if d.day <= dim then d.day else dim)
  }

  /** Moving by months and back restores any day up to the 28th; later days
      can be clamped on the way (January 31 plus one month is February 28 or
      29). */
  lemma MonthsThereAndBack(d: Date, n: int)
    requires Valid(d) && d.day <= 28
    ensures PlusMonths(PlusMonths(d, n), -n) == d
  {
  }

  lemma ClampedAtMonthEnd()
    ensures PlusMonths(Date(2025, 1, 31), 1) == Date(2025, 2, 28)
    ensures PlusMonths(Date(2024, 1, 31), 1) == Date(2024, 2, 29)
    ensures PlusMonths(PlusMonths(Date(2025, 1, 31), 1), -1) == Date(2025, 1, 28)
  {
  }

  // ----- navigation -----

  datatype ViewMode = DayMode | WeekMode | MonthMode

  datatype Period = Months | Weeks | Days | OtherPeriod

  /** The header's arrows navigate by the unit of the view mode. */
  function NavigationPeriod(mode: ViewMode): Period
  {
    match mode
    case MonthMode => Months
    case WeekMode => Weeks
    case DayMode => Days
  }

  /** `onNavigate`: the new selected date. */
  function Navigate(selected: Date, period: Period, amount: int): (r: Date)
    requires Valid(selected)
    ensures Valid(r)
  {
    match period
    case Months => PlusMonths(selected, amount)
    case Weeks => PlusDays(selected, 7 * amount)
    case Days => PlusDays(selected, amount)
    case OtherPeriod => selected
  }

  /** Navigation by days and weeks moves the epoch day by `amount` and
      `7 * amount`, an arrow press and the opposite press cancel out, and a
      unit other than the three leaves the date where it is. */
  lemma NavigateMeaning(selected: Date, amount: int)
    requires Valid(selected)
    ensures EpochDay(Navigate(selected, Days, amount)) == EpochDay(selected) + amount
    ensures EpochDay(Navigate(selected, Weeks, amount)) == EpochDay(selected) + 7 * amount
    ensures Navigate(Navigate(selected, Days, amount), Days, -amount) == selected
    ensures Navigate(Navigate(selected, Weeks, amount), Weeks, -amount) == selected
    ensures Navigate(selected, OtherPeriod, amount) == selected
  {
    EpochDayPlus(selected, amount);
    EpochDayPlus(selected, 7 * amount);
    PlusDaysAdd(selected, amount, -amount);
    PlusDaysAdd(selected, 7 * amount, -7 * amount);
  }

  // ----- ISO_LOCAL_DATE and `hasTask` -----

  function Digits2(n: int): (s: string)
    requires 0 <= n <= 99
    ensures |s| == 2 && IsAsciiDigit(s[0]) && IsAsciiDigit(s[1]) && IsDigit(s[0]) && IsDigit(s[1])
    ensures DigitValue(s[0]) * 10 + DigitValue(s[1]) == n
  {
    [DigitChar(n / 10), DigitChar(n % 10)]
  }

  function Digits4(n: int): (s: string)
    requires 0 <= n <= 9999
    ensures |s| == 4 && IsDigit(s[0]) && IsDigit(s[1]) && IsDigit(s[2]) && IsDigit(s[3])
    ensures forall i :: 0 <= i < 4 ==> IsAsciiDigit(s[i])
    ensures DigitValue(s[0]) * 1000 + DigitValue(s[1]) * 100 + DigitValue(s[2]) * 10 + DigitValue(s[3]) == n
  {
    var hi := Digits2(n / 100);
    var lo := Digits2(n % 100);
    assert n == 100 * (n / 100) + n % 100;
    hi + lo
  }

  /** The year field of `ISO_LOCAL_DATE`: at least four digits, a minus sign
      before a negative year and a plus sign before a year past 9999. */
  function YearText(y: int): string
  {
    if 0 <= y <= 9999 then Digits4(y)
    else if y > 9999 then "+" + ShowNat(y)
    else if y >= -9999 then "-" + Digits4(-y)
    else "-" + ShowNat(-y)
  }

  /** `date.format(ISO_LOCAL_DATE)`. */
  function IsoDate(d: Date): (s: string)
    requires Valid(d)
    ensures 0 <= d.year <= 9999 ==> |s| == 10
  {
    YearText(d.year) + "-" + Digits2(d.month) + "-" + Digits2(d.day)
  }

  /** Different dates of years 0 to 9999 are written differently. */
  lemma IsoDateInjective(d1: Date, d2: Date)
    requires Valid(d1) && Valid(d2) && 0 <= d1.year <= 9999 && 0 <= d2.year <= 9999
    requires IsoDate(d1) == IsoDate(d2)
    ensures d1 == d2
  {
    var s, t := IsoDate(d1), IsoDate(d2);
    var y1, y2 := Digits4(d1.year), Digits4(d2.year);
    assert s[..4] == y1 && t[..4] == y2;
    assert Digits2(d1.month) == s[5..7] && Digits2(d2.month) == t[5..7];
    assert Digits2(d1.day) == s[8..10] && Digits2(d2.day) == t[8..10];
  }

  /** `tasks.any { it.dueDate.startsWith(date.format(ISO_LOCAL_DATE)) }`. */
  predicate HasTask(tasks: seq<Task>, date: Date)
    requires Valid(date)
  {
    exists t :: t in tasks && StartsWith(t.dueDate, IsoDate(date))
  }

  /** A due date marks at most one day of years 0 to 9999: the day whose ISO
      text it starts with. */
  lemma DueDateMarksOneDay(dueDate: string, d1: Date, d2: Date)
    requires Valid(d1) && Valid(d2) && 0 <= d1.year <= 9999 && 0 <= d2.year <= 9999
    requires StartsWith(dueDate, IsoDate(d1)) && StartsWith(dueDate, IsoDate(d2))
    ensures d1 == d2
  {
    assert IsoDate(d1) == dueDate[..10] == IsoDate(d2);
    IsoDateInjective(d1, d2);
  }

  /** A task due on `d` (its due date is `d` in ISO form, perhaps followed by
      a time) marks day `d` and no other day of years 0 to 9999. */
  lemma DayCellMarksDueDay(t: Task, d: Date, suffix: string, other: Date)
    requires Valid(d) && Valid(other) && 0 <= d.year <= 9999 && 0 <= other.year <= 9999
    requires t.dueDate == IsoDate(d) + suffix
    ensures HasTask([t], d)
    ensures HasTask([t], other) <==> other == d
  {
    assert t.dueDate[..|IsoDate(d)|] == IsoDate(d);
    if HasTask([t], other) {
      DueDateMarksOneDay(t.dueDate, d, other);
    }
  }

  /** The day view's list: `tasks.filter { it.dueDate.startsWith(...) }`. */
  function TasksForDay(tasks: seq<Task>, date: Date): (r: seq<Task>)
    requires Valid(date)
    ensures forall t :: t in r <==> t in tasks && StartsWith(t.dueDate, IsoDate(date))
    ensures |r| > 0 <==> HasTask(tasks, date)
  {
    var iso := IsoDate(date);
    var r := Lists.Filter(tasks, (t: Task) => StartsWith(t.dueDate, iso));
    assert |r| > 0 ==> r[0] in r;
    r
  }

  // ----- the month and week grids -----

  /** `date.with(dayOfWeek)`: the day with that day of week in the same
      Monday-to-Sunday week. */
  function WithDayOfWeek(d: Date, dow: int): Date
    requires Valid(d) && 1 <= dow <= 7
  {
    PlusDays(d, dow - DayOfWeek(d))
  }

  /** `date.with(weekFields.dayOfWeek(), 1)` for a week that starts on
      `weekStart`: the last `weekStart` day on or before `d`. */
  function WeekStart(d: Date, weekStart: int): Date
    requires Valid(d) && 1 <= weekStart <= 7
  {
    PlusDays(d, -((DayOfWeek(d) - weekStart) % 7))
  }

  function FirstOfMonth(d: Date): (r: Date)
    requires Valid(d)
    ensures Valid(r)
  {
    Date(d.year, d.month, 1)
  }

  /** The month view's `firstDayOfFirstWeek`: the first of the month moved
      with `with(firstDayOfWeek)` inside its Monday-to-Sunday week. */
  function MonthGridStart(selected: Date, weekStart: int): Date
    requires Valid(selected) && 1 <= weekStart <= 7
  {
    WithDayOfWeek(FirstOfMonth(selected), weekStart)
  }

  /** The start the Sunday-first header calls for: the Sunday on or before the
      first of the month. */
  function IntendedMonthGridStart(selected: Date): Date
    requires Valid(selected)
  {
    WeekStart(FirstOfMonth(selected), SUNDAY)
  }

  /** What a day cell shows. */
  datatype Cell = Cell(date: Date, isCurrentMonth: bool, hasTask: bool, isToday: bool)

  function CellOf(date: Date, selected: Date, tasks: seq<Task>, today: Date): Cell
    requires Valid(date)
  {
    Cell(date, date.year == selected.year && date.month == selected.month, HasTask(tasks, date), date == today)
  }

  /** The cells of `n` consecutive days from `start`. */
  function GridCells(start: Date, n: nat, selected: Date, tasks: seq<Task>, today: Date): (r: seq<Cell>)
    requires Valid(start)
    ensures |r| == n
  {
    if n == 0 then [] else GridCells(start, n - 1, selected, tasks, today) + [CellOf(PlusDays(start, n - 1), selected, tasks, today)]
  }

  lemma PlusDaysSucc(d: Date, n: int)
    requires Valid(d)
    ensures PlusDays(d, n + 1) == NextDay(PlusDays(d, n))
  {
    PlusDaysAdd(d, n, 1);
  }

  lemma {:induction false} GridCellsAt(start: Date, n: nat, selected: Date, tasks: seq<Task>, today: Date, i: int)
    requires Valid(start) && 0 <= i < n
    ensures GridCells(start, n, selected, tasks, today)[i] == CellOf(PlusDays(start, i), selected, tasks, today)
  {
    if i < n - 1 {
      GridCellsAt(start, n - 1, selected, tasks, today, i);
    }
  }

  /** The month view's nested `repeat(6) { repeat(7) { ... } }`: 42 cells, one
      day after another from `firstDayOfFirstWeek`. */
  method MonthGrid(selected: Date, weekStart: int, tasks: seq<Task>, today: Date) returns (cells: seq<Cell>)
    requires Valid(selected) && 1 <= weekStart <= 7
    ensures cells == GridCells(MonthGridStart(selected, weekStart), 42, selected, tasks, today)
  {
    var start := MonthGridStart(selected, weekStart);
    var currentDate := start;
    cells := [];
    var row := 0;
    while row < 6
      invariant 0 <= row <= 6 && |cells| == 7 * row
      invariant currentDate == PlusDays(start, |cells|)
      invariant cells == GridCells(start, |cells|, selected, tasks, today)
    {
      var col := 0;
      while col < 7
        invariant 0 <= col <= 7 && |cells| == 7 * row + col
        invariant currentDate == PlusDays(start, |cells|)
        invariant cells == GridCells(start, |cells|, selected, tasks, today)
      {
        ghost var k := |cells|;
        var date := currentDate;
        var hasTask := HasTask(tasks, date);
        var isCurrentMonth := date.year == selected.year && date.month == selected.month;
        var cell := Cell(date, isCurrentMonth, hasTask, date == today);
        assert cell == CellOf(PlusDays(start, k), selected, tasks, today);
        cells := cells + [cell];
        assert cells == GridCells(start, k + 1, selected, tasks, today);
        PlusDaysSucc(start, k);
        currentDate := NextDay(currentDate);
        col := col + 1;
      }
      row := row + 1;
    }
  }

  /** The grid's days are consecutive: cell `i` is `i` days after the first. */
  lemma GridIsConsecutive(start: Date, selected: Date, tasks: seq<Task>, today: Date, i: int)
    requires Valid(start) && 0 <= i < 42
    ensures EpochDay(GridCells(start, 42, selected, tasks, today)[i].date) == EpochDay(start) + i
  {
    GridCellsAt(start, 42, selected, tasks, today, i);
    EpochDayPlus(start, i);
  }

  /** October 1st, 2025 is a Wednesday. */
  lemma FirstOfOctober2025()
    ensures Valid(Date(2025, 10, 1)) && DayOfWeek(Date(2025, 10, 1)) == 3
  {
  }

  /** As written, with a Sunday-first locale the month grid starts on the
      Sunday AFTER the first of the month whenever the first is not a Sunday,
      so the month's first days are missing from the grid (October 2025 starts
      at the 5th). */
  lemma MonthGridSkipsFirstDays(selected: Date, tasks: seq<Task>, today: Date)
    requires Valid(selected) && DayOfWeek(FirstOfMonth(selected)) != SUNDAY
    ensures var cells := GridCells(MonthGridStart(selected, SUNDAY), 42, selected, tasks, today);
      forall i :: 0 <= i < 42 ==> cells[i].date != FirstOfMonth(selected)
  {
    var first := FirstOfMonth(selected);
    var start := MonthGridStart(selected, SUNDAY);
    EpochDayPlus(first, SUNDAY - DayOfWeek(first));
    forall i | 0 <= i < 42
      ensures GridCells(start, 42, selected, tasks, today)[i].date != first
    {
      GridCellsAt(start, 42, selected, tasks, today, i);
      EpochDayPlus(start, i);
    }
  }

  lemma ModSevenShift(a: int, n: int)
    ensures (a + n) % 7 == (a % 7 + n) % 7
  {
    assert a == 7 * (a / 7) + a % 7;
    assert a + n == 7 * (a / 7) + (a % 7 + n);
  }

  /** Moving `n` days moves the day of week `n` places round the week. */
  lemma DayOfWeekPlus(d: Date, n: int)
    requires Valid(d)
    ensures DayOfWeek(PlusDays(d, n)) == (DayOfWeek(d) - 1 + n) % 7 + 1
  {
    EpochDayPlus(d, n);
    ModSevenShift(EpochDay(d) + 3, n);
  }

  /** The week's start has the week's first day of week, and the date lies
      `(DayOfWeek(d) - weekStart) % 7` days after it. */
  lemma WeekStartArith(dow: int, weekStart: int)
    requires 1 <= dow <= 7 && 1 <= weekStart <= 7
    ensures (dow - 1 - (dow - weekStart) % 7) % 7 + 1 == weekStart
  {
  }

  lemma WeekStartFacts(d: Date, weekStart: int)
    requires Valid(d) && 1 <= weekStart <= 7
    ensures var k := (DayOfWeek(d) - weekStart) % 7;
      DayOfWeek(WeekStart(d, weekStart)) == weekStart &&
      PlusDays(WeekStart(d, weekStart), k) == d
  {
    WeekStartDay(d, weekStart);
    WeekStartBack(d, weekStart);
  }

  lemma WeekStartDay(d: Date, weekStart: int)
    requires Valid(d) && 1 <= weekStart <= 7
    ensures DayOfWeek(WeekStart(d, weekStart)) == weekStart
  {
    var k := (DayOfWeek(d) - weekStart) % 7;
    DayOfWeekPlus(d, -k);
    WeekStartArith(DayOfWeek(d), weekStart);
  }

  lemma WeekStartBack(d: Date, weekStart: int)
    requires Valid(d) && 1 <= weekStart <= 7
    ensures PlusDays(WeekStart(d, weekStart), (DayOfWeek(d) - weekStart) % 7) == d
  {
    PlusDaysBack(d, (DayOfWeek(d) - weekStart) % 7);
  }

  lemma PlusDaysBack(d: Date, k: int)
    requires Valid(d)
    ensures PlusDays(PlusDays(d, -k), k) == d
  {
    PlusDaysAdd(d, -k, k);
  }

  /** The corrected grid holds every day of the selected month, day `j` in
      cell `k + j - 1` where `k` is the first's column. */
  lemma IntendedMonthGridCoversMonth(selected: Date, tasks: seq<Task>, today: Date, j: int)
    requires Valid(selected) && 1 <= j <= DaysInMonth(selected.year, selected.month)
    ensures var cells := GridCells(IntendedMonthGridStart(selected), 42, selected, tasks, today);
      var k := (DayOfWeek(FirstOfMonth(selected)) - SUNDAY) % 7;
      k + j - 1 < 42 &&
      cells[k + j - 1] == CellOf(Date(selected.year, selected.month, j), selected, tasks, today)
  {
    var k := (DayOfWeek(FirstOfMonth(selected)) - SUNDAY) % 7;
    DayInIntendedGrid(selected, j);
    GridCellsAt(IntendedMonthGridStart(selected), 42, selected, tasks, today, k + j - 1);
  }

  /** Day `j` of the month lies `k + j - 1` days after the corrected grid's
      first cell, `k` being the first day's column. */
  lemma DayInIntendedGrid(selected: Date, j: int)
    requires Valid(selected) && 1 <= j <= DaysInMonth(selected.year, selected.month)
    ensures var k := (DayOfWeek(FirstOfMonth(selected)) - SUNDAY) % 7;
      0 <= k < 7 && PlusDays(IntendedMonthGridStart(selected), k + j - 1) == Date(selected.year, selected.month, j)
  {
    var first := FirstOfMonth(selected);
    var k := (DayOfWeek(first) - SUNDAY) % 7;
    var start := IntendedMonthGridStart(selected);
    WeekStartFacts(first, SUNDAY);
    PlusDaysInMonth(first, j - 1);
    DaysChain(start, first, Date(selected.year, selected.month, j), k, j - 1);
  }

  /** Counting `a` days and then `b` more counts `a + b` days. */
  lemma DaysChain(start: Date, mid: Date, end: Date, a: int, b: int)
    requires Valid(start) && Valid(mid)
    requires PlusDays(start, a) == mid && PlusDays(mid, b) == end
    ensures PlusDays(start, a + b) == end
  {
    PlusDaysAdd(start, a, b);
  }

  /** Every column of the corrected grid holds the weekday of its header
      (日 一 二 三 四 五 六: Sunday first). */
  lemma IntendedMonthGridColumns(selected: Date, tasks: seq<Task>, today: Date, i: int)
    requires Valid(selected) && 0 <= i < 42
    ensures var cells := GridCells(IntendedMonthGridStart(selected), 42, selected, tasks, today);
      DayOfWeek(cells[i].date) == (if i % 7 == 0 then SUNDAY else i % 7)
  {
    var start := IntendedMonthGridStart(selected);
    WeekStartFacts(FirstOfMonth(selected), SUNDAY);
    GridCellsAt(start, 42, selected, tasks, today, i);
    DayOfWeekPlus(start, i);
    ColumnArith(i);
  }

  lemma ColumnArith(i: int)
    requires 0 <= i < 42
    ensures (SUNDAY - 1 + i) % 7 + 1 == (if i % 7 == 0 then SUNDAY else i % 7)
  {
  }

  /** The week view: the seven days from the week's start. */
  function WeekDays(selected: Date, weekStart: int): (r: seq<Date>)
    requires Valid(selected) && 1 <= weekStart <= 7
    ensures |r| == 7
  {
    var first := WeekStart(selected, weekStart);
    seq(7, i requires 0 <= i < 7 => PlusDays(first, i))
  }

  /** The week view starts on the locale's first day of the week and shows
      the selected date in the column of its weekday. */
  lemma WeekViewShowsSelected(selected: Date, weekStart: int)
    requires Valid(selected) && 1 <= weekStart <= 7
    ensures var k := (DayOfWeek(selected) - weekStart) % 7;
      WeekDays(selected, weekStart)[k] == selected &&
      DayOfWeek(WeekDays(selected, weekStart)[0]) == weekStart
  {
    WeekStartFacts(selected, weekStart);
    PlusDaysAdd(WeekStart(selected, weekStart), 0, 0);
  }

  // ----- the due-date highlight -----

  /** `getHighlightColor`, as which of its three colours it returns. */
  datatype Highlight = ImminentColor | DefaultColor | OverdueColor

  /** How many days ahead counts as imminent in each view. */
  function ImminenceWindow(mode: ViewMode): int
  {
    match mode
    case DayMode => 3
    case WeekMode => 2 * 7
    case MonthMode => 30
  }

  /** `parseDate` gives the epoch day of a due date that parses as an ISO
      date; `today` is today's epoch day. */
  function HighlightOf(dueDate: string, mode: ViewMode, today: int, parseDate: string -> Option<int>): Highlight
  {
    match parseDate(dueDate)
    case None => DefaultColor
    case Some(due) =>
      var daysUntilDue := due - today;
      if daysUntilDue < 0 then OverdueColor
      else if 0 <= daysUntilDue <= ImminenceWindow(mode) then ImminentColor
      else DefaultColor
  }

  /** The colour table: an unparseable date is plain, a past date overdue,
      and a date within the view's window (today included) imminent. */
  lemma HighlightTable(dueDate: string, mode: ViewMode, today: int, parseDate: string -> Option<int>)
    ensures HighlightOf(dueDate, mode, today, parseDate) == OverdueColor <==>
      parseDate(dueDate).Some? && parseDate(dueDate).value < today
    ensures HighlightOf(dueDate, mode, today, parseDate) == ImminentColor <==>
      parseDate(dueDate).Some? && today <= parseDate(dueDate).value <= today + ImminenceWindow(mode)
  {
  }

  /** A wider view never makes a task less urgent: imminent in the day view
      implies imminent in the week view, which implies imminent in the month
      view; the overdue colour does not depend on the view. */
  lemma ImminenceWidensWithView(dueDate: string, today: int, parseDate: string -> Option<int>)
    ensures HighlightOf(dueDate, DayMode, today, parseDate) == ImminentColor ==>
      HighlightOf(dueDate, WeekMode, today, parseDate) == ImminentColor
    ensures HighlightOf(dueDate, WeekMode, today, parseDate) == ImminentColor ==>
      HighlightOf(dueDate, MonthMode, today, parseDate) == ImminentColor
    ensures (HighlightOf(dueDate, DayMode, today, parseDate) == OverdueColor) ==
      (HighlightOf(dueDate, MonthMode, today, parseDate) == OverdueColor)
  {
  }

  /** The calendar's task list: the tasks not yet done, in order. */
  function CalendarTaskList(tasks: seq<Task>): (r: seq<Task>)
    ensures forall t :: t in r <==> t in tasks && t.status != Done
    ensures Lists.IsSubsequence(r, tasks)
  {
    Lists.FilterIsSubsequence(tasks, (t: Task) => t.status != Done);
    Lists.Filter(tasks, (t: Task) => t.status != Done)
  }
}
