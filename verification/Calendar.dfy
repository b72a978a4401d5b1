/**
  From date fields to an instant: partsToTime of internal/news_articles/rails_time.go,
  over the proleptic Gregorian calendar of the Go time package.
 */
module Calendar {
  import opened Wrappers

  predicate IsLeap(year: int) { year % 4 == 0 && (year % 100 != 0 || year % 400 == 0) }

  function DaysInYear(year: int): int { if IsLeap(year) then 366 else 365 }

  function DaysInMonth(year: int, month: int): int
  {
    if month == 2 then (if IsLeap(year) then 29 else 28)
    else if month in {4, 6, 9, 11} then 30
    else 31
  }

  /** Days from the start of the year to the start of the month. */
  function DaysBeforeMonth(year: int, month: int): int
  {
    var leap := if IsLeap(year) then 1 else 0;
    match month
    case 1 => 0
    case 2 => 31
    case 3 => 59 + leap
    case 4 => 90 + leap
    case 5 => 120 + leap
    case 6 => 151 + leap
    case 7 => 181 + leap
    case 8 => 212 + leap
    case 9 => 243 + leap
    case 10 => 273 + leap
    case 11 => 304 + leap
    case _ => 334 + leap
  }

  /** Days from 1 January 1970 to 1 January of the year. */
  function YearStart(year: int): int
  {
    var y := year - 1;
    365 * y + y / 4 - y / 100 + y / 400 - 719162
  }

  /** The day count of a date; the day may run past the end of its month. */
  function DayNumber(year: int, month: int, day: int): int
  {
    YearStart(year) + DaysBeforeMonth(year, month) + day - 1
  }

  datatype Date = Date(year: int, month: int, day: int)

  predicate ValidDate(d: Date)
  {
    1 <= d.month <= 12 && 1 <= d.day <= DaysInMonth(d.year, d.month)
  }

  /** The next day by the rules of the calendar. */
  function NextDate(d: Date): Date
  {
    if d.day < DaysInMonth(d.year, d.month) then Date(d.year, d.month, d.day + 1)
    else if d.month < 12 then Date(d.year, d.month + 1, 1)
    else Date(d.year + 1, 1, 1)
  }

  /** A quotient goes up by one at each multiple. */
  lemma Quotients(year: int)
    ensures year / 4 - (year - 1) / 4 == if year % 4 == 0 then 1 else 0
    ensures year / 100 - (year - 1) / 100 == if year % 100 == 0 then 1 else 0
  {
  }

  lemma QuotientOf400(year: int)
    ensures year / 400 - (year - 1) / 400 == if year % 400 == 0 then 1 else 0
  {
  }

  lemma YearLength(year: int)
    ensures YearStart(year + 1) == YearStart(year) + DaysInYear(year)
  {
    Quotients(year);
    QuotientOf400(year);
    LeapQuotients(year);
  }

  lemma LeapQuotients(year: int)
    ensures DaysInYear(year) ==
            365 + (if year % 4 == 0 then 1 else 0) - (if year % 100 == 0 then 1 else 0) + (if year % 400 == 0 then 1 else 0)
  {
  }

  lemma MonthLength(year: int, month: int)
    requires 1 <= month <= 12
    ensures DaysBeforeMonth(year, month) + DaysInMonth(year, month) ==
            if month < 12 then DaysBeforeMonth(year, month + 1) else DaysInYear(year)
  {
  }

  /** The count is the calendar: it starts at the epoch and goes up by one a day. */
  lemma CountsDays(d: Date)
    requires ValidDate(d)
    ensures DayNumber(1970, 1, 1) == 0
    ensures ValidDate(NextDate(d))
    ensures DayNumber(NextDate(d).year, NextDate(d).month, NextDate(d).day) ==
            DayNumber(d.year, d.month, d.day) + 1
  {
    YearLength(d.year);
    MonthLength(d.year, d.month);
    hide YearStart;
  }

  // ----- The date of a day count -----

  function YearFrom(n: int, year: int): int
    requires YearStart(year) <= n
    decreases n - YearStart(year)
  {
    YearLength(year);
    if n < YearStart(year + 1) then year else YearFrom(n, year + 1)
  }

  /** First year of the 400-year cycle that day n lies in. */
  function CycleYear(n: int): (year: int)
    ensures YearStart(year) <= n
  {
    var cycle := (n + 719162) / 146097;
    CycleStart(cycle);
    400 * cycle + 1
  }

  lemma CycleStart(cycle: int)
    ensures YearStart(400 * cycle + 1) == 146097 * cycle - 719162
  {
    var y := 400 * cycle;
    assert y / 4 == 100 * cycle && y / 100 == 4 * cycle && y / 400 == cycle;
  }

  lemma {:induction false} YearFromHolds(n: int, year: int)
    requires YearStart(year) <= n
    ensures YearStart(YearFrom(n, year)) <= n < YearStart(YearFrom(n, year) + 1)
    decreases n - YearStart(year)
  {
    hide YearStart;
    YearLength(year);
    if n >= YearStart(year + 1) {
      YearFromHolds(n, year + 1);
    }
  }

  /** The month a day of the year falls in, searching down from December. */
  function MonthFrom(year: int, yearDay: int, month: int): int
    decreases month
  {
    if month <= 1 || DaysBeforeMonth(year, month) <= yearDay then month else MonthFrom(year, yearDay, month - 1)
  }

  lemma {:induction false} MonthFromHolds(year: int, yearDay: int, month: int)
    requires 1 <= month <= 12
    requires 0 <= yearDay < DaysBeforeMonth(year, month) + DaysInMonth(year, month)
    ensures var m := MonthFrom(year, yearDay, month);
            1 <= m <= 12 && DaysBeforeMonth(year, m) <= yearDay < DaysBeforeMonth(year, m) + DaysInMonth(year, m)
    decreases month
  {
    if month > 1 {
      MonthLength(year, month - 1);
      if yearDay < DaysBeforeMonth(year, month) {
        MonthFromHolds(year, yearDay, month - 1);
      }
    }
  }

  /** The proleptic Gregorian date of a day count. */
  function DateOf(n: int): Date
  {
    var year := YearFrom(n, CycleYear(n));
    var yearDay := n - YearStart(year);
    var month := MonthFrom(year, yearDay, 12);
    Date(year, month, yearDay - DaysBeforeMonth(year, month) + 1)
  }

  lemma DateOfHolds(n: int)
    ensures ValidDate(DateOf(n))
    ensures DayNumber(DateOf(n).year, DateOf(n).month, DateOf(n).day) == n
  {
    YearFromHolds(n, CycleYear(n));
    var year := YearFrom(n, CycleYear(n));
    YearLength(year);
    MonthLength(year, 12);
    MonthFromHolds(year, n - YearStart(year), 12);
    hide YearStart, YearFrom, CycleYear, MonthFrom, DaysBeforeMonth, DaysInMonth;
  }

  lemma {:induction false} YearsInOrder(a: int, b: int)
    requires a <= b
    ensures YearStart(a) <= YearStart(b)
    ensures a < b ==> YearStart(a + 1) <= YearStart(b)
    decreases b - a
  {
    hide YearStart;
    if a < b {
      YearLength(a);
      YearsInOrder(a + 1, b);
    }
  }

  lemma {:induction false} MonthsInOrder(year: int, a: int, b: int)
    requires 1 <= a < b <= 12
    ensures DaysBeforeMonth(year, a) + DaysInMonth(year, a) <= DaysBeforeMonth(year, b)
    decreases b - a
  {
    MonthLength(year, a);
    if a + 1 < b {
      MonthsInOrder(year, a + 1, b);
    }
  }

  lemma InsideYear(d: Date)
    requires ValidDate(d)
    ensures 0 <= DaysBeforeMonth(d.year, d.month) + d.day - 1 < DaysInYear(d.year)
  {
    if d.month < 12 {
      MonthsInOrder(d.year, d.month, 12);
    }
    MonthLength(d.year, 12);
  }

  /** Two dates with one day count are the same date, so DateOf is the inverse of the count. */
  lemma DateUnique(a: Date, b: Date)
    requires ValidDate(a) && ValidDate(b)
    requires DayNumber(a.year, a.month, a.day) == DayNumber(b.year, b.month, b.day)
    ensures a == b
  {
    hide YearStart, DaysBeforeMonth, DaysInMonth;
    InsideYear(a);
    InsideYear(b);
    YearLength(a.year);
    YearLength(b.year);
    if a.year < b.year {
      YearsInOrder(a.year, b.year);
    } else if b.year < a.year {
      YearsInOrder(b.year, a.year);
    } else {
      if a.month < b.month {
        MonthsInOrder(a.year, a.month, b.month);
      } else if b.month < a.month {
        MonthsInOrder(a.year, b.month, a.month);
      }
    }
  }

  // ----- Parts to time -----

  /** Parsed fields; seconds of offset east of UTC. */
  datatype Fields = Fields(
    year: Option<int>, mon: Option<int>, mday: Option<int>,
    hour: Option<int>, minute: Option<int>, sec: Option<int>,
    nanos: int, offset: Option<int>)

  /** Seconds since the epoch, and nanoseconds within the second. */
  datatype Instant = Instant(seconds: int, nanos: int)

  /** time.Date on fields whose month, hour, minute and second are in the checked ranges. */
  function DateTime(year: int, month: int, day: int, hour: int, minute: int, sec: int, offset: int): int
  {
    DayNumber(year, month, day) * 86400 + hour * 3600 + minute * 60 + sec - offset
  }

  predicate InRange(mon: int, mday: int, hour: int, minute: int, sec: int, nanos: int, offset: int)
  {
    && 1 <= mon <= 12 && 1 <= mday <= 31
    && 0 <= hour <= 24 && 0 <= minute <= 59 && 0 <= sec <= 60
    && !(hour == 24 && (minute > 0 || sec > 0 || nanos > 0))
    && -86400 < offset < 86400
  }

  /** Missing fields come from today; a missing day is the first once a year or month is given. */
  function PartsToTime(f: Fields, today: Date): Option<Instant>
  {
    var year, mon := f.year.GetOr(today.year), f.mon.GetOr(today.month);
    var mday := f.mday.GetOr(if f.year.Some? || f.mon.Some? then 1 else today.day);
    var hour, minute, sec := f.hour.GetOr(0), f.minute.GetOr(0), f.sec.GetOr(0);
    var offset := f.offset.GetOr(0);
    if InRange(mon, mday, hour, minute, sec, f.nanos, offset)
    then Some(Instant(DateTime(year, mon, mday, hour, minute, sec, offset), f.nanos))
    else None
  }

  /** The fields a clock at the given offset shows at an instant. */
  function FieldsAt(t: Instant, offset: int): Fields
  {
    var local := t.seconds + offset;
    var date, rest := DateOf(local / 86400), local % 86400;
    Fields(Some(date.year), Some(date.month), Some(date.day),
           Some(rest / 3600), Some(rest / 60 % 60), Some(rest % 60), t.nanos, Some(offset))
  }

  /** Calendar round trip: the fields shown at an instant name that instant again. */
  lemma ShownFieldsNameInstant(t: Instant, offset: int, today: Date)
    requires -86400 < offset < 86400
    ensures PartsToTime(FieldsAt(t, offset), today) == Some(t)
  {
    hide DateOf, DayNumber, ValidDate, DaysInMonth, DateTime;
    var local := t.seconds + offset;
    var day, rest := local / 86400, local % 86400;
    DateInRange(day);
    ClockSplit(rest);
    ShownTime(DateOf(day), day, rest, offset);
  }

  lemma DateInRange(day: int)
    ensures var d := DateOf(day); 1 <= d.month <= 12 && 1 <= d.day <= 31 && DayNumber(d.year, d.month, d.day) == day
  {
    hide DateOf, DayNumber;
    DateOfHolds(day);
    var d := DateOf(day);
    assert DaysInMonth(d.year, d.month) <= 31;
  }

  lemma ShownTime(d: Date, day: int, rest: int, offset: int)
    requires 0 <= rest < 86400 && DayNumber(d.year, d.month, d.day) == day
    ensures DateTime(d.year, d.month, d.day, rest / 3600, rest / 60 % 60, rest % 60, offset) == day * 86400 + rest - offset
  {
    hide DayNumber;
    ClockSplit(rest);
  }

  lemma ClockSplit(rest: int)
    requires 0 <= rest < 86400
    ensures 0 <= rest / 3600 < 24 && 0 <= rest / 60 % 60 < 60 && 0 <= rest % 60 < 60
    ensures rest / 3600 * 3600 + rest / 60 % 60 * 60 + rest % 60 == rest
  {
    assert rest / 3600 == rest / 60 / 60;
  }

  /** Conversely, fields of a real date and time are shown again at the instant they name. */
  lemma NamedInstantShowsFields(d: Date, hour: int, minute: int, sec: int, nanos: int, offset: int, today: Date)
    requires ValidDate(d) && 0 <= hour < 24 && 0 <= minute < 60 && 0 <= sec < 60
    requires -86400 < offset < 86400
    ensures var f := Fields(Some(d.year), Some(d.month), Some(d.day), Some(hour), Some(minute), Some(sec),
                            nanos, Some(offset));
            PartsToTime(f, today).Some? && FieldsAt(PartsToTime(f, today).value, offset) == f
  {
    hide DateOf, DayNumber, ValidDate, DaysInMonth;
    var n := DayNumber(d.year, d.month, d.day);
    var rest := hour * 3600 + minute * 60 + sec;
    DateHeld(d);
    ClockReads(n, hour, minute, sec);
  }

  lemma DateHeld(d: Date)
    requires ValidDate(d)
    ensures 1 <= d.month <= 12 && 1 <= d.day <= 31 && DateOf(DayNumber(d.year, d.month, d.day)) == d
  {
    hide DateOf, DayNumber;
    assert DaysInMonth(d.year, d.month) <= 31;
    var n := DayNumber(d.year, d.month, d.day);
    DateOfHolds(n);
    DateUnique(DateOf(n), d);
  }

  lemma ClockReads(n: int, hour: int, minute: int, sec: int)
    requires 0 <= hour < 24 && 0 <= minute < 60 && 0 <= sec < 60
    ensures var rest := hour * 3600 + minute * 60 + sec;
            var local := n * 86400 + hour * 3600 + minute * 60 + sec;
            && local / 86400 == n && local % 86400 == rest
            && rest / 3600 == hour && rest / 60 % 60 == minute && rest % 60 == sec
  {
    var rest := hour * 3600 + minute * 60 + sec;
    assert rest / 3600 == hour && rest / 60 == hour * 60 + minute && rest % 60 == sec;
  }

  /** A day past the end of its month counts on into the next month. */
  lemma DayOverflow(f: Fields, today: Date)
    requires f.year.Some? && f.mon.Some? && f.mday.Some? && 1 <= f.mon.value <= 12
    requires DaysInMonth(f.year.value, f.mon.value) < f.mday.value <= 31
    ensures PartsToTime(f, today) ==
            PartsToTime(f.(mon := Some(f.mon.value + 1),
                           mday := Some(f.mday.value - DaysInMonth(f.year.value, f.mon.value))), today)
  {
    MonthLength(f.year.value, f.mon.value);
    assert f.mon.value != 12;
    hide DaysBeforeMonth, YearStart;
  }

  /** Hour 24 is one hour after hour 23, in whatever month, and is allowed only on the hour. */
  lemma HourTwentyFour(f: Fields, today: Date)
    requires f.hour == Some(24)
    ensures PartsToTime(f, today) ==
            if f.minute.GetOr(0) > 0 || f.sec.GetOr(0) > 0 || f.nanos > 0 then None
            else match PartsToTime(f.(hour := Some(23)), today)
                 case None => None
                 case Some(t) => Some(Instant(t.seconds + 3600, t.nanos))
  {
    hide DayNumber;
  }

  /** Second 60 is one second after second 59, wherever that falls; after 24:00 it is refused. */
  lemma SecondSixty(f: Fields, today: Date)
    requires f.sec == Some(60)
    ensures PartsToTime(f, today) ==
            if f.hour == Some(24) then None
            else match PartsToTime(f.(sec := Some(59)), today)
                 case None => None
                 case Some(t) => Some(Instant(t.seconds + 1, t.nanos))
  {
    hide DayNumber;
  }
}
