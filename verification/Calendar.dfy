/** Hour, day and month bucket starts of a Unix timestamp in seconds, negative ones
    included. Dates are counted out day by day on the proleptic Gregorian calendar. */
module Calendar {
  import opened Domain

  datatype Date = Date(year: int, month: int, day: int)

  const Hour := 3600
  const Day := 86400

  predicate IsLeap(year: int) {
    year % 4 == 0 && (year % 100 != 0 || year % 400 == 0)
  }

  function DaysInMonth(year: int, month: int): int {
    if month == 2 then (if IsLeap(year) then 29 else 28)
    else if month == 4 || month == 6 || month == 9 || month == 11 then 30
    else 31
  }

  predicate ValidDate(d: Date) {
    1 <= d.month <= 12 && 1 <= d.day <= DaysInMonth(d.year, d.month)
  }

  function NextDay(d: Date): Date {
    if d.day < DaysInMonth(d.year, d.month) then Date(d.year, d.month, d.day + 1)
    else if d.month < 12 then Date(d.year, d.month + 1, 1)
    else Date(d.year + 1, 1, 1)
  }

  function PreviousDay(d: Date): Date {
    if d.day > 1 then Date(d.year, d.month, d.day - 1)
    else if d.month > 1 then Date(d.year, d.month - 1, DaysInMonth(d.year, d.month - 1))
    else Date(d.year - 1, 12, 31)
  }

  /** The date of the n-th day after (or before) 1 January 1970. */
  function DateOf(n: int): (d: Date)
    ensures ValidDate(d)
    decreases if n < 0 then -n else n
  {
    if n == 0 then Date(1970, 1, 1)
    else if n > 0 then NextDay(DateOf(n - 1))
    else PreviousDay(DateOf(n + 1))
  }

  function HourStart(t: int): int {
    t - t % Hour
  }

  function DayStart(t: int): int {
    t - t % Day
  }

  /** Day one of the month of `t`, at midnight. */
  function MonthStart(t: int): int {
    var n := t / Day;
    (n - (DateOf(n).day - 1)) * Day
  }

  // ---------------------------------------------------------------------------
  // The calendar
  // ---------------------------------------------------------------------------

  lemma DateSucceeds(n: int)
    ensures DateOf(n + 1) == NextDay(DateOf(n))
  {
    if n < 0 {
      assert DateOf(n) == PreviousDay(DateOf(n + 1));
    }
  }

  predicate Before(a: Date, b: Date) {
    || a.year < b.year
    || (a.year == b.year && (a.month < b.month || (a.month == b.month && a.day < b.day)))
  }

  lemma {:induction false} DatesIncrease(a: int, b: int)
    requires a < b
    ensures Before(DateOf(a), DateOf(b))
    decreases b - a
  {
    DateSucceeds(b - 1);
    if a < b - 1 {
      DatesIncrease(a, b - 1);
    }
  }

  /** Going back inside a month only lowers the day. */
  lemma {:induction false} BackInMonth(n: int, k: nat)
    requires k < DateOf(n).day
    ensures DateOf(n - k) == Date(DateOf(n).year, DateOf(n).month, DateOf(n).day - k)
    decreases k
  {
    if k > 0 {
      BackInMonth(n, k - 1);
      DateSucceeds(n - k);
    }
  }

  /** Days before 1 March of a year, counted from 1 March of year 0. */
  function DaysBeforeYear(y: int): int {
    365 * y + y / 4 - y / 100 + y / 400
  }

  /** Days before a month, counted from March: 31, 30, 31, 30, 31, over and over. */
  function DaysBeforeMonth(m: int): int {
    (153 * m + 2) / 5
  }

  /** Days from 1 January 1970 to a date of the proleptic Gregorian calendar. Years count
      from March, so that the leap day comes last. */
  function DayNumber(d: Date): int {
    DaysBeforeYear(MarchYear(d)) + DaysBeforeMonth((d.month + 9) % 12) + d.day - 1 - 719468
  }

  lemma By4(y: int)
    ensures y / 4 - (y - 1) / 4 == if y % 4 == 0 then 1 else 0
  {
  }

  lemma Div100(q: int, r: int)
    requires 0 <= r < 100
    ensures (100 * q + r) / 100 == q && (100 * q + r) % 100 == r
  {
  }

  lemma Div400(q: int, r: int)
    requires 0 <= r < 400
    ensures (400 * q + r) / 400 == q && (400 * q + r) % 400 == r
  {
  }

  lemma By100(y: int)
    ensures y / 100 - (y - 1) / 100 == if y % 100 == 0 then 1 else 0
  {
    var q, r := y / 100, y % 100;
    assert y == 100 * q + r;
    if r == 0 {
      Div100(q - 1, 99);
    } else {
      Div100(q, r - 1);
    }
  }

  lemma Fourth(y: int)
    ensures y % 100 == 0 ==> y % 4 == 0
  {
    if y % 100 == 0 {
      assert y == 4 * (25 * (y / 100));
    }
  }

  lemma By400(y: int)
    ensures y / 400 - (y - 1) / 400 == if y % 400 == 0 then 1 else 0
    ensures y % 400 == 0 ==> y % 100 == 0
  {
    var q, r := y / 400, y % 400;
    if r == 0 {
      Div400(q - 1, 399);
      Div100(4 * q, 0);
    } else {
      Div400(q, r - 1);
    }
  }

  lemma AddUp(y: int, a: int, b: int, c: int, a': int, b': int, c': int)
    ensures (365 * y + a - b + c) - (365 * (y - 1) + a' - b' + c') == 365 + (a - a') - (b - b') + (c - c')
  {
  }

  lemma YearLength(y: int)
    ensures DaysBeforeYear(y) - DaysBeforeYear(y - 1)
         == if y % 4 == 0 && (y % 100 != 0 || y % 400 == 0) then 366 else 365
  {
    By4(y);
    By100(y);
    Fourth(y);
    By400(y);
    AddUp(y, y / 4, y / 100, y / 400, (y - 1) / 4, (y - 1) / 100, (y - 1) / 400);
  }

  lemma MonthLength(month: int)
    requires 1 <= month <= 12 && month != 2
    ensures DaysBeforeMonth((month + 10) % 12) - DaysBeforeMonth((month + 9) % 12)
         == if month == 4 || month == 6 || month == 9 || month == 11 then 30 else 31
  {
    var m := (month + 9) % 12;
    assert m == if month < 3 then month + 9 else month - 3;
    assert (month + 10) % 12 == m + 1;
  }

  /** The year a date belongs to when years start in March. */
  function MarchYear(d: Date): int {
    if d.month <= 2 then d.year - 1 else d.year
  }

  lemma InsideMonth(d: Date)
    requires d.day < DaysInMonth(d.year, d.month)
    ensures DayNumber(NextDay(d)) == DayNumber(d) + 1
  {
    assert MarchYear(NextDay(d)) == MarchYear(d);
  }

  lemma EndOfFebruary(d: Date)
    requires d.month == 2 && d.day == DaysInMonth(d.year, 2)
    ensures DayNumber(NextDay(d)) == DayNumber(d) + 1
  {
    YearLength(d.year);
    assert DaysBeforeMonth(0) == 0 && DaysBeforeMonth(11) == 337;
    assert NextDay(d) == Date(d.year, 3, 1);
  }

  lemma EndOfMonth(d: Date)
    requires ValidDate(d) && d.month != 2 && d.day == DaysInMonth(d.year, d.month)
    ensures DayNumber(NextDay(d)) == DayNumber(d) + 1
  {
    MonthLength(d.month);
    var next := NextDay(d);
    assert MarchYear(next) == MarchYear(d) && next.day == 1;
    assert (next.month + 9) % 12 == (d.month + 10) % 12;
  }

  lemma NextDayNumber(d: Date)
    requires ValidDate(d)
    ensures DayNumber(NextDay(d)) == DayNumber(d) + 1
  {
    if d.day < DaysInMonth(d.year, d.month) {
      InsideMonth(d);
    } else if d.month == 2 {
      EndOfFebruary(d);
    } else {
      EndOfMonth(d);
    }
  }

  lemma NextOfPrevious(d: Date)
    requires ValidDate(d)
    ensures ValidDate(PreviousDay(d)) && NextDay(PreviousDay(d)) == d
  {
  }

  lemma PreviousDayNumber(d: Date)
    requires ValidDate(d)
    ensures DayNumber(PreviousDay(d)) == DayNumber(d) - 1
  {
    NextOfPrevious(d);
    NextDayNumber(PreviousDay(d));
  }

  ghost predicate IsDay(n: int) {
    DayNumber(DateOf(n)) == n
  }

  ghost predicate IsDayBack(n: nat) {
    IsDay(0 - n)
  }

  lemma {:induction false} DayUp(n: nat)
    requires IsDay(n)
    ensures IsDay(n + 1)
  {
    NextDayNumber(DateOf(n));
  }

  lemma {:induction false} DayDown(n: nat)
    requires IsDayBack(n)
    ensures IsDayBack(n + 1)
  {
    PreviousDayNumber(DateOf(0 - n));
  }

  lemma {:induction false} DaysUp(n: nat)
    requires IsDay(0)
    ensures IsDay(n)
  {
    var p := (k: nat) => IsDay(k);
    forall k: nat
      ensures Steps(p, k)
    {
      if IsDay(k) {
        DayUp(k);
      }
    }
    Climb(p, n);
  }

  lemma {:induction false} DaysDown(n: nat)
    requires IsDayBack(0)
    ensures IsDayBack(n)
  {
    var p := (k: nat) => IsDayBack(k);
    forall k: nat
      ensures Steps(p, k)
    {
      if IsDayBack(k) {
        DayDown(k);
      }
    }
    Climb(p, n);
  }

  lemma {:induction false} DaysAreNumbered(n: int)
    ensures DayNumber(DateOf(n)) == n
  {
    EpochDay();
    if n >= 0 {
      DaysUp(n);
    } else {
      DaysDown(-n);
    }
  }

  /** The days counted out are those of the Gregorian calendar, before 1970 as well: the
      usual closed form gives the number of each. */
  lemma {:induction false} DatesAreGregorian(n: int)
    ensures var Date(y, m, d) := DateOf(n);
            var y', m' := (if m <= 2 then y - 1 else y), (m + 9) % 12;
            n == 365 * y' + y' / 4 - y' / 100 + y' / 400 + (153 * m' + 2) / 5 + d - 1 - 719468
  {
    DaysAreNumbered(n);
  }

  lemma EpochDay()
    ensures DayNumber(Date(1970, 1, 1)) == 0 && IsDay(0)
  {
    assert 1969 / 4 == 492 && 1969 / 100 == 19 && 1969 / 400 == 4;
  }

  // ---------------------------------------------------------------------------
  // Bucket starts
  // ---------------------------------------------------------------------------

  lemma DayStartIsMidnight(t: int)
    ensures DayStart(t) == (t / Day) * Day && DayStart(t) / Day == t / Day && DayStart(t) % Day == 0
  {
  }

  lemma WholeDays(m: int)
    ensures m * Day / Day == m
  {
  }

  lemma DaysBack(n: int, k: int)
    requires 0 <= k < 31
    ensures (n - k) * Day <= n * Day < (n - k) * Day + 31 * Day
  {
  }

  /** The month bucket starts at midnight of a first day of the month, not later than
      the sample and less than 31 days before its day. */
  lemma {:induction false} MonthStartIsFirstDay(t: int)
    ensures var m := MonthStart(t) / Day;
            && MonthStart(t) == m * Day
            && DateOf(m) == Date(DateOf(t / Day).year, DateOf(t / Day).month, 1)
            && MonthStart(t) <= DayStart(t) < MonthStart(t) + 31 * Day
  {
    var n := t / Day;
    var k := DateOf(n).day - 1;
    BackInMonth(n, k);
    DayStartIsMidnight(t);
    WholeDays(n - k);
    assert MonthStart(t) == (n - k) * Day && 0 <= k < 31;
    DaysBack(n, k);
  }

  /** Starts are nested and idempotent, and a start never lies after its sample. */
  lemma StartsAreNested(t: int)
    ensures HourStart(HourStart(t)) == HourStart(t) && DayStart(DayStart(t)) == DayStart(t)
    ensures MonthStart(MonthStart(t)) == MonthStart(t)
    ensures DayStart(HourStart(t)) == DayStart(t) && MonthStart(DayStart(t)) == MonthStart(t)
    ensures MonthStart(t) <= DayStart(t) <= HourStart(t) <= t < HourStart(t) + Hour
    ensures t < DayStart(t) + Day
  {
    MonthStartIsFirstDay(t);
    DayStartIsMidnight(t);
    HourInDay(t);
  }

  lemma DayOf(t: int, day: int, rest: int)
    requires t == day * Day + rest && 0 <= rest < Day
    ensures t - t % Day == day * Day
  {
  }

  lemma HourInDay(t: int)
    ensures DayStart(HourStart(t)) == DayStart(t) && DayStart(t) <= HourStart(t)
    ensures HourStart(HourStart(t)) == HourStart(t)
  {
    var hours := t / Hour;
    var day, hour := hours / 24, hours % 24;
    DayOf(t, day, hour * Hour + t % Hour);
    DayOf(hours * Hour, day, hour * Hour);
    assert HourStart(t) == hours * Hour;
  }

  /** Two instants share a month bucket exactly when they fall in the same month of the
      same year. */
  lemma {:induction false} SameMonthBucket(t: int, u: int)
    ensures MonthStart(t) == MonthStart(u)
       <==> DateOf(t / Day).year == DateOf(u / Day).year && DateOf(t / Day).month == DateOf(u / Day).month
  {
    MonthStartIsFirstDay(t);
    MonthStartIsFirstDay(u);
    var m, n := MonthStart(t) / Day, MonthStart(u) / Day;
    if m < n {
      DatesIncrease(m, n);
    } else if n < m {
      DatesIncrease(n, m);
    }
  }

  lemma SecondsStart(t: int, unit: int)
    requires unit == 3600 || unit == 86400
    ensures (t - t % unit) % unit == 0 && t - unit < t - t % unit <= t
  {
  }

  /** In numbers: hours are 3600 seconds and days 86400. */
  lemma StartsInSeconds(t: int)
    ensures HourStart(t) % 3600 == 0 && t - 3600 < HourStart(t) <= t
    ensures DayStart(t) % 86400 == 0 && t - 86400 < DayStart(t) <= t
  {
    SecondsStart(t, 3600);
    SecondsStart(t, 86400);
  }

  /** And months start with their first day in the Gregorian calendar. */
  lemma {:induction false} MonthInSeconds(t: int)
    ensures DayNumber(DateOf(t / 86400)) == t / 86400
    ensures var d := DateOf(t / 86400); MonthStart(t) == DayNumber(Date(d.year, d.month, 1)) * 86400
  {
    var m := MonthStart(t) / Day;
    MonthStartIsFirstDay(t);
    DaysAreNumbered(m);
    DaysAreNumbered(t / Day);
    assert MonthStart(t) == m * 86400;
  }
}
