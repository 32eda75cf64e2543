/** The proleptic Gregorian calendar behind the source's datetimes; instants are microseconds since its first day. */
module Calendar {
  import opened Common

  datatype Date = Date(year: nat, month: nat, day: nat)

  predicate Leap(y: nat) {
    y % 4 == 0 && (y % 100 != 0 || y % 400 == 0)
  }

  function MonthLength(y: nat, m: nat): (n: nat)
    ensures 28 <= n <= 31
  {
    if m == 2 then (if Leap(y) then 29 else 28)
    else if m == 4 || m == 6 || m == 9 || m == 11 then 30
    else 31
  }

  predicate Valid(d: Date) {
    d.year >= 1 && 1 <= d.month <= 12 && 1 <= d.day <= MonthLength(d.year, d.month)
  }

  /** First day of the following month. */
  function NextMonth(d: Date): Date {
    if d.month == 12 then Date(d.year + 1, 1, 1) else Date(d.year, d.month + 1, 1)
  }

  function NextDay(d: Date): Date {
    if d.day < MonthLength(d.year, d.month) then d.(day := d.day + 1) else NextMonth(d)
  }

  function AddDays(d: Date, n: nat): Date
    decreases n
  {
    if n == 0 then d else AddDays(NextDay(d), n - 1)
  }

  /** The number of leap years up to and including `y`. */
  function Leaps(y: int): int {
    y / 4 - y / 100 + y / 400
  }

  function DaysBeforeYear(y: nat): int {
    365 * (y - 1) + Leaps(y - 1)
  }

  function DaysBeforeMonth(y: nat, m: nat): nat
    decreases m
  {
    if m <= 1 then 0 else DaysBeforeMonth(y, m - 1) + MonthLength(y, m - 1)
  }

  /** The proleptic ordinal: 1 January of year 1 is day 1. */
  function Ordinal(d: Date): int {
    DaysBeforeYear(d.year) + DaysBeforeMonth(d.year, d.month) + d.day
  }

  /** The date with a given ordinal, counted off day by day. */
  function FromOrdinal(n: nat): Date {
    if n <= 1 then Date(1, 1, 1) else NextDay(FromOrdinal(n - 1))
  }

  /** Stepping a quotient of a positive number: it moves exactly at the multiples. */
  lemma {:induction false} QuotientSteps(y: nat, n: nat)
    requires y >= 1 && n >= 1
    ensures y / n == (y - 1) / n + if y % n == 0 then 1 else 0
  {
    var q, r := (y - 1) / n, (y - 1) % n;
    assert y == q * n + (r + 1);
    if r + 1 == n {
      DivisionIsUnique(y, n, q + 1, 0);
    } else {
      DivisionIsUnique(y, n, q, r + 1);
    }
  }

  lemma {:induction false} DivisionIsUnique(y: nat, n: nat, q: nat, r: nat)
    requires n >= 1 && r < n && y == q * n + r
    ensures y / n == q && y % n == r
  {
    var d := y / n - q;
    assert d * n == r - y % n;
    assert -1 * n < d * n < 1 * n;
  }

  lemma {:induction false} LeapsStep(y: nat)
    requires y >= 1
    ensures Leaps(y) == Leaps(y - 1) + if Leap(y) then 1 else 0
  {
    QuotientSteps(y, 4);
    QuotientSteps(y, 100);
    QuotientSteps(y, 400);
    HundredsAreFours(y);
  }

  lemma {:induction false} HundredsAreFours(y: nat)
    ensures y % 400 == 0 ==> y % 100 == 0
    ensures y % 100 == 0 ==> y % 4 == 0
  {
    if y % 400 == 0 {
      DivisionIsUnique(y, 100, 4 * (y / 400), 0);
    }
    if y % 100 == 0 {
      DivisionIsUnique(y, 4, 25 * (y / 100), 0);
    }
  }

  lemma {:induction false} YearsAddUp(y: nat)
    requires y >= 1
    ensures DaysBeforeYear(y + 1) == DaysBeforeYear(y) + if Leap(y) then 366 else 365
  {
    LeapsStep(y);
  }

  lemma {:induction false} MonthsAddUp(y: nat)
    ensures DaysBeforeMonth(y, 12) + MonthLength(y, 12) == if Leap(y) then 366 else 365
  {
    assert DaysBeforeMonth(y, 3) == 31 + MonthLength(y, 2);
    assert DaysBeforeMonth(y, 6) == DaysBeforeMonth(y, 3) + 92;
    assert DaysBeforeMonth(y, 9) == DaysBeforeMonth(y, 6) + 92;
    assert DaysBeforeMonth(y, 12) == DaysBeforeMonth(y, 9) + 91;
  }

  /** The next month starts one month length later. */
  lemma {:induction false} NextMonthOrdinal(d: Date)
    requires d.year >= 1 && 1 <= d.month <= 12
    ensures Ordinal(NextMonth(d)) == Ordinal(d.(day := 1)) + MonthLength(d.year, d.month)
  {
    if d.month == 12 {
      YearsAddUp(d.year);
      MonthsAddUp(d.year);
    }
  }

  lemma {:induction false} NextDayOrdinal(d: Date)
    requires Valid(d)
    ensures Valid(NextDay(d)) && Ordinal(NextDay(d)) == Ordinal(d) + 1
  {
    NextMonthOrdinal(d);
  }

  /** Counting days and reading ordinals are inverse. */
  lemma {:induction false} OrdinalOfFromOrdinal(n: nat)
    requires n >= 1
    ensures Valid(FromOrdinal(n)) && Ordinal(FromOrdinal(n)) == n
  {
    if n > 1 {
      OrdinalOfFromOrdinal(n - 1);
      NextDayOrdinal(FromOrdinal(n - 1));
    }
  }

  /** Adding days from the first of a month moves through it, and then into the next. */
  lemma {:induction false} AddWithinMonth(d: Date, n: nat)
    requires Valid(d) && d.day + n <= MonthLength(d.year, d.month)
    ensures AddDays(d, n) == d.(day := d.day + n)
    decreases n
  {
    if n > 0 {
      AddWithinMonth(NextDay(d), n - 1);
    }
  }

  lemma {:induction false} AddSplits(d: Date, a: nat, b: nat)
    ensures AddDays(d, a + b) == AddDays(AddDays(d, a), b)
    decreases a
  {
    if a > 0 {
      AddSplits(NextDay(d), a - 1, b);
    }
  }

  /** From the first of this month 32 days on, and back to the first. */
  function MonthLater(d: Date): Date {
    AddDays(d.(day := 1), 32).(day := 1)
  }

  /** 32 days from the first of a month always land in the following month. */
  lemma {:induction false} ThirtyTwoDays(d: Date)
    requires Valid(d)
    ensures MonthLater(d) == NextMonth(d)
  {
    var first, n := d.(day := 1), MonthLength(d.year, d.month);
    AddWithinMonth(first, n - 1);
    AddSplits(first, n - 1, 33 - n);
    var last := d.(day := n);
    assert AddDays(last, 33 - n) == AddDays(NextMonth(d), 32 - n);
    AddWithinMonth(NextMonth(d), 32 - n);
  }

  /** Midnight of the day with ordinal `n`. */
  function StartOfDay(n: int): int {
    (n - 1) * DAY
  }

  function Midnight(d: Date): int {
    StartOfDay(Ordinal(d))
  }

  function DateOf(instant: nat): Date {
    FromOrdinal(instant / DAY + 1)
  }

  /** The source's computation: the first of this month at midnight, plus 32 days, back to the first. */
  function FirstOfNextMonth(now: nat): int {
    Midnight(MonthLater(DateOf(now)))
  }

  function MonthCount(d: Date): int {
    d.year * 12 + d.month
  }

  lemma {:induction false} OneMonthOn(d: Date)
    requires Valid(d) && d.day == 1
    ensures Valid(NextMonth(d)) && NextMonth(d).day == 1
    ensures MonthCount(NextMonth(d)) == MonthCount(d) + 1 && Ordinal(NextMonth(d)) > Ordinal(d)
  {
    NextMonthOrdinal(d);
    assert d.(day := 1) == d;
  }

  lemma {:induction false} SameMonth(a: Date, b: Date)
    requires Valid(a) && Valid(b) && a.day == b.day == 1 && MonthCount(a) == MonthCount(b)
    ensures a == b
  {
  }

  /** Month starts are ordered like (year, month). */
  lemma {:induction false} MonthStartsIncrease(a: Date, b: Date)
    requires Valid(a) && Valid(b) && a.day == b.day == 1
    requires MonthCount(a) <= MonthCount(b)
    ensures Ordinal(a) <= Ordinal(b)
    decreases MonthCount(b) - MonthCount(a)
  {
    if MonthCount(a) == MonthCount(b) {
      SameMonth(a, b);
    } else {
      OneMonthOn(a);
      MonthStartsIncrease(NextMonth(a), b);
    }
  }

  lemma {:induction false} DayHolds(now: nat)
    ensures StartOfDay(now / DAY + 1) <= now < StartOfDay(now / DAY + 2)
  {
  }

  lemma {:induction false} TodayHolds(now: nat)
    ensures Valid(DateOf(now)) && Ordinal(DateOf(now)) == now / DAY + 1
    ensures Midnight(DateOf(now)) <= now < StartOfDay(Ordinal(DateOf(now)) + 1)
  {
    OrdinalOfFromOrdinal(now / DAY + 1);
    DayHolds(now);
  }

  lemma {:induction false} MidnightsFollowOrdinals(a: Date, b: Date)
    ensures Ordinal(a) <= Ordinal(b) <==> Midnight(a) <= Midnight(b)
  {
  }

  /** No month start lies after today and before the first of next month. */
  lemma {:induction false} NoStartBetween(today: Date, e: Date)
    requires Valid(today) && Valid(e) && e.day == 1
    ensures Ordinal(today) < Ordinal(NextMonth(today))
    ensures Ordinal(e) <= Ordinal(today) || Ordinal(NextMonth(today)) <= Ordinal(e)
  {
    NextMonthOrdinal(today);
    if MonthCount(e) <= MonthCount(today) {
      MonthStartsIncrease(e, today.(day := 1));
    } else {
      MonthStartsIncrease(NextMonth(today), e);
    }
  }

  lemma {:induction false} DaysIncrease(a: int, b: int)
    requires a <= b
    ensures StartOfDay(a) <= StartOfDay(b)
  {
  }

  lemma {:induction false} LaterDaysAreAhead(now: nat, d: Date)
    requires Ordinal(DateOf(now)) < Ordinal(d)
    ensures Midnight(d) > now
  {
    TodayHolds(now);
    DaysIncrease(Ordinal(DateOf(now)) + 1, Ordinal(d));
  }

  lemma {:induction false} LandsOnNextMonth(now: nat)
    ensures Valid(NextMonth(DateOf(now))) && FirstOfNextMonth(now) == Midnight(NextMonth(DateOf(now)))
  {
    TodayHolds(now);
    ThirtyTwoDays(DateOf(now));
  }

  /**
   * For every instant, the result is the first instant of the next calendar month: a month start after `now`,
   * with no month start in between.
   */
  lemma {:induction false} FirstOfNextMonthIsExact(now: nat)
    ensures Valid(NextMonth(DateOf(now))) && NextMonth(DateOf(now)).day == 1
    ensures FirstOfNextMonth(now) == Midnight(NextMonth(DateOf(now)))
    ensures FirstOfNextMonth(now) > now
    ensures forall e :: Valid(e) && e.day == 1 && Midnight(e) > now ==> Midnight(e) >= FirstOfNextMonth(now)
  {
    var today := DateOf(now);
    LandsOnNextMonth(now);
    TodayHolds(now);
    NoStartBetween(today, today.(day := 1));
    LaterDaysAreAhead(now, NextMonth(today));
    forall e | Valid(e) && e.day == 1 && Midnight(e) > now
      ensures Midnight(e) >= FirstOfNextMonth(now)
    {
      NoStartBetween(today, e);
      MidnightsFollowOrdinals(NextMonth(today), e);
      MidnightsFollowOrdinals(e, today);
    }
  }

  lemma {:induction false} NextMonthIsAhead(now: nat)
    ensures FirstOfNextMonth(now) > now
  {
    FirstOfNextMonthIsExact(now);
  }
}
