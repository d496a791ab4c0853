/** Gregorian calendar dates, their day numbers, and the Date object the source changes in place. */
module Calendar {
  import opened Rounding

  datatype Date = Date(year: int, month: int, day: int)

  predicate IsLeap(year: int) {
    year % 4 == 0 && (year % 100 != 0 || year % 400 == 0)
  }

  function DaysInMonth(year: int, month: int): (n: int)
    requires 1 <= month <= 12
    ensures 28 <= n <= 31
  {
    if month == 2 then (if IsLeap(year) then 29 else 28)
    else if month == 4 || month == 6 || month == 9 || month == 11 then 30
    else 31
  }

  predicate IsDate(d: Date) {
    1 <= d.month <= 12 && 1 <= d.day <= DaysInMonth(d.year, d.month)
  }

  /** ISO text order, 'YYYY-MM-DD'. */
  predicate Before(a: Date, b: Date) {
    a.year < b.year || (a.year == b.year && (a.month < b.month || (a.month == b.month && a.day < b.day)))
  }

  // ----- day numbers -----

  function DaysBeforeYear(year: int): int {
    365 * (year - 1) + (year - 1) / 4 - (year - 1) / 100 + (year - 1) / 400
  }

  function DaysBeforeMonth(year: int, month: int): int
    requires 1 <= month <= 13
    decreases month
  {
    if month == 1 then 0 else DaysBeforeMonth(year, month - 1) + DaysInMonth(year, month - 1)
  }

  const EPOCH_DAY := 719162

  /** Days since 1970-01-01. */
  function DayNumber(d: Date): int
    requires 1 <= d.month <= 12
  {
    DaysBeforeYear(d.year) + DaysBeforeMonth(d.year, d.month) + d.day - 1 - EPOCH_DAY
  }

  lemma {:induction false} YearLength(year: int)
    ensures DaysBeforeYear(year + 1) - DaysBeforeYear(year) == 365 + (if IsLeap(year) then 1 else 0)
    ensures DaysBeforeMonth(year, 13) == 365 + (if IsLeap(year) then 1 else 0)
  {
    StepDiv(year, 4);
    StepDiv(year, 100);
    StepDiv(year, 400);
    MonthsOfTheYear(year);
  }

  lemma {:induction false} StepDiv(y: int, n: int)
    requires n > 1
    ensures y / n - (y - 1) / n == if y % n == 0 then 1 else 0
  {
    var q, r := y / n, y % n;
    assert y == n * q + r;
    if r == 0 {
      assert y - 1 == n * (q - 1) + (n - 1);
      DivIs(y - 1, n, q - 1, n - 1);
    } else {
      DivIs(y - 1, n, q, r - 1);
    }
  }

  lemma {:induction false} DivIs(y: int, n: int, q: int, r: int)
    requires n > 0 && y == n * q + r && 0 <= r < n
    ensures y / n == q && y % n == r
  {
    assert n * (y / n - q) == r - y % n;
    Scaled(n, y / n - q);
  }

  lemma {:induction false} MonthsOfTheYear(year: int)
    ensures DaysBeforeMonth(year, 13) == 365 + (if IsLeap(year) then 1 else 0)
  {
    assert DaysBeforeMonth(year, 4) == 90 + (if IsLeap(year) then 1 else 0);
    assert DaysBeforeMonth(year, 7) == DaysBeforeMonth(year, 4) + 91;
    assert DaysBeforeMonth(year, 10) == DaysBeforeMonth(year, 7) + 92;
    assert DaysBeforeMonth(year, 13) == DaysBeforeMonth(year, 10) + 92;
  }

  lemma {:induction false} MonthsGrow(year: int, m: int, n: int)
    requires 1 <= m < n <= 13
    ensures DaysBeforeMonth(year, m) + DaysInMonth(year, m) <= DaysBeforeMonth(year, n)
    decreases n
  {
    if m < n - 1 {
      MonthsGrow(year, m, n - 1);
    }
  }

  lemma {:induction false} YearsGrow(y: int, z: int)
    requires y < z
    ensures DaysBeforeYear(y) + 365 + (if IsLeap(y) then 1 else 0) <= DaysBeforeYear(z)
    decreases z - y
  {
    YearLength(z - 1);
    if y < z - 1 {
      YearsGrow(y, z - 1);
    }
  }

  lemma {:induction false} BeforeIsEarlier(a: Date, b: Date)
    requires IsDate(a) && IsDate(b) && Before(a, b)
    ensures DayNumber(a) < DayNumber(b)
  {
    if a.year == b.year {
      if a.month < b.month {
        MonthsGrow(a.year, a.month, b.month);
      }
    } else {
      YearsGrow(a.year, b.year);
      MonthsOfTheYear(a.year);
      MonthsGrow(a.year, a.month, 13);
      if b.month > 1 {
        MonthsGrow(b.year, 1, b.month);
      }
    }
  }

  /** Day numbers order dates as their ISO texts do, and tell them apart. */
  lemma {:induction false} OrderIsByDayNumber(a: Date, b: Date)
    requires IsDate(a) && IsDate(b)
    ensures Before(a, b) <==> DayNumber(a) < DayNumber(b)
    ensures a == b <==> DayNumber(a) == DayNumber(b)
  {
    if Before(a, b) {
      BeforeIsEarlier(a, b);
    } else if Before(b, a) {
      BeforeIsEarlier(b, a);
    }
  }

  // ----- adding days and months -----

  /** The first of the month after `d`'s. */
  function FirstOfNext(d: Date): (r: Date)
    requires IsDate(d)
    ensures IsDate(r)
  {
    if d.month == 12 then Date(d.year + 1, 1, 1) else Date(d.year, d.month + 1, 1)
  }

  /** `n` days on, as setUTCDate carries an overflowing day into the months after. */
  function PlusDays(d: Date, n: nat): (r: Date)
    requires IsDate(d)
    ensures IsDate(r)
    decreases n
  {
    var left := DaysInMonth(d.year, d.month) - d.day;
    if n <= left then d.(day := d.day + n) else PlusDays(FirstOfNext(d), n - left - 1)
  }

  lemma {:induction false} FirstOfNextIsNext(d: Date)
    requires IsDate(d)
    ensures DayNumber(FirstOfNext(d)) == DayNumber(d) + DaysInMonth(d.year, d.month) - d.day + 1
  {
    if d.month == 12 {
      YearLength(d.year);
      assert DaysBeforeMonth(d.year, 13) == DaysBeforeMonth(d.year, 12) + 31;
    }
  }

  lemma {:induction false} PlusDaysCounts(d: Date, n: nat)
    requires IsDate(d)
    ensures DayNumber(PlusDays(d, n)) == DayNumber(d) + n
    decreases n
  {
    var left := DaysInMonth(d.year, d.month) - d.day;
    if n > left {
      PlusDaysCounts(FirstOfNext(d), n - left - 1);
      FirstOfNextIsNext(d);
    }
  }

  /** Months since year 0. */
  function MonthIndex(d: Date): int {
    12 * d.year + d.month - 1
  }

  function Least(a: int, b: int): int {
    if a <= b then a else b
  }

  /** The same day `n` months on, or the last day of that month if it is shorter. */
  function PlusMonths(d: Date, n: nat): (r: Date)
    requires IsDate(d)
    ensures IsDate(r) && MonthIndex(r) == MonthIndex(d) + n
    ensures r.day == Least(d.day, DaysInMonth(r.year, r.month))
  {
    var index := MonthIndex(d) + n;
    var year, month := index / 12, index % 12 + 1;
    Date(year, month, Least(d.day, DaysInMonth(year, month)))
  }

  /** A date in a later month is a later date. */
  lemma {:induction false} LaterMonthIsLater(a: Date, b: Date)
    requires IsDate(a) && IsDate(b) && MonthIndex(a) < MonthIndex(b)
    ensures Before(a, b)
  {
  }

  /** A Date at midnight UTC, with the setters the source uses. */
  class UtcDate {
    var year: int
    var month: int
    var day: int

    ghost predicate Valid()
      reads this
    {
      IsDate(Date(year, month, day))
    }

    function Value(): Date
      reads this
    {
      Date(year, month, day)
    }

    constructor (d: Date)
      requires IsDate(d)
      ensures Valid() && Value() == d
    {
      year, month, day := d.year, d.month, d.day;
    }

    /** setUTCDate: a day past the end of the month carries over. */
    method SetUTCDate(n: int)
      requires Valid() && n >= 1
      modifies this
      ensures Valid() && Value() == PlusDays(old(Value()).(day := 1), n - 1)
    {
      day := 1;
      var left := n - 1;
      ghost var first := Value();
      while left > DaysInMonth(year, month) - 1
        invariant Valid() && day == 1 && left >= 0
        invariant PlusDays(Value(), left) == PlusDays(first, n - 1)
        decreases left
      {
        left := left - DaysInMonth(year, month);
        if month == 12 {
          year, month := year + 1, 1;
        } else {
          month := month + 1;
        }
      }
      day := 1 + left;
    }

    /** setUTCMonth, counted from 0 for January: months past December carry over. */
    method SetUTCMonth(m: int)
      requires Valid() && day == 1
      modifies this
      ensures Valid() && day == 1 && MonthIndex(Value()) == 12 * old(year) + m
    {
      year, month := year + m / 12, m % 12 + 1;
    }

    /** Adding days to the day of the month is adding days to the date. */
    method AddDays(n: nat)
      requires Valid()
      modifies this
      ensures Valid() && Value() == PlusDays(old(Value()), n)
    {
      ghost var was := Value();
      SetUTCDate(day + n);
      PlusDaysFromFirst(was, n);
    }

    /** `addMonths`: to the first of the month, on by `months`, and back to the day or the month's last. */
    method AddMonths(months: nat)
      requires Valid()
      modifies this
      ensures Valid() && Value() == PlusMonths(old(Value()), months)
    {
      var before := day;
      SetUTCDate(1);
      SetUTCMonth(month - 1 + months);
      SetUTCDate(Least(before, DaysInMonth(year, month)));
    }
  }

  lemma {:induction false} PlusDaysFromFirst(d: Date, n: nat)
    requires IsDate(d)
    ensures PlusDays(d.(day := 1), d.day - 1 + n) == PlusDays(d, n)
  {
  }

  /** The Gregorian calendar, and the day numbers counted from 1970-01-01. */
  lemma {:induction false} CalendarIs(year: int)
    ensures IsLeap(year) <==> year % 4 == 0 && (year % 100 != 0 || year % 400 == 0)
    ensures DaysInMonth(year, 2) == if IsLeap(year) then 29 else 28
    ensures forall month :: month in {4, 6, 9, 11} ==> DaysInMonth(year, month) == 30
    ensures forall month :: month in {1, 3, 5, 7, 8, 10, 12} ==> DaysInMonth(year, month) == 31
    ensures DayNumber(Date(1970, 1, 1)) == 0
  {
  }
}
