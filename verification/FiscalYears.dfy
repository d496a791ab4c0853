/** Fiscal years: src/common/fiscal-year.ts. */
module FiscalYears {
  import opened Calendar

  /** The boundary 'MM-DD' a tenant's year starts on. */
  datatype Boundary = Boundary(month: int, day: int)

  /** A day of the calendar in leap years at least. */
  predicate IsBoundary(b: Boundary) {
    1 <= b.month <= 12 && 1 <= b.day <= if b.month == 2 then 29 else DaysInMonth(1, b.month)
  }

  /** A boundary is a day of some year. */
  lemma {:induction false} BoundaryIff(b: Boundary)
    ensures IsBoundary(b) <==> exists year :: IsDate(Date(year, b.month, b.day))
  {
    if IsBoundary(b) {
      assert IsDate(Date(2000, b.month, b.day));
    }
  }

  /** `start` is text and may name a day that year does not have; `end` is a real date. */
  datatype FiscalYear = FiscalYear(start: Date, end: Date, startYear: int)

  predicate FromBoundaryOn(d: Date, b: Boundary) {
    d.month > b.month || (d.month == b.month && d.day >= b.day)
  }

  function StartYear(d: Date, b: Boundary): int {
    if FromBoundaryOn(d, b) then d.year else d.year - 1
  }

  /** Date.UTC carries a day past the end of its month into the next. */
  function UtcOf(year: int, b: Boundary): (r: Date)
    requires IsBoundary(b)
    ensures IsDate(r)
  {
    if b.day <= DaysInMonth(year, b.month) then Date(year, b.month, b.day) else Date(year, 3, 1)
  }

  function DayBefore(d: Date): (r: Date)
    requires IsDate(d)
    ensures IsDate(r)
  {
    if d.day > 1 then d.(day := d.day - 1)
    else if d.month == 1 then Date(d.year - 1, 12, 31)
    else Date(d.year, d.month - 1, DaysInMonth(d.year, d.month - 1))
  }

  lemma {:induction false} NewYearsEve(year: int)
    ensures DayNumber(Date(year - 1, 12, 31)) == DayNumber(Date(year, 1, 1)) - 1
  {
    YearLength(year - 1);
    assert DaysBeforeMonth(year - 1, 13) == DaysBeforeMonth(year - 1, 12) + 31;
  }

  lemma {:induction false} FirstOfTheMonth(year: int, month: int)
    requires 1 < month <= 12
    ensures DayNumber(Date(year, month - 1, DaysInMonth(year, month - 1))) == DayNumber(Date(year, month, 1)) - 1
  {
  }

  lemma {:induction false} DayBeforeIsOneLess(d: Date)
    requires IsDate(d)
    ensures DayNumber(DayBefore(d)) == DayNumber(d) - 1
  {
    if d.day == 1 {
      if d.month == 1 {
        NewYearsEve(d.year);
      } else {
        FirstOfTheMonth(d.year, d.month);
      }
    }
  }

  function ComputeFiscalYear(d: Date, b: Boundary): FiscalYear
    requires IsBoundary(b)
  {
    var startYear := StartYear(d, b);
    FiscalYear(Date(startYear, b.month, b.day), DayBefore(UtcOf(startYear + 1, b)), startYear)
  }

  predicate Within(d: Date, y: FiscalYear) {
    !Before(d, y.start) && !Before(y.end, d)
  }

  /** A date lies within its own fiscal year and within no other date's: the years partition the calendar. */
  lemma {:induction false} YearsPartitionDates(d: Date, other: Date, b: Boundary)
    requires IsDate(d) && IsDate(other) && IsBoundary(b)
    ensures Within(d, ComputeFiscalYear(other, b)) <==> ComputeFiscalYear(d, b) == ComputeFiscalYear(other, b)
    ensures Within(d, ComputeFiscalYear(d, b))
  {
    EndIsBeforeNextStart(d, StartYear(other, b) + 1, b);
    EndIsBeforeNextStart(d, StartYear(d, b) + 1, b);
  }

  /** No date falls between a year's last day and the next year's start, and none is in both. */
  lemma {:induction false} EndIsBeforeNextStart(d: Date, year: int, b: Boundary)
    requires IsDate(d) && IsBoundary(b)
    ensures Before(DayBefore(UtcOf(year, b)), d) <==> !Before(d, Date(year, b.month, b.day))
  {
    var next := UtcOf(year, b);
    DayBeforeIsOneLess(next);
    OrderIsByDayNumber(DayBefore(next), d);
    OrderIsByDayNumber(d, next);
    assert Before(d, next) <==> Before(d, Date(year, b.month, b.day));
  }

  /** The year starts on a real date for every year exactly when the boundary is not 29 February. */
  lemma {:induction false} StartExistsIff(b: Boundary)
    requires IsBoundary(b)
    ensures (forall year: int :: IsDate(Date(year, b.month, b.day))) <==> b != Boundary(2, 29)
  {
    if b == Boundary(2, 29) {
      assert !IsLeap(2023);
      assert !IsDate(Date(2023, 2, 29));
    }
  }

  /** With such a boundary the years tile the calendar: each starts the day after the one before it ends. */
  lemma {:induction false} YearsTile(d: Date, b: Boundary)
    requires IsDate(d) && IsBoundary(b) && b != Boundary(2, 29)
    ensures var y := ComputeFiscalYear(d, b);
            && IsDate(y.start) && IsDate(y.end)
            && DayNumber(y.end) + 1 == DayNumber(Date(y.startYear + 1, b.month, b.day))
            && ComputeFiscalYear(Date(y.startYear + 1, b.month, b.day), b).startYear == y.startYear + 1
            && ComputeFiscalYear(y.end, b) == y
  {
    StartExistsIff(b);
    var startYear := StartYear(d, b);
    assert IsDate(Date(startYear, b.month, b.day)) && IsDate(Date(startYear + 1, b.month, b.day));
    DayBeforeIsOneLess(UtcOf(startYear + 1, b));
    var y := ComputeFiscalYear(d, b);
    EndIsBeforeNextStart(y.end, startYear + 1, b);
    EndIsBeforeNextStart(Date(startYear, b.month, b.day), startYear + 1, b);
    YearsPartitionDates(y.end, d, b);
    OrderIsByDayNumber(y.start, Date(startYear + 1, b.month, b.day));
    OrderIsByDayNumber(y.end, y.start);
  }
}
