/**
 * Working days, Monday to Friday: src/common/business-time.ts. Dates are day
 * numbers (Calendar.DayNumber); day 0, 1970-01-01, was a Thursday.
 */
module WorkingDays {

  /** Date.getUTCDay, Sunday being 0. */
  function Weekday(day: int): int {
    (day + 4) % 7
  }

  predicate IsWorkingDay(day: int) {
    Weekday(day) != 0 && Weekday(day) != 6
  }

  /** The working days after `from`, up to and including `until`. */
  function Count(from: int, until: int): nat
    decreases until - from
  {
    if until <= from then 0 else Count(from, until - 1) + (if IsWorkingDay(until) then 1 else 0)
  }

  /** What a deadline at `until` reads on `from`: never 0 once it has passed. */
  function Between(from: int, until: int): int {
    if until < from then -(if Count(until, from) > 1 then Count(until, from) else 1) else Count(from, until)
  }

  /** `workingDaysBetweenIso`. */
  method WorkingDaysBetween(from: int, until: int) returns (days: int)
    ensures days == Between(from, until)
    decreases if until < from then 1 else 0
  {
    if until < from {
      var passed := WorkingDaysBetween(until, from);
      return -(if passed > 1 then passed else 1);
    }
    var d, count := from, 0;
    while d < until
      invariant from <= d <= until && count == Count(from, d)
    {
      d := d + 1;
      if IsWorkingDay(d) {
        count := count + 1;
      }
    }
    return count;
  }

  // ----- closed forms -----

  /** Working days since a fixed Monday: five a week, and the ones of the week begun. */
  function WorkingUpTo(day: int): int {
    5 * ((day + 3) / 7) + (if (day + 3) % 7 < 5 then (day + 3) % 7 + 1 else 5)
  }

  /** The working day with that many working days up to it. */
  function WorkingDayNumbered(count: int): int {
    7 * ((count - 1) / 5) + (count - 1) % 5 - 3
  }

  lemma {:induction false} UpToStep(day: int)
    ensures WorkingUpTo(day) == WorkingUpTo(day - 1) + (if IsWorkingDay(day) then 1 else 0)
  {
    var q, r := (day + 3) / 7, (day + 3) % 7;
    assert day + 3 == 7 * q + r;
    if r == 0 {
      assert day + 2 == 7 * (q - 1) + 6;
    } else {
      assert (day + 2) / 7 == q && (day + 2) % 7 == r - 1;
    }
  }

  /** Counting day by day is subtracting two closed forms. */
  lemma {:induction false} CountIsClosed(from: int, until: int)
    requires from <= until
    ensures Count(from, until) == WorkingUpTo(until) - WorkingUpTo(from)
    decreases until - from
  {
    if from < until {
      CountIsClosed(from, until - 1);
      UpToStep(until);
    }
  }

  lemma {:induction false} NumberedIsWorking(count: int)
    ensures IsWorkingDay(WorkingDayNumbered(count)) && WorkingUpTo(WorkingDayNumbered(count)) == count
  {
    var q, r := (count - 1) / 5, (count - 1) % 5;
    assert (7 * q + r) / 7 == q && (7 * q + r) % 7 == r;
  }

  lemma {:induction false} WorkingIsNumbered(day: int)
    requires IsWorkingDay(day)
    ensures WorkingDayNumbered(WorkingUpTo(day)) == day
  {
    var q, r := (day + 3) / 7, (day + 3) % 7;
    assert day + 3 == 7 * q + r && r < 5;
    assert (5 * q + r) / 5 == q && (5 * q + r) % 5 == r;
  }

  lemma {:induction false} UpToGrows(a: int, b: int)
    requires a <= b
    ensures WorkingUpTo(a) <= WorkingUpTo(b)
    ensures IsWorkingDay(b) && a < b ==> WorkingUpTo(a) < WorkingUpTo(b)
    decreases b - a
  {
    if a < b {
      UpToGrows(a, b - 1);
      UpToStep(b);
    }
  }

  /** `days` working days on; `from` itself is day zero. */
  function Added(from: int, days: int): int {
    if days <= 0 then from else WorkingDayNumbered(WorkingUpTo(from) + days)
  }

  lemma {:induction false} AddedIsLater(from: int, days: int)
    requires days > 0
    ensures from < Added(from, days) && IsWorkingDay(Added(from, days))
    ensures WorkingUpTo(Added(from, days)) == WorkingUpTo(from) + days
  {
    NumberedIsWorking(WorkingUpTo(from) + days);
    if Added(from, days) <= from {
      UpToGrows(Added(from, days), from);
    }
  }

  /** `addWorkingDaysIso`: it ends, on the closed form. */
  method AddWorkingDays(from: int, days: int) returns (d: int)
    ensures d == Added(from, days)
  {
    d := from;
    var left := days;
    ghost var target := Added(from, days);
    if days > 0 {
      AddedIsLater(from, days);
    }
    while left > 0
      invariant d <= target && (left <= 0 ==> d == target)
      invariant left > 0 ==> d < target && WorkingUpTo(d) + left == WorkingUpTo(target) && IsWorkingDay(target)
      decreases target - d
    {
      UpToStep(d + 1);
      d := d + 1;
      if IsWorkingDay(d) {
        left := left - 1;
        if left == 0 {
          WorkingIsNumbered(d);
          WorkingIsNumbered(target);
        }
      }
    }
  }

  // ----- the two are inverse -----

  lemma {:induction false} CountingWhatWasAdded(from: int, days: nat)
    ensures Between(from, Added(from, days)) == days
  {
    if days > 0 {
      AddedIsLater(from, days);
      CountIsClosed(from, Added(from, days));
    }
  }

  lemma {:induction false} AddingWhatWasCounted(from: int, until: int)
    requires from <= until && IsWorkingDay(until)
    ensures Added(from, Between(from, until)) == until
  {
    CountIsClosed(from, until);
    UpToGrows(from, until);
    WorkingIsNumbered(until);
  }

  lemma {:induction false} AddingTwice(from: int, m: nat, n: nat)
    ensures Added(Added(from, m), n) == Added(from, m + n)
  {
    if m > 0 {
      AddedIsLater(from, m);
    }
  }

  /** Adjacent spans add up. */
  lemma {:induction false} CountingIsAdditive(a: int, b: int, c: int)
    requires a <= b <= c
    ensures Between(a, b) + Between(b, c) == Between(a, c)
  {
    CountIsClosed(a, b);
    CountIsClosed(b, c);
    CountIsClosed(a, c);
  }

  /** The sign: negative exactly once the date has passed, and 0 exactly while no working day is left before it. */
  lemma {:induction false} SignOfBetween(from: int, until: int)
    ensures Between(from, until) < 0 <==> until < from
    ensures Between(from, until) == 0 <==> from <= until && NoneWorked(from, until)
    ensures IsWorkingDay(until) ==> (Between(from, until) == 0 <==> from == until)
  {
    if from <= until {
      NothingCounted(from, until);
    }
  }

  /** A passed date reads as many days back as it read ahead, and one at least. */
  lemma {:induction false} PassedDates(from: int, until: int)
    requires until < from
    ensures Between(from, until) == if Between(until, from) > 0 then -Between(until, from) else -1
  {
  }

  /** No working day after `from`, up to and including `until`. */
  predicate NoneWorked(from: int, until: int) {
    forall d :: from < d <= until ==> !IsWorkingDay(d)
  }

  lemma {:induction false} NothingCounted(from: int, until: int)
    requires from <= until
    ensures Count(from, until) == 0 <==> NoneWorked(from, until)
    decreases until - from
  {
    if from < until {
      NothingCounted(from, until - 1);
      if NoneWorked(from, until) {
        assert !IsWorkingDay(until);
        forall d | from < d <= until - 1 ensures !IsWorkingDay(d) {
        }
      } else {
        var d :| from < d <= until && IsWorkingDay(d);
        assert d <= until - 1 ==> !NoneWorked(from, until - 1);
      }
    }
  }

  /** Day 0 is a Thursday, and the days off are the two after every Friday. */
  lemma {:induction false} WeekdaysAre(day: int)
    ensures Weekday(0) == 4 && Weekday(day + 7) == Weekday(day) && 0 <= Weekday(day) < 7
    ensures Weekday(day + 1) == if Weekday(day) == 6 then 0 else Weekday(day) + 1
    ensures IsWorkingDay(day) <==> 1 <= Weekday(day) <= 5
  {
  }
}
