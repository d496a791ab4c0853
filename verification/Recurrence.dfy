/** Service dates: src/modules/maintenance/recurrence.ts. */
module Recurrence {
  import opened Calendar

  datatype Cadence = Daily | Weekly | Biweekly | Monthly | Quarterly | Biannual | Annual

  /** Days of a cadence counted in days, and 0 for one counted in months. */
  function StepDays(c: Cadence): nat {
    match c
    case Daily => 1
    case Weekly => 7
    case Biweekly => 14
    case _ => 0
  }

  function StepMonths(c: Cadence): nat {
    match c
    case Monthly => 1
    case Quarterly => 3
    case Biannual => 6
    case Annual => 12
    case _ => 0
  }

  function Advanced(d: Date, c: Cadence): (r: Date)
    requires IsDate(d)
    ensures IsDate(r)
  {
    if StepDays(c) > 0 then PlusDays(d, StepDays(c)) else PlusMonths(d, StepMonths(c))
  }

  method AdvanceServiceDate(from: Date, c: Cadence) returns (next: Date)
    requires IsDate(from)
    ensures next == Advanced(from, c)
  {
    var date := new UtcDate(from);
    match c {
      case Daily => date.AddDays(1);
      case Weekly => date.AddDays(7);
      case Biweekly => date.AddDays(14);
      case Monthly => date.AddMonths(1);
      case Quarterly => date.AddMonths(3);
      case Biannual => date.AddMonths(6);
      case Annual => date.AddMonths(12);
    }
    next := date.Value();
  }

  /** How far each cadence goes: so many days, or so many calendar months. */
  lemma {:induction false} CadencesGo(d: Date, c: Cadence)
    requires IsDate(d)
    ensures var next := Advanced(d, c);
            var days, months := DayNumber(next) - DayNumber(d), 12 * (next.year - d.year) + next.month - d.month;
            match c
            case Daily => days == 1
            case Weekly => days == 7
            case Biweekly => days == 14
            case Monthly => months == 1
            case Quarterly => months == 3
            case Biannual => months == 6
            case Annual => months == 12
  {
    StepIsLater(d, c);
  }

  /**
   * A step is a later date: so many days on, or the k-th next calendar month,
   * with none skipped, on a day no later than before.
   */
  lemma {:induction false} StepIsLater(d: Date, c: Cadence)
    requires IsDate(d)
    ensures Before(d, Advanced(d, c)) && DayNumber(d) < DayNumber(Advanced(d, c))
    ensures StepDays(c) > 0 ==> DayNumber(Advanced(d, c)) == DayNumber(d) + StepDays(c)
    ensures StepDays(c) == 0 ==>
              && MonthIndex(Advanced(d, c)) == MonthIndex(d) + StepMonths(c)
              && Advanced(d, c).day <= d.day
              && (Advanced(d, c).day < d.day ==> Advanced(d, c).day == DaysInMonth(Advanced(d, c).year, Advanced(d, c).month))
  {
    PlusDaysCounts(d, StepDays(c));
    if StepDays(c) == 0 {
      LaterMonthIsLater(d, Advanced(d, c));
    }
    OrderIsByDayNumber(d, Advanced(d, c));
  }

  /** The service date `n` intervals after `d`. */
  function Chain(d: Date, c: Cadence, n: nat): (r: Date)
    requires IsDate(d)
    ensures IsDate(r)
  {
    if n == 0 then d else Advanced(Chain(d, c, n - 1), c)
  }

  lemma {:induction false} ChainStep(d: Date, c: Cadence, n: nat)
    requires IsDate(d)
    ensures Chain(d, c, 0) == d && Chain(d, c, n + 1) == Advanced(Chain(d, c, n), c)
  {
  }

  lemma {:induction false} ChainGrows(d: Date, c: Cadence, m: nat, n: nat)
    requires IsDate(d) && m < n
    ensures Before(Chain(d, c, m), Chain(d, c, n))
  {
    StepIsLater(Chain(d, c, n - 1), c);
    if m < n - 1 {
      ChainGrows(d, c, m, n - 1);
      Later(Chain(d, c, m), Chain(d, c, n - 1), Chain(d, c, n));
    }
  }

  lemma {:induction false} Later(a: Date, b: Date, d: Date)
    requires Before(a, b) && Before(b, d)
    ensures Before(a, d)
  {
  }

  /** The `n`-th date of the chain is the first one strictly after the visit. */
  ghost predicate IsNextVisit(scheduled: Date, visited: Date, c: Cadence, n: nat)
    requires IsDate(scheduled)
  {
    && n >= 1 && Before(visited, Chain(scheduled, c, n))
    && forall k :: 1 <= k < n ==> !Before(visited, Chain(scheduled, c, k))
  }

  /** How far the catch-up loop has to go, on a scale that orders dates. */
  function Rank(d: Date): int {
    372 * d.year + 31 * d.month + d.day
  }

  lemma {:induction false} CatchesUp(next: Date, visited: Date, c: Cadence)
    requires IsDate(next) && IsDate(visited) && !Before(visited, next)
    ensures Rank(next) <= Rank(visited) && Rank(next) < Rank(Advanced(next, c))
  {
    StepIsLater(next, c);
  }

  /** `nextServiceDateAfter` ends, on the first date of the chain strictly after the visit. */
  method NextServiceDateAfter(scheduled: Date, visited: Date, c: Cadence) returns (next: Date)
    requires IsDate(scheduled) && IsDate(visited)
    ensures exists n: nat :: IsNextVisit(scheduled, visited, c, n) && next == Chain(scheduled, c, n)
  {
    ghost var steps := 1;
    next := AdvanceServiceDate(scheduled, c);
    ChainStep(scheduled, c, 0);
    while !Before(visited, next)
      invariant steps >= 1 && IsDate(next) && next == Chain(scheduled, c, steps)
      invariant forall k :: 1 <= k < steps ==> !Before(visited, Chain(scheduled, c, k))
      decreases Rank(visited) - Rank(next)
    {
      CatchesUp(next, visited, c);
      ChainStep(scheduled, c, steps);
      next := AdvanceServiceDate(next, c);
      steps := steps + 1;
    }
  }

  /** There is only one such date, so the method returns no other. */
  lemma {:induction false} NextVisitIsOne(scheduled: Date, visited: Date, c: Cadence, m: nat, n: nat)
    requires IsDate(scheduled) && IsNextVisit(scheduled, visited, c, m) && IsNextVisit(scheduled, visited, c, n)
    ensures m == n
  {
    assert Before(visited, Chain(scheduled, c, m)) && Before(visited, Chain(scheduled, c, n));
  }

  /** It is one step on from a date that was not late enough, or from the schedule itself. */
  lemma {:induction false} NextVisitMeans(scheduled: Date, visited: Date, c: Cadence, n: nat) returns (last: Date)
    requires IsDate(scheduled) && IsNextVisit(scheduled, visited, c, n)
    ensures IsDate(last) && Chain(scheduled, c, n) == Advanced(last, c)
    ensures last == scheduled || !Before(visited, last)
    ensures Before(visited, Chain(scheduled, c, n))
  {
    ChainStep(scheduled, c, n - 1);
    last := Chain(scheduled, c, n - 1);
  }

  // ----- the chain of a monthly cadence -----

  function LengthAt(monthIndex: int): int {
    DaysInMonth(monthIndex / 12, monthIndex % 12 + 1)
  }

  /** The month `n` steps after `d`'s. */
  function MonthAfter(d: Date, step: nat, n: nat): int {
    if n == 0 then MonthIndex(d) else MonthAfter(d, step, n - 1) + step
  }

  lemma {:induction false} MonthAfterIs(d: Date, step: nat, n: nat)
    ensures MonthAfter(d, step, n) == MonthIndex(d) + n * step
  {
    if n > 0 {
      MonthAfterIs(d, step, n - 1);
      assert (n - 1) * step + step == n * step;
    }
  }

  /** The day the chain can still hold after `n` steps: the least of its own and those months' lengths. */
  function LowDay(d: Date, step: nat, n: nat): int {
    if n == 0 then d.day else Least(LowDay(d, step, n - 1), LengthAt(MonthAfter(d, step, n)))
  }

  lemma {:induction false} MonthStep(d: Date, c: Cadence, index: int)
    requires IsDate(d) && StepDays(c) == 0 && MonthIndex(d) == index
    ensures var r := Advanced(d, c);
            MonthIndex(r) == index + StepMonths(c) && r.day == Least(d.day, LengthAt(index + StepMonths(c)))
  {
    var r := Advanced(d, c);
    assert MonthIndex(r) / 12 == r.year && MonthIndex(r) % 12 == r.month - 1;
  }

  lemma {:induction false} ChainMonths(d: Date, c: Cadence, n: nat)
    requires IsDate(d) && StepDays(c) == 0
    ensures MonthIndex(Chain(d, c, n)) == MonthAfter(d, StepMonths(c), n)
    ensures Chain(d, c, n).day == LowDay(d, StepMonths(c), n)
  {
    if n > 0 {
      ChainMonths(d, c, n - 1);
      ChainStep(d, c, n - 1);
      MonthStep(Chain(d, c, n - 1), c, MonthAfter(d, StepMonths(c), n - 1));
    }
  }

  lemma {:induction false} LowDayIsLeast(d: Date, step: nat, n: nat)
    ensures LowDay(d, step, n) <= d.day
    ensures forall k :: 1 <= k <= n ==> LowDay(d, step, n) <= LengthAt(MonthAfter(d, step, k))
  {
    if n > 0 {
      LowDayIsLeast(d, step, n - 1);
    }
  }

  /** And it is the day the chain began on, or the length of a month on the way. */
  lemma {:induction false} LowDayIsReached(d: Date, step: nat, n: nat) returns (k: nat)
    ensures k <= n && LowDay(d, step, n) == if k == 0 then d.day else LengthAt(MonthAfter(d, step, k))
  {
    k := 0;
    if n > 0 {
      k := LowDayIsReached(d, step, n - 1);
      if LowDay(d, step, n) != LowDay(d, step, n - 1) {
        k := n;
      }
    }
  }

  lemma {:induction false} MonthsOn(d: Date, months: nat)
    requires IsDate(d)
    ensures PlusMonths(d, months).day == Least(d.day, LengthAt(MonthIndex(d) + months))
  {
  }

  lemma {:induction false} SameMonthSameDay(a: Date, b: Date)
    requires IsDate(a) && IsDate(b) && MonthIndex(a) == MonthIndex(b)
    ensures a == b <==> a.day == b.day
  {
  }

  /**
   * Month ends drift: a day lost to a short month never comes back. The chain
   * is on the day its scheduled date would have, exactly when no month on the
   * way is too short for that day.
   */
  lemma {:induction false} ChainKeepsItsDayIff(d: Date, c: Cadence, n: nat)
    requires IsDate(d) && StepDays(c) == 0
    ensures Chain(d, c, n) == PlusMonths(d, n * StepMonths(c)) <==>
              (forall k :: 1 <= k < n ==> PlusMonths(d, n * StepMonths(c)).day <= LengthAt(MonthAfter(d, StepMonths(c), k)))
  {
    var step, target := StepMonths(c), PlusMonths(d, n * StepMonths(c));
    ChainMonths(d, c, n);
    MonthAfterIs(d, step, n);
    MonthsOn(d, n * step);
    SameMonthSameDay(Chain(d, c, n), target);
    LowDayIsLeast(d, step, n);
    var k := LowDayIsReached(d, step, n);
    if n == 0 {
      assert target.day <= d.day;
    }
  }

  /** A 31 January served every month is on 28 or 29 March two steps later. */
  lemma {:induction false} JanuaryDrifts(year: int)
    ensures Chain(Date(year, 1, 31), Monthly, 2) == Date(year, 3, DaysInMonth(year, 2))
  {
    var d := Date(year, 1, 31);
    assert MonthIndex(d) + 1 == 12 * year + 1;
    assert (12 * year + 1) / 12 == year && (12 * year + 1) % 12 == 1;
    assert Chain(d, Monthly, 0) == d;
    assert Chain(d, Monthly, 1) == Date(year, 2, DaysInMonth(year, 2));
    assert (12 * year + 2) / 12 == year && (12 * year + 2) % 12 == 2;
  }
}
