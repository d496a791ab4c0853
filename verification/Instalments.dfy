/**
 * Payment schedules: src/modules/contracts/instalment-schedule.ts. Amounts are
 * in cents and percentages in hundredths of a percent, so 100% is 10000.
 */
module Instalments {
  import opened Wrappers
  import opened Sums
  import opened Rounding

  datatype PercentTerm = PercentTerm(caption: string, percent: nat)

  datatype ScheduleLine = ScheduleLine(caption: string, amount: int)

  const WHOLE := 10000

  function Total(lines: seq<ScheduleLine>): int {
    if lines == [] then 0 else Total(lines[..|lines| - 1]) + lines[|lines| - 1].amount
  }

  function PercentTotal(terms: seq<PercentTerm>): nat {
    if terms == [] then 0 else PercentTotal(terms[..|terms| - 1]) + terms[|terms| - 1].percent
  }

  /** `scheduleMismatchReason` gives no reason: empty, or adding up exactly. */
  predicate MaySave(lines: seq<ScheduleLine>, value: int) {
    lines == [] || Total(lines) == value
  }

  // ----- percentages to amounts -----

  /** A percentage of the value, rounded to the cent. */
  function Share(value: int, percent: nat): int {
    RoundRatio(value * percent, WHOLE)
  }

  function Shares(terms: seq<PercentTerm>, value: int): (lines: seq<ScheduleLine>)
    ensures |lines| == |terms|
    ensures forall k :: 0 <= k < |terms| ==> lines[k] == ScheduleLine(terms[k].caption, Share(value, terms[k].percent))
  {
    seq(|terms|, k requires 0 <= k < |terms| => ScheduleLine(terms[k].caption, Share(value, terms[k].percent)))
  }

  /** The first of the largest percentages. */
  predicate IsLargest(terms: seq<PercentTerm>, at: nat) {
    && at < |terms|
    && (forall k :: 0 <= k < |terms| ==> terms[k].percent <= terms[at].percent)
    && (forall k :: 0 <= k < at ==> terms[k].percent < terms[at].percent)
  }

  function Largest(terms: seq<PercentTerm>): (at: nat)
    requires terms != []
    ensures IsLargest(terms, at)
  {
    if |terms| == 1 then 0
    else
      var rest := 1 + Largest(terms[1..]);
      if terms[rest].percent > terms[0].percent then rest else 0
  }

  method LargestTerm(terms: seq<PercentTerm>) returns (best: nat)
    requires terms != []
    ensures best == Largest(terms)
  {
    best := 0;
    var i := 1;
    while i < |terms|
      invariant 1 <= i <= |terms| && best < i
      invariant forall k :: 0 <= k < i ==> terms[k].percent <= terms[best].percent
      invariant forall k :: 0 <= k < best ==> terms[k].percent < terms[best].percent
    {
      if terms[i].percent > terms[best].percent {
        best := i;
      }
      i := i + 1;
    }
  }

  /** The first `n` lines without the one at `skip`. */
  function Others(lines: seq<ScheduleLine>, skip: nat, n: nat): int
    requires n <= |lines|
  {
    if n == 0 then 0
    else Others(lines, skip, n - 1) + (if n - 1 == skip then 0 else lines[n - 1].amount)
  }

  /** The schedule of a proforma's percentages: none unless they make a whole. */
  function FromPercents(terms: seq<PercentTerm>, value: int): Option<seq<ScheduleLine>> {
    if terms == [] || PercentTotal(terms) != WHOLE then None else Some(WithResidual(terms, value, Largest(terms)))
  }

  method SumPercents(terms: seq<PercentTerm>) returns (sum: nat)
    ensures sum == PercentTotal(terms)
  {
    sum := 0;
    var i := 0;
    while i < |terms|
      invariant 0 <= i <= |terms| && sum == PercentTotal(terms[..i])
    {
      assert terms[..i + 1][..i] == terms[..i];
      sum := sum + terms[i].percent;
      i := i + 1;
    }
    assert terms[..|terms|] == terms;
  }

  method SumOthers(lines: seq<ScheduleLine>, largest: nat) returns (others: int)
    ensures others == Others(lines, largest, |lines|)
  {
    others := 0;
    var k := 0;
    while k < |lines|
      invariant 0 <= k <= |lines| && others == Others(lines, largest, k)
    {
      if k != largest {
        others := others + lines[k].amount;
      }
      k := k + 1;
    }
  }

  /** `instalmentsFromPercents`. */
  method InstalmentsFromPercents(terms: seq<PercentTerm>, value: int) returns (schedule: Option<seq<ScheduleLine>>)
    ensures schedule == FromPercents(terms, value)
    ensures schedule.Some? <==> terms != [] && PercentSum(terms) == 10000
    ensures schedule.Some? ==> exists at :: Schedules(schedule.value, terms, value, at)
  {
    SchedulesIff(terms, value);
    if |terms| == 0 {
      return None;
    }
    var hundred := SumPercents(terms);
    if hundred != WHOLE {
      return None;
    }
    var lines := Shares(terms, value);
    var largest := LargestTerm(terms);
    var others := SumOthers(lines, largest);
    lines := lines[largest := lines[largest].(amount := value - others)];
    return Some(lines);
  }

  /** The shares, with what rounding left over put on the line at `at`. */
  function WithResidual(terms: seq<PercentTerm>, value: int, at: nat): (lines: seq<ScheduleLine>)
    requires at < |terms|
    ensures |lines| == |terms|
  {
    var shares := Shares(terms, value);
    shares[at := shares[at].(amount := value - Others(shares, at, |shares|))]
  }

  // ----- the schedule adds up -----

  lemma {:induction false} OthersIsTheRest(lines: seq<ScheduleLine>, skip: nat, n: nat)
    requires n <= |lines|
    ensures Total(lines[..n]) == Others(lines, skip, n) + (if skip < n then lines[skip].amount else 0)
  {
    if n > 0 {
      OthersIsTheRest(lines, skip, n - 1);
      assert lines[..n][..n - 1] == lines[..n - 1];
    }
  }

  lemma {:induction false} OthersUnchanged(a: seq<ScheduleLine>, b: seq<ScheduleLine>, skip: nat, n: nat)
    requires |a| == |b| && n <= |a| && forall k :: 0 <= k < n && k != skip ==> a[k] == b[k]
    ensures Others(a, skip, n) == Others(b, skip, n)
  {
    if n > 0 {
      OthersUnchanged(a, b, skip, n - 1);
    }
  }

  lemma {:induction false} PercentsSplit(terms: seq<PercentTerm>, skip: nat, n: nat)
    requires n <= |terms|
    ensures PercentTotal(terms[..n]) == OtherPercents(terms, skip, n) + (if skip < n then terms[skip].percent else 0)
  {
    if n > 0 {
      PercentsSplit(terms, skip, n - 1);
      assert terms[..n][..n - 1] == terms[..n - 1];
    }
  }

  function OtherPercents(terms: seq<PercentTerm>, skip: nat, n: nat): nat
    requires n <= |terms|
  {
    if n == 0 then 0 else OtherPercents(terms, skip, n - 1) + (if n - 1 == skip then 0 else terms[n - 1].percent)
  }

  lemma {:induction false} ShareIsNear(value: int, percent: nat)
    ensures -5000 <= WHOLE * Share(value, percent) - value * percent <= 5000
  {
    RatioNearest(value * percent, WHOLE);
  }

  lemma {:induction false} Distributes(value: int, a: int, b: int)
    ensures value * (a + b) == value * a + value * b
  {
  }

  /** Each line but the one skipped is off by half a cent at most, so their sum is off by half a cent each. */
  lemma {:induction false} OthersAreNear(terms: seq<PercentTerm>, value: int, skip: nat, n: nat, exact: int)
    requires n <= |terms| && exact == value * OtherPercents(terms, skip, n)
    ensures var counted := if skip < n then n - 1 else n;
            -5000 * counted <= WHOLE * Others(Shares(terms, value), skip, n) - exact <= 5000 * counted
  {
    if n > 0 {
      var p, before := terms[n - 1].percent, OtherPercents(terms, skip, n - 1);
      OthersAreNear(terms, value, skip, n - 1, value * before);
      if n - 1 != skip {
        ShareIsNear(value, p);
        Distributes(value, before, p);
        assert exact == value * before + value * p;
      }
    }
  }

  lemma {:induction false} ResidualMakesTheTotal(terms: seq<PercentTerm>, value: int, at: nat)
    requires at < |terms|
    ensures Total(WithResidual(terms, value, at)) == value
  {
    var lines, shares, n := WithResidual(terms, value, at), Shares(terms, value), |terms|;
    assert lines[..n] == lines;
    OthersIsTheRest(lines, at, n);
    OthersUnchanged(lines, shares, at, n);
  }

  lemma {:induction false} ResidualIsNear(terms: seq<PercentTerm>, value: int, at: nat)
    requires at < |terms| && PercentTotal(terms) == WHOLE
    ensures var off := WHOLE * WithResidual(terms, value, at)[at].amount - value * terms[at].percent;
            -5000 * (|terms| - 1) <= off <= 5000 * (|terms| - 1)
  {
    var n, rest, p := |terms|, OtherPercents(terms, at, |terms|), terms[at].percent;
    assert terms[..n] == terms;
    PercentsSplit(terms, at, n);
    OthersAreNear(terms, value, at, n, value * rest);
    Distributes(value, rest, p);
    assert value * WHOLE == value * rest + value * p;
  }

  /**
   * The amounts add up to the contract value to the cent. Every line is its
   * exact percentage to within half a cent, but the largest, which is within
   * half a cent for every other line.
   */
  lemma {:induction false} ScheduleAddsUp(terms: seq<PercentTerm>, value: int, at: nat, k: nat)
    requires PercentTotal(terms) == WHOLE && IsLargest(terms, at) && k < |terms|
    ensures var lines := WithResidual(terms, value, at);
            var off := WHOLE * lines[k].amount - value * terms[k].percent;
            var halves := if k == at then |terms| - 1 else 1;
            && Total(lines) == value && MaySave(lines, value)
            && lines[k].caption == terms[k].caption
            && -5000 * halves <= off <= 5000 * halves
  {
    ResidualMakesTheTotal(terms, value, at);
    if k == at {
      ResidualIsNear(terms, value, at);
    } else {
      ShareIsNear(value, terms[k].percent);
    }
  }

  lemma {:induction false} OneMoreTime(n: int, percent: int)
    ensures n * percent == (n - 1) * percent + percent
  {
  }

  lemma {:induction false} LargestIsItsShare(terms: seq<PercentTerm>, at: nat, n: nat)
    requires IsLargest(terms, at) && n <= |terms|
    ensures PercentTotal(terms[..n]) <= n * terms[at].percent
  {
    if n > 0 {
      LargestIsItsShare(terms, at, n - 1);
      assert terms[..n][..n - 1] == terms[..n - 1];
      assert PercentTotal(terms[..n]) == PercentTotal(terms[..n - 1]) + terms[n - 1].percent;
      OneMoreTime(n, terms[at].percent);
    }
  }

  lemma {:induction false} ShareIsNoDebt(value: nat, percent: nat)
    ensures Share(value, percent) >= 0
  {
    assert value * percent >= 0;
    RatioNearest(value * percent, WHOLE);
  }

  /** The lines of the others are never negative, so one is exactly when the others come to more than the value. */
  lemma {:induction false} NegativeLineIff(terms: seq<PercentTerm>, value: int, at: nat)
    requires at < |terms| && value >= 0
    ensures (exists k :: 0 <= k < |terms| && WithResidual(terms, value, at)[k].amount < 0)
       <==> Others(Shares(terms, value), at, |terms|) > value
  {
    var lines := WithResidual(terms, value, at);
    forall k | 0 <= k < |terms| && k != at
      ensures lines[k].amount >= 0
    {
      ShareIsNoDebt(value, terms[k].percent);
    }
    assert lines[at].amount == value - Others(Shares(terms, value), at, |terms|);
  }

  /** No line is negative above n(n - 3)/2 cents for n lines. */
  lemma {:induction false} NoNegativeLine(terms: seq<PercentTerm>, value: int, at: nat)
    requires PercentTotal(terms) == WHOLE && IsLargest(terms, at)
    requires value >= 0 && 2 * value > |terms| * (|terms| - 3)
    ensures forall k :: 0 <= k < |terms| ==> WithResidual(terms, value, at)[k].amount >= 0
  {
    var n, p, a := |terms|, terms[at].percent, WithResidual(terms, value, at)[at].amount;
    assert terms[..n] == terms;
    LargestIsItsShare(terms, at, n);
    ScheduleAddsUp(terms, value, at, at);
    EnoughForTheLargest(n, p, value, a);
    NegativeLineIff(terms, value, at);
  }

  lemma {:induction false} EnoughForTheLargest(n: nat, p: nat, value: int, a: int)
    requires n > 0 && n * p >= WHOLE && value >= 0 && 2 * value > n * (n - 3)
    requires WHOLE * a - value * p >= -5000 * (n - 1)
    ensures a >= 0
  {
    assert n * (value * p) == value * (n * p) && value * (n * p) >= value * WHOLE;
    assert n * (WHOLE * a - value * p) >= n * (-5000 * (n - 1));
    assert n * (WHOLE * a - value * p) == WHOLE * (n * a) - n * (value * p);
    assert n * (-5000 * (n - 1)) == -5000 * (n * (n - 3)) - WHOLE * n;
    assert WHOLE * (n * a) > -WHOLE * n;
    Cancels(n, -1, a);
  }

  /** `n` equal percentages. */
  function Equal(caption: string, n: nat): seq<PercentTerm>
    requires n > 0
  {
    seq(n, _ => PercentTerm(caption, WHOLE / n))
  }

  lemma {:induction false} EqualTotals(terms: seq<PercentTerm>, lines: seq<ScheduleLine>, p: nat, share: int, n: nat)
    requires n <= |terms| && |lines| == |terms|
    requires forall k :: 0 <= k < |terms| ==> terms[k].percent == p && lines[k].amount == share
    ensures PercentTotal(terms[..n]) == n * p
    ensures n > 0 ==> Others(lines, 0, n) == (n - 1) * share
  {
    if n > 0 {
      EqualTotals(terms, lines, p, share, n - 1);
      assert terms[..n][..n - 1] == terms[..n - 1];
      Distributes(p, n - 1, 1);
      if n > 1 {
        Distributes(share, n - 2, 1);
      }
    }
  }

  lemma {:induction false} HalfUp(n: nat, p: nat, value: int, half: nat)
    requires n * p == WHOLE && 2 * value == n * (n - 3) && n == 2 * half && half >= 2
    ensures RoundRatio(value * p, WHOLE) == half - 1
  {
    var exact := value * p;
    assert 2 * exact == (2 * value) * p == (n - 3) * (n * p);
    Tie(exact, half);
  }

  lemma {:induction false} Tie(exact: int, half: nat)
    requires 2 * exact == (2 * half - 3) * WHOLE && half >= 2
    ensures RoundRatio(exact, WHOLE) == half - 1
  {
  }

  /**
   * The bound cannot be lowered: an even number of equal percentages of exactly
   * n(n - 3)/2 cents rounds every share up by half a cent and leaves -1.
   */
  lemma {:induction false} TheBoundIsTight(caption: string, n: nat, value: int)
    requires n >= 4 && n % 2 == 0 && WHOLE % n == 0 && 2 * value == n * (n - 3)
    ensures value >= 0 && PercentTotal(Equal(caption, n)) == WHOLE && IsLargest(Equal(caption, n), 0)
    ensures WithResidual(Equal(caption, n), value, 0)[0].amount == -1
  {
    var terms, p, half := Equal(caption, n), WHOLE / n, n / 2;
    assert n * p == WHOLE && n == 2 * half;
    HalfUp(n, p, value, half);
    assert terms[..n] == terms;
    EqualTotals(terms, Shares(terms, value), p, half - 1, n);
    assert 2 * ((n - 1) * (half - 1)) == n * (n - 3) + 2;
  }

  /** Two cents in four quarters. */
  lemma {:induction false} TwoCentsInFour(caption: string)
    ensures PercentTotal(Equal(caption, 4)) == WHOLE && IsLargest(Equal(caption, 4), 0)
    ensures WithResidual(Equal(caption, 4), 2, 0)[0].amount == -1
  {
    TheBoundIsTight(caption, 4, 2);
  }

  // ----- when there is a schedule, and what it says -----

  /** The percentages of all terms, in hundredths of a percent. */
  function PercentSum(terms: seq<PercentTerm>): int {
    Sum(|terms|, (k: nat) => if k < |terms| then terms[k].percent else 0)
  }

  function AmountSum(lines: seq<ScheduleLine>): int {
    Sum(|lines|, (k: nat) => if k < |lines| then lines[k].amount else 0)
  }

  lemma {:induction false} TotalsAreSums(terms: seq<PercentTerm>, lines: seq<ScheduleLine>)
    ensures PercentTotal(terms) == PercentSum(terms) && Total(lines) == AmountSum(lines)
  {
    var percents := (k: nat) => if k < |terms| then PercentTotal(terms[..k]) else PercentTotal(terms);
    forall k: nat | k < |terms|
      ensures percents(k + 1) == percents(k) + terms[k].percent
    {
      assert terms[..k + 1][..k] == terms[..k];
      assert k + 1 == |terms| ==> terms[..k + 1] == terms;
    }
    Telescopes(|terms|, percents, (k: nat) => if k < |terms| then terms[k].percent else 0);
    var totals := (k: nat) => if k < |lines| then Total(lines[..k]) else Total(lines);
    forall k: nat | k < |lines|
      ensures totals(k + 1) == totals(k) + lines[k].amount
    {
      assert lines[..k + 1][..k] == lines[..k];
      assert k + 1 == |lines| ==> lines[..k + 1] == lines;
    }
    Telescopes(|lines|, totals, (k: nat) => if k < |lines| then lines[k].amount else 0);
  }

  /**
   * A line for every term, with its caption, and amounts that come to the value:
   * each its percentage to within half a cent, and the first of the largest to
   * within half a cent for every other line.
   */
  ghost predicate Schedules(lines: seq<ScheduleLine>, terms: seq<PercentTerm>, value: int, at: nat) {
    && |lines| == |terms| && IsLargest(terms, at) && AmountSum(lines) == value
    && forall k :: 0 <= k < |terms| ==>
         var off, halves := 10000 * lines[k].amount - value * terms[k].percent, if k == at then |terms| - 1 else 1;
         && lines[k].caption == terms[k].caption && -5000 * halves <= off <= 5000 * halves
         && (k != at ==> lines[k].amount == RoundRatio(value * terms[k].percent, 10000))
  }

  /** There is a schedule exactly when there are terms and they make 100%. */
  lemma {:induction false} SchedulesIff(terms: seq<PercentTerm>, value: int)
    ensures FromPercents(terms, value).Some? <==> terms != [] && PercentSum(terms) == 10000
    ensures FromPercents(terms, value).Some? ==>
              exists at :: Schedules(FromPercents(terms, value).value, terms, value, at)
  {
    TotalsAreSums(terms, []);
    if FromPercents(terms, value).Some? {
      var lines, at := FromPercents(terms, value).value, Largest(terms);
      TotalsAreSums(terms, lines);
      forall k | 0 <= k < |terms|
        ensures var off, halves := 10000 * lines[k].amount - value * terms[k].percent, if k == at then |terms| - 1 else 1;
                lines[k].caption == terms[k].caption && -5000 * halves <= off <= 5000 * halves
        ensures Total(lines) == value
      {
        ScheduleAddsUp(terms, value, at, k);
      }
      assert Total(lines) == value by {
        ScheduleAddsUp(terms, value, at, 0);
      }
      assert Schedules(lines, terms, value, at);
    }
  }
}
