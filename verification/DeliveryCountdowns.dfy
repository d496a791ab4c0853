/** The delivery a customer was promised, and the delay penalty: src/common/delivery-countdown.ts. */
module DeliveryCountdowns {
  import opened Wrappers
  import opened Rounding
  import opened WorkingDays

  /** What the countdown reads off a signed contract; percentages are of the contract value. */
  datatype SignedDelivery = SignedDelivery(
    signedAt: int,
    deliveryDays: int,
    valueEtb: real,
    penaltyPercentPerDay: Option<real>,
    penaltyCapPercent: Option<real>)

  datatype Countdown = NoCountdown | Countdown(due: int, daysLeft: int, penaltyCents: Option<int>)

  const DEFAULT_DELAY_PENALTY_PERCENT_PER_DAY := 0.02

  /** The database keeps money and percentages at zero or more. */
  predicate IsSigned(c: SignedDelivery) {
    && c.valueEtb >= 0.0
    && (c.penaltyPercentPerDay.Some? ==> c.penaltyPercentPerDay.value >= 0.0)
    && (c.penaltyCapPercent.Some? ==> c.penaltyCapPercent.value >= 0.0)
  }

  function DueOf(c: SignedDelivery): int {
    Added(c.signedAt, c.deliveryDays)
  }

  /** The earliest promise binds; of two for the same day, the first listed. */
  function FirstDue(signed: seq<SignedDelivery>): (i: nat)
    requires signed != []
    ensures i < |signed|
    ensures forall k :: 0 <= k < |signed| ==> DueOf(signed[i]) <= DueOf(signed[k])
    ensures forall k :: 0 <= k < i ==> DueOf(signed[i]) < DueOf(signed[k])
  {
    if |signed| == 1 then 0
    else
      var rest := 1 + FirstDue(signed[1..]);
      if DueOf(signed[0]) <= DueOf(signed[rest]) then 0 else rest
  }

  function DailyPenalty(c: SignedDelivery): real {
    var percent := if c.penaltyPercentPerDay.Some? then c.penaltyPercentPerDay.value else DEFAULT_DELAY_PENALTY_PERCENT_PER_DAY;
    c.valueEtb * percent / 100.0
  }

  function CapAmount(c: SignedDelivery): real
    requires c.penaltyCapPercent.Some?
  {
    c.valueEtb * c.penaltyCapPercent.value / 100.0
  }

  function Penalty(c: SignedDelivery, daysLate: int): real {
    Accrued(DailyPenalty(c), daysLate, if c.penaltyCapPercent.None? then None else Some(CapAmount(c)))
  }

  function Accrued(daily: real, daysLate: int, cap: Option<real>): real {
    Capped(daily * daysLate as real, cap)
  }

  function Capped(uncapped: real, cap: Option<real>): real {
    if cap.None? || uncapped <= cap.value then uncapped else cap.value
  }

  function CountdownOf(signed: seq<SignedDelivery>, today: int): Countdown {
    if signed == [] then NoCountdown
    else
      var c := signed[FirstDue(signed)];
      var due := DueOf(c);
      Countdown(due, Between(today, due), if today > due then Some(Cents(Penalty(c, today - due))) else None)
  }

  /** Days left are negative exactly when a penalty is shown, and 0 on a due date only on that day. */
  lemma {:induction false} PenaltyIffOverdue(signed: seq<SignedDelivery>, today: int)
    requires signed != []
    ensures var r, c := CountdownOf(signed, today), signed[FirstDue(signed)];
            && (r.daysLeft < 0 <==> r.penaltyCents.Some?)
            && (r.penaltyCents.Some? <==> today > DueOf(c))
            && (c.deliveryDays > 0 ==> (r.daysLeft == 0 <==> today == DueOf(c)))
  {
    var c := signed[FirstDue(signed)];
    SignOfBetween(today, DueOf(c));
    if c.deliveryDays > 0 {
      AddedIsLater(c.signedAt, c.deliveryDays);
    }
  }

  /** On the day it is signed a contract has its whole delivery period left. */
  lemma {:induction false} FullPeriodOnSigning(c: SignedDelivery)
    requires c.deliveryDays >= 0
    ensures CountdownOf([c], c.signedAt) == Countdown(DueOf(c), c.deliveryDays, None)
  {
    CountingWhatWasAdded(c.signedAt, c.deliveryDays);
    if c.deliveryDays > 0 {
      AddedIsLater(c.signedAt, c.deliveryDays);
    }
    assert FirstDue([c]) == 0;
  }

  lemma {:induction false} Scales(x: real, m: real, n: real)
    requires x >= 0.0 && m <= n
    ensures x * m <= x * n
  {
    assert x * (n - m) >= 0.0;
  }

  lemma {:induction false} ProductIsNotNegative(x: real, y: real)
    requires x >= 0.0 && y >= 0.0
    ensures x * y >= 0.0
  {
  }

  lemma {:induction false} ShareIsNotNegative(x: real, percent: real)
    requires x >= 0.0 && percent >= 0.0
    ensures x * percent / 100.0 >= 0.0
  {
    ProductIsNotNegative(x, percent);
  }

  lemma {:induction false} DailyIsNotNegative(c: SignedDelivery)
    requires IsSigned(c)
    ensures DailyPenalty(c) >= 0.0
    ensures c.penaltyCapPercent.Some? ==> CapAmount(c) >= 0.0
  {
    var percent := if c.penaltyPercentPerDay.Some? then c.penaltyPercentPerDay.value else DEFAULT_DELAY_PENALTY_PERCENT_PER_DAY;
    ShareIsNotNegative(c.valueEtb, percent);
    if c.penaltyCapPercent.Some? {
      ShareIsNotNegative(c.valueEtb, c.penaltyCapPercent.value);
    }
  }

  lemma {:induction false} AccruedGrows(daily: real, m: nat, n: nat, cap: Option<real>)
    requires daily >= 0.0 && (cap.Some? ==> cap.value >= 0.0) && m <= n
    ensures 0.0 <= Accrued(daily, m, cap) <= Accrued(daily, n, cap)
  {
    var days, more := m as real, n as real;
    Scales(daily, days, more);
    ProductIsNotNegative(daily, days);
    assert Accrued(daily, m, cap) == Capped(daily * days, cap) && Accrued(daily, n, cap) == Capped(daily * more, cap);
  }

  lemma {:induction false} PenaltyGrows(c: SignedDelivery, m: nat, n: nat)
    requires IsSigned(c) && m <= n
    ensures 0.0 <= Penalty(c, m) <= Penalty(c, n)
  {
    DailyIsNotNegative(c);
    AccruedGrows(DailyPenalty(c), m, n, if c.penaltyCapPercent.None? then None else Some(CapAmount(c)));
  }

  /** The penalty never falls as days go by. */
  lemma {:induction false} PenaltyNeverFalls(signed: seq<SignedDelivery>, today: int, later: int)
    requires signed != [] && IsSigned(signed[FirstDue(signed)]) && today <= later
    ensures var r, s := CountdownOf(signed, today).penaltyCents, CountdownOf(signed, later).penaltyCents;
            (r.Some? ==> s.Some? && 0 <= r.value <= s.value)
  {
    var c := signed[FirstDue(signed)];
    if today > DueOf(c) {
      var m, n := today - DueOf(c), later - DueOf(c);
      PenaltyGrows(c, m, n);
      RoundMonotone(100.0 * Penalty(c, m), 100.0 * Penalty(c, n));
      RoundNearest(100.0 * Penalty(c, m));
    }
  }

  /** Nor does it pass the cap, rounded to the cent as the penalty itself is. */
  lemma {:induction false} PenaltyIsCapped(signed: seq<SignedDelivery>, today: int)
    requires signed != [] && signed[FirstDue(signed)].penaltyCapPercent.Some?
    ensures var r, c := CountdownOf(signed, today).penaltyCents, signed[FirstDue(signed)];
            r.Some? ==> r.value <= Cents(CapAmount(c)) && r.value as real <= 100.0 * CapAmount(c) + 0.5
  {
    var c := signed[FirstDue(signed)];
    if today > DueOf(c) {
      RoundMonotone(100.0 * Penalty(c, today - DueOf(c)), 100.0 * CapAmount(c));
      RoundNearest(100.0 * CapAmount(c));
    }
  }

  lemma {:induction false} Reaches(daily: real, cap: real) returns (n: nat)
    requires daily > 0.0 && cap >= 0.0
    ensures daily * n as real >= cap
  {
    var days := cap / daily;
    n := days.Floor + 1;
    Scales(daily, days, n as real);
    assert daily * days == cap;
  }

  lemma {:induction false} CapIsReached(c: SignedDelivery) returns (daysLate: nat)
    requires IsSigned(c) && c.penaltyCapPercent.Some? && DailyPenalty(c) > 0.0
    ensures Penalty(c, daysLate) == CapAmount(c)
  {
    DailyIsNotNegative(c);
    daysLate := Reaches(DailyPenalty(c), CapAmount(c));
  }

  /**
   * A cap that is not whole cents can be passed by rounding: the printed
   * penalty stays within the exact cap on every day, if and only if that cap
   * does not round up.
   */
  lemma {:induction false} WithinTheExactCapIff(c: SignedDelivery)
    requires IsSigned(c) && c.penaltyCapPercent.Some? && DailyPenalty(c) > 0.0
    ensures (forall daysLate: nat :: Cents(Penalty(c, daysLate)) as real <= 100.0 * CapAmount(c))
       <==> Cents(CapAmount(c)) as real <= 100.0 * CapAmount(c)
  {
    forall daysLate: nat ensures Cents(Penalty(c, daysLate)) <= Cents(CapAmount(c)) {
      RoundMonotone(100.0 * Penalty(c, daysLate), 100.0 * CapAmount(c));
    }
    var reached := CapIsReached(c);
  }

  /** The cap that rounds up: half a cent and a hundredth over, on a contract of 100.51 ETB capped at 5%. */
  lemma {:induction false} CapCanBePassed(daysLate: nat)
    requires daysLate > 0
    ensures var c := SignedDelivery(0, 0, 100.51, Some(5.0), Some(5.0));
            Cents(Penalty(c, daysLate)) as real > 100.0 * CapAmount(c)
  {
    var c := SignedDelivery(0, 0, 100.51, Some(5.0), Some(5.0));
    assert CapAmount(c) == 5.0255 && DailyPenalty(c) == 5.0255;
    Scales(5.0255, 1.0, daysLate as real);
  }

  lemma {:induction false} SharesAre(c: SignedDelivery)
    ensures DailyPenalty(c) == c.valueEtb * (if c.penaltyPercentPerDay.Some? then c.penaltyPercentPerDay.value else 0.02) / 100.0
    ensures c.penaltyCapPercent.Some? ==> CapAmount(c) == c.valueEtb * c.penaltyCapPercent.value / 100.0
  {
  }

  lemma {:induction false} AccruedIs(daily: real, days: int, cap: Option<real>, accrued: real)
    requires accrued == daily * days as real
    ensures Accrued(daily, days, cap) == if cap.Some? && cap.value < accrued then cap.value else accrued
  {
  }

  /**
   * The penalty shown: for every day past the due date the percentage agreed, or
   * two hundredths of a percent, of the contract's value, to no more than the cap.
   */
  lemma {:induction false} PenaltyIs(signed: seq<SignedDelivery>, today: int, daily: real, accrued: real, cap: real)
    requires signed != []
    requires var c := signed[FirstDue(signed)];
             && daily == c.valueEtb * (if c.penaltyPercentPerDay.Some? then c.penaltyPercentPerDay.value else 0.02) / 100.0
             && accrued == daily * (today - DueOf(c)) as real
             && (c.penaltyCapPercent.Some? ==> cap == c.valueEtb * c.penaltyCapPercent.value / 100.0)
    ensures var c := signed[FirstDue(signed)];
            CountdownOf(signed, today).penaltyCents
            == if today <= DueOf(c) then None else Some(Cents(if c.penaltyCapPercent.Some? && cap < accrued then cap else accrued))
  {
    var c := signed[FirstDue(signed)];
    PenaltyFor(c, today - DueOf(c), daily, accrued, cap);
  }

  lemma {:induction false} PenaltyFor(c: SignedDelivery, days: int, daily: real, accrued: real, cap: real)
    requires daily == c.valueEtb * (if c.penaltyPercentPerDay.Some? then c.penaltyPercentPerDay.value else 0.02) / 100.0
    requires accrued == daily * days as real
    requires c.penaltyCapPercent.Some? ==> cap == c.valueEtb * c.penaltyCapPercent.value / 100.0
    ensures Penalty(c, days) == if c.penaltyCapPercent.Some? && cap < accrued then cap else accrued
  {
    var limit := if c.penaltyCapPercent.None? then None else Some(CapAmount(c));
    SharesAre(c);
    assert DailyPenalty(c) == daily;
    AccruedIs(daily, days, limit, accrued);
  }
}
