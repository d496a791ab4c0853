/**
 * Net, VAT and gross of an expense: src/modules/expenses/expense-money.ts.
 * Amounts are in cents and the rate in hundredths of a percent, so 15% is 1500.
 */
module VatSplit {
  import opened Rounding

  datatype Split = Split(net: int, vat: int, gross: int)

  const WHOLE := 10000

  /** The net is given: VAT is rounded once and added. */
  function SplitExclusive(net: int, rate: nat): (s: Split)
    ensures s.net + s.vat == s.gross
  {
    var vat := RoundRatio(net * rate, WHOLE);
    Split(net, vat, net + vat)
  }

  /** The gross is given: the net is rounded once and VAT is what is left. */
  function SplitInclusive(gross: int, rate: nat): (s: Split)
    ensures s.net + s.vat == s.gross
  {
    var net := RoundRatio(gross * WHOLE, WHOLE + rate);
    Split(net, gross - net, gross)
  }

  /** How far each leg is from its exact value, in WHOLE-ths of a cent. */
  lemma {:induction false} ExclusiveIsNear(net: int, rate: nat)
    ensures var off := WHOLE * SplitExclusive(net, rate).gross - net * (WHOLE + rate);
            -5000 <= off <= 5000 && (rate == 0 ==> off == 0)
  {
    RatioNearest(net * rate, WHOLE);
    assert net * (WHOLE + rate) == net * WHOLE + net * rate;
    if rate == 0 {
      assert net * rate == 0;
    }
  }

  lemma {:induction false} InclusiveIsNear(gross: int, rate: nat)
    ensures var off := 2 * ((WHOLE + rate) * SplitInclusive(gross, rate).net - gross * WHOLE);
            -(WHOLE + rate) <= off <= WHOLE + rate
  {
    var d, net := WHOLE + rate, SplitInclusive(gross, rate).net;
    RatioNearest(gross * WHOLE, d);
    assert 2 * d * net == 2 * (d * net);
  }

  /** A net split exclusively comes back to the cent from its gross, at every rate. */
  lemma {:induction false} NetComesBack(net: int, rate: nat)
    ensures SplitInclusive(SplitExclusive(net, rate).gross, rate) == SplitExclusive(net, rate)
  {
    var gross, d := SplitExclusive(net, rate).gross, WHOLE + rate;
    ExclusiveIsNear(net, rate);
    assert 2 * d * net == 2 * (net * d);
    RatioIs(gross * WHOLE, d, net);
  }

  /** A gross split inclusively comes back from its net off by at most 1 + rate/200% cents: within a cent below 200%. */
  lemma {:induction false} GrossComesBackNearly(gross: int, rate: nat)
    ensures var off := SplitExclusive(SplitInclusive(gross, rate).net, rate).gross - gross;
            -(2 * WHOLE + rate) <= 2 * WHOLE * off <= 2 * WHOLE + rate
    ensures rate < 2 * WHOLE ==> -1 <= SplitExclusive(SplitInclusive(gross, rate).net, rate).gross - gross <= 1
  {
    var net, d := SplitInclusive(gross, rate).net, WHOLE + rate;
    InclusiveIsNear(gross, rate);
    ExclusiveIsNear(net, rate);
    assert d * net == net * d;
  }

  /** A cent can indeed be lost: 4 cents at 15%. */
  lemma {:induction false} ACentCanBeLost()
    ensures SplitExclusive(SplitInclusive(4, 1500).net, 1500).gross == 3
  {
    assert RoundRatio(40000, 11500) == 3 && RoundRatio(4500, WHOLE) == 0;
  }

  /** No leg of a bill is negative, and the VAT of a gross is never more than the gross. */
  lemma {:induction false} LegsOfABill(amount: nat, rate: nat)
    ensures var s := SplitExclusive(amount, rate); s.vat >= 0 && s.gross >= amount
    ensures var s := SplitInclusive(amount, rate); s.net >= 0 && 0 <= s.vat <= amount
  {
    var net, d := SplitInclusive(amount, rate).net, WHOLE + rate;
    assert amount * rate >= 0;
    RatioNearest(amount * rate, WHOLE);
    RatioNearest(amount * WHOLE, d);
    InclusiveIsNear(amount, rate);
    Distributed(amount, rate);
    AtMost(d, net, amount);
  }

  lemma {:induction false} AtMost(d: nat, net: int, amount: nat)
    requires d > 0 && 2 * (d * net) <= 2 * (d * amount) + d
    ensures net <= amount
  {
    assert d * (amount + 1) == d * amount + d;
    Cancels(d, net, amount + 1);
  }

  function Magnitude(x: int): nat {
    if x < 0 then -x else x
  }

  /**
   * A gross comes back if dividing it by 1 + rate leaves a net that is rounded
   * down by at most half a cent of gross, or up by less.
   */
  predicate ComesBack(gross: nat, rate: nat) {
    var d := WHOLE + rate;
    var left := gross * WHOLE % d;
    if 2 * left < d then left <= 5000 else d - left < 5000
  }

  /** And exactly then; it is also exactly when the gross is some net's gross at that rate. */
  lemma {:induction false} GrossComesBackIff(gross: int, rate: nat)
    ensures SplitExclusive(SplitInclusive(gross, rate).net, rate).gross == gross <==> ComesBack(Magnitude(gross), rate)
    ensures SplitExclusive(SplitInclusive(gross, rate).net, rate).gross == gross
       <==> exists net :: SplitExclusive(net, rate).gross == gross
  {
    BillComesBackIff(Magnitude(gross), rate);
    if gross < 0 {
      SplitsAreOdd(-gross, rate);
    }
    forall net | SplitExclusive(net, rate).gross == gross
      ensures SplitExclusive(SplitInclusive(gross, rate).net, rate).gross == gross
    {
      NetComesBack(net, rate);
    }
  }

  lemma {:induction false} BillComesBackIff(gross: nat, rate: nat)
    ensures SplitExclusive(SplitInclusive(gross, rate).net, rate).gross == gross <==> ComesBack(gross, rate)
  {
    var d, n, net := WHOLE + rate, gross * WHOLE, SplitInclusive(gross, rate).net;
    var off := (if 2 * (n % d) < d then 0 else d) - n % d;
    RatioByRemainder(n, d);
    Landed(n, d, net);
    LegsOfABill(gross, rate);
    Distributed(net, rate);
    RoundsTo(net * rate, gross - net, off);
  }

  lemma {:induction false} Landed(n: nat, d: nat, net: int)
    requires d > 0 && net == n / d + (if 2 * (n % d) < d then 0 else 1)
    ensures d * net == n + (if 2 * (n % d) < d then 0 else d) - n % d
  {
    assert n == d * (n / d) + n % d;
    assert d * (n / d + 1) == d * (n / d) + d;
  }

  lemma {:induction false} Distributed(net: int, rate: nat)
    ensures (WHOLE + rate) * net == WHOLE * net + net * rate
    ensures net >= 0 ==> net * rate >= 0
  {
  }

  lemma {:induction false} RoundsTo(exact: nat, vat: int, off: int)
    requires exact == WHOLE * vat + off
    ensures RoundRatio(exact, WHOLE) == vat <==> -5000 <= off < 5000
  {
  }

  /** A credit note splits as the bill does. */
  lemma {:induction false} SplitsAreOdd(amount: int, rate: nat)
    ensures SplitInclusive(-amount, rate).net == -SplitInclusive(amount, rate).net
    ensures SplitExclusive(SplitInclusive(-amount, rate).net, rate).gross
         == -SplitExclusive(SplitInclusive(amount, rate).net, rate).gross
  {
    var net := SplitInclusive(amount, rate).net;
    RatioIsOdd(amount * WHOLE, WHOLE + rate);
    RatioIsOdd(net * rate, WHOLE);
    assert (-amount) * WHOLE == -(amount * WHOLE) && (-net) * rate == -(net * rate);
  }

  /**
   * What each split gives: the VAT is the rate's share of the net, in hundredths
   * of a percent, to within half a cent, or the net is what the gross is without
   * it; half a cent over is rounded up.
   */
  lemma {:induction false} SplitsAre(amount: nat, rate: nat)
    ensures var s := SplitExclusive(amount, rate);
            s.net == amount && -5000 < 10000 * s.vat - amount * rate <= 5000 && s.gross == amount + s.vat
    ensures var s := SplitInclusive(amount, rate);
            && s.gross == amount && s.vat == amount - s.net
            && -(10000 + rate) < 2 * ((10000 + rate) * s.net - amount * 10000) <= 10000 + rate
  {
    HalfUp(amount * rate, 10000);
    HalfUp(amount * 10000, 10000 + rate);
  }

  lemma {:induction false} HalfUp(n: int, d: nat)
    requires n >= 0 && d > 0
    ensures -(d as int) < 2 * (d * RoundRatio(n, d) - n) <= d
  {
    var r := RoundRatio(n, d);
    RatioByRemainder(n, d);
    assert n == d * (n / d) + n % d;
    assert d * (n / d + 1) == d * (n / d) + d;
    assert d * r == d * (n / d) + (if 2 * (n % d) < d then 0 else d);
  }
}
