/**
 * recomputeCustomerBalance and agingReport: what a customer owes net of
 * unapplied cash, and invoice by invoice.
 */
module CustomerBalance {
  import opened Wrappers
  import opened Sums
  import opened Receivables
  import opened ReceivablesInvariant

  // ----- the stored balance -----

  /** invoiceOutstandingEtb of a non-VOID invoice of customer `c`, else 0. */
  function Outstanding(ledger: Ledger, c: nat, i: nat): int {
    if i < |ledger.invoices| && ledger.invoices[i].customer == c && ledger.invoices[i].status != Void
    then ledger.invoices[i].total - ledger.invoices[i].wht - InvoiceSum(ledger.allocations, i)
    else 0
  }

  /** What a live payment of customer `c` has not yet been applied to, else 0. */
  function Unapplied(ledger: Ledger, c: nat, p: nat): int {
    if p < |ledger.payments| && ledger.payments[p].customer == c && IsLive(ledger, p)
    then ledger.payments[p].amount - PaymentSum(ledger.allocations, p)
    else 0
  }

  function InvoicedBalance(ledger: Ledger, c: nat): int {
    Sum(|ledger.invoices|, (i: nat) => Outstanding(ledger, c, i))
  }

  function UnappliedCash(ledger: Ledger, c: nat): int {
    Sum(|ledger.payments|, (p: nat) => Unapplied(ledger, c, p))
  }

  function Balance(ledger: Ledger, c: nat): int {
    InvoicedBalance(ledger, c) - UnappliedCash(ledger, c)
  }

  /** Another payment of the same customer reverses this one. */
  predicate IsReversedFor(payments: seq<Payment>, c: nat, p: nat) {
    exists q :: 0 <= q < |payments| && payments[q].customer == c && payments[q].reversalOf == Some(p)
  }

  /** Live, told from customer `c`'s payments alone. */
  predicate IsLiveFor(payments: seq<Payment>, c: nat, p: nat) {
    && p < |payments| && payments[p].customer == c
    && payments[p].reversalOf.None? && !IsReversedFor(payments, c, p)
  }

  function UnappliedFor(ledger: Ledger, c: nat, p: nat): int {
    if IsLiveFor(ledger.payments, c, p) then ledger.payments[p].amount - PaymentSum(ledger.allocations, p) else 0
  }

  function RecomputedBalance(ledger: Ledger, c: nat): int {
    InvoicedBalance(ledger, c) - Sum(|ledger.payments|, (p: nat) => UnappliedFor(ledger, c, p))
  }

  /** A reversal is its original's customer's, so no payment of another customer is missed. */
  lemma {:induction false} RecomputedIsBalance(ledger: Ledger, c: nat)
    requires PaymentsOk(ledger.payments)
    ensures RecomputedBalance(ledger, c) == Balance(ledger, c)
  {
    forall p: nat | p < |ledger.payments|
      ensures UnappliedFor(ledger, c, p) == Unapplied(ledger, c, p)
    {
      if ledger.payments[p].customer == c && IsReversed(ledger, p) {
        var q := MirrorOf(ledger.payments, p).value;
        assert ledger.payments[q].reversalOf == Some(p);
      }
    }
    SumSame(|ledger.payments|, (p: nat) => UnappliedFor(ledger, c, p), (p: nat) => Unapplied(ledger, c, p));
  }

  /** The queries and folds of the source, one after the other. */
  method RecomputeCustomerBalance(ledger: Ledger, c: nat) returns (balance: int)
    ensures balance == RecomputedBalance(ledger, c)
  {
    var invoicedBalance := SumOpenInvoices(ledger, c);
    var unappliedCash := SumLivePayments(ledger, c);
    balance := invoicedBalance - unappliedCash;
  }

  method SumOpenInvoices(ledger: Ledger, c: nat) returns (invoicedBalance: int)
    ensures invoicedBalance == InvoicedBalance(ledger, c)
  {
    var openInvoices: set<nat> := {};
    var allocatedByInvoice: map<nat, int> := map[];
    var i := 0;
    while i < |ledger.invoices|
      invariant 0 <= i <= |ledger.invoices|
      invariant openInvoices == set k: nat | k < i && ledger.invoices[k].customer == c && ledger.invoices[k].status != Void
      invariant allocatedByInvoice.Keys == openInvoices
      invariant forall k :: k in openInvoices ==> allocatedByInvoice[k] == InvoiceSum(ledger.allocations, k)
    {
      if ledger.invoices[i].customer == c && ledger.invoices[i].status != Void {
        openInvoices := openInvoices + {i};
        allocatedByInvoice := allocatedByInvoice[i := InvoiceSum(ledger.allocations, i)];
      }
      i := i + 1;
    }
    invoicedBalance := 0;
    i := 0;
    while i < |ledger.invoices|
      invariant 0 <= i <= |ledger.invoices|
      invariant invoicedBalance == Sum(i, (k: nat) => Outstanding(ledger, c, k))
    {
      if i in openInvoices {
        invoicedBalance := invoicedBalance + (ledger.invoices[i].total - ledger.invoices[i].wht - allocatedByInvoice[i]);
      }
      i := i + 1;
    }
  }

  method SumLivePayments(ledger: Ledger, c: nat) returns (unappliedCash: int)
    ensures unappliedCash == Sum(|ledger.payments|, (p: nat) => UnappliedFor(ledger, c, p))
  {
    var reversedPayments: set<nat> := {};
    var p := 0;
    while p < |ledger.payments|
      invariant 0 <= p <= |ledger.payments|
      invariant forall k: nat :: k in reversedPayments <==> IsReversedFor(ledger.payments[..p], c, k)
    {
      ReversedWithOneMore(ledger.payments, c, p);
      if ledger.payments[p].customer == c && ledger.payments[p].reversalOf.Some? {
        reversedPayments := reversedPayments + {ledger.payments[p].reversalOf.value};
      }
      p := p + 1;
    }
    assert ledger.payments[..p] == ledger.payments;
    unappliedCash := 0;
    p := 0;
    while p < |ledger.payments|
      invariant 0 <= p <= |ledger.payments|
      invariant unappliedCash == Sum(p, (k: nat) => UnappliedFor(ledger, c, k))
    {
      var payment := ledger.payments[p];
      if payment.customer == c && payment.reversalOf.None? && p !in reversedPayments {
        unappliedCash := unappliedCash + (payment.amount - PaymentSum(ledger.allocations, p));
      }
      p := p + 1;
    }
  }

  lemma {:induction false} ReversedWithOneMore(payments: seq<Payment>, c: nat, p: nat)
    requires p < |payments|
    ensures forall k: nat :: IsReversedFor(payments[..p + 1], c, k) <==>
              IsReversedFor(payments[..p], c, k) || (payments[p].customer == c && payments[p].reversalOf == Some(k))
  {
    assert payments[..p + 1] == payments[..p] + [payments[p]];
    forall k: nat
      ensures IsReversedFor(payments[..p] + [payments[p]], c, k) <==>
                IsReversedFor(payments[..p], c, k) || (payments[p].customer == c && payments[p].reversalOf == Some(k))
    {
      ReversedByTheLast(payments[..p], payments[p], c, k);
    }
  }

  lemma {:induction false} ReversedByTheLast(payments: seq<Payment>, last: Payment, c: nat, k: nat)
    ensures IsReversedFor(payments + [last], c, k) <==>
              IsReversedFor(payments, c, k) || (last.customer == c && last.reversalOf == Some(k))
  {
    var more := payments + [last];
    assert more[|payments|] == last && forall q :: 0 <= q < |payments| ==> more[q] == payments[q];
    if IsReversedFor(payments, c, k) {
      var q :| 0 <= q < |payments| && payments[q].customer == c && payments[q].reversalOf == Some(k);
      assert more[q].reversalOf == Some(k);
    }
  }

  // ----- aging -----

  datatype Bucket = Current | Days1To30 | Days31To60 | Days61To90 | Over90

  /** bucketForDaysOverdue. */
  function BucketFor(days: int): Bucket {
    if days <= 0 then Current
    else if days <= 30 then Days1To30
    else if days <= 60 then Days31To60
    else if days <= 90 then Days61To90
    else Over90
  }

  /** An invoice with no due date is never overdue. */
  function BucketOf(invoice: Invoice, today: int): Bucket {
    if invoice.dueOn.None? then Current else BucketFor(today - invoice.dueOn.value)
  }

  datatype AgingRow = AgingRow(current: int, days1To30: int, days31To60: int, days61To90: int, over90: int) {
    function In(b: Bucket): int {
      match b
      case Current => current
      case Days1To30 => days1To30
      case Days31To60 => days31To60
      case Days61To90 => days61To90
      case Over90 => over90
    }

    function Add(b: Bucket, amount: int): AgingRow {
      match b
      case Current => this.(current := current + amount)
      case Days1To30 => this.(days1To30 := days1To30 + amount)
      case Days31To60 => this.(days31To60 := days31To60 + amount)
      case Days61To90 => this.(days61To90 := days61To90 + amount)
      case Over90 => this.(over90 := over90 + amount)
    }

    function Total(): int {
      current + days1To30 + days31To60 + days61To90 + over90
    }
  }

  const NO_AGING := AgingRow(0, 0, 0, 0, 0)

  /** What invoice `i` adds to bucket `b` of customer `c`: only what is still owed on it. */
  function Aged(ledger: Ledger, c: nat, b: Bucket, today: int, i: nat): int {
    if Outstanding(ledger, c, i) > 0 && BucketOf(ledger.invoices[i], today) == b then Outstanding(ledger, c, i) else 0
  }

  function AgedIn(ledger: Ledger, c: nat, b: Bucket, today: int, n: nat): int {
    Sum(n, (i: nat) => Aged(ledger, c, b, today, i))
  }

  function RowFor(report: map<nat, AgingRow>, c: nat): AgingRow {
    if c in report then report[c] else NO_AGING
  }

  method AgingReport(ledger: Ledger, today: int) returns (report: map<nat, AgingRow>)
    ensures forall c, b :: RowFor(report, c).In(b) == AgedIn(ledger, c, b, today, |ledger.invoices|)
    ensures forall c :: c in report <==> exists i: nat :: i < |ledger.invoices| && Outstanding(ledger, c, i) > 0
  {
    report := map[];
    var i := 0;
    while i < |ledger.invoices|
      invariant 0 <= i <= |ledger.invoices|
      invariant forall c, b :: RowFor(report, c).In(b) == AgedIn(ledger, c, b, today, i)
      invariant forall c :: c in report <==> exists k: nat :: k < i && Outstanding(ledger, c, k) > 0
    {
      var invoice := ledger.invoices[i];
      ghost var before := report;
      if invoice.status != Void {
        var outstanding := invoice.total - invoice.wht - InvoiceSum(ledger.allocations, i);
        if outstanding > 0 {
          var entry := if invoice.customer in report then report[invoice.customer] else NO_AGING;
          report := report[invoice.customer := entry.Add(BucketOf(invoice, today), outstanding)];
        }
      }
      forall c, b
        ensures RowFor(report, c).In(b) == AgedIn(ledger, c, b, today, i + 1)
      {
        assert RowFor(before, c).In(b) == AgedIn(ledger, c, b, today, i);
      }
      forall c
        ensures c in report <==> exists k: nat :: k < i + 1 && Outstanding(ledger, c, k) > 0
      {
        assert c in before <==> exists k: nat :: k < i && Outstanding(ledger, c, k) > 0;
        assert c in report <==> c in before || Outstanding(ledger, c, i) > 0;
      }
      i := i + 1;
    }
  }

  /** How many days past its due date an invoice falls into each bucket, one due on no date into none but the first. */
  lemma {:induction false} BucketLimits(invoice: Invoice, today: int)
    ensures var b := BucketOf(invoice, today);
            if invoice.dueOn.None? then b == Current
            else
              var late := today - invoice.dueOn.value;
              && (b == Current <==> late < 1) && (b == Days1To30 <==> 1 <= late <= 30) && (b == Days31To60 <==> 31 <= late <= 60)
              && (b == Days61To90 <==> 61 <= late <= 90) && (b == Over90 <==> late > 90)
  {
  }

  lemma {:induction false} AgedTotal(ledger: Ledger, c: nat, today: int, n: nat)
    requires forall i: nat :: Outstanding(ledger, c, i) >= 0
    ensures AgedIn(ledger, c, Current, today, n) + AgedIn(ledger, c, Days1To30, today, n)
            + AgedIn(ledger, c, Days31To60, today, n) + AgedIn(ledger, c, Days61To90, today, n)
            + AgedIn(ledger, c, Over90, today, n)
         == Sum(n, (i: nat) => Outstanding(ledger, c, i))
  {
    if n > 0 {
      AgedTotal(ledger, c, today, n - 1);
    }
  }

  lemma {:induction false} OutstandingIsNotNegative(ledger: Ledger, c: nat, i: nat)
    requires Valid(ledger)
    ensures Outstanding(ledger, c, i) >= 0
  {
    if i < |ledger.invoices| {
      assert InvoiceOk(ledger, i);
    }
  }

  /** In every reachable ledger the aged total less the balance is exactly the unapplied cash, never negative. */
  lemma {:induction false} AgedLessBalanceIsUnapplied(ledger: Ledger, c: nat, today: int, row: AgingRow)
    requires Valid(ledger)
    requires forall b :: row.In(b) == AgedIn(ledger, c, b, today, |ledger.invoices|)
    ensures row.Total() - Balance(ledger, c) == UnappliedCash(ledger, c) >= 0
  {
    forall i: nat
      ensures Outstanding(ledger, c, i) >= 0
    {
      OutstandingIsNotNegative(ledger, c, i);
    }
    AgedTotal(ledger, c, today, |ledger.invoices|);
    assert row.In(Current) == row.current && row.In(Days1To30) == row.days1To30 && row.In(Days31To60) == row.days31To60
        && row.In(Days61To90) == row.days61To90 && row.In(Over90) == row.over90;
    forall p: nat | p < |ledger.payments|
      ensures Unapplied(ledger, c, p) >= 0
    {
      assert PaymentOk(ledger, p);
    }
    SumBounds(|ledger.payments|, (p: nat) => Unapplied(ledger, c, p));
  }
}
