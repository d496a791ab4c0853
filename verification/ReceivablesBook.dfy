/**
 * The ledger as the repositories keep it: tables written step by step inside
 * a transaction that is rolled back when it throws, and a stored balance per
 * customer, recomputed at the end of every transaction that moves money.
 */
module ReceivablesBook {
  import opened Wrappers
  import opened Sums
  import opened Receivables
  import opened ReceivablesInvariant
  import opened CustomerBalance

  /** Customer `c` has no part in what changed between two ledgers. */
  ghost predicate SameFor(before: Ledger, after: Ledger, c: nat) {
    && |before.invoices| <= |after.invoices| && |before.payments| <= |after.payments|
    && (forall i: nat :: Outstanding(after, c, i) == Outstanding(before, c, i))
    && (forall p: nat :: Unapplied(after, c, p) == Unapplied(before, c, p))
  }

  lemma {:induction false} SumGrows(n: nat, m: nat, f: nat -> int)
    requires n <= m && forall k: nat :: n <= k ==> f(k) == 0
    ensures Sum(m, f) == Sum(n, f)
  {
    if n < m {
      SumGrows(n, m - 1, f);
    }
  }

  lemma {:induction false} SameBalance(before: Ledger, after: Ledger, c: nat)
    requires SameFor(before, after, c)
    ensures Balance(after, c) == Balance(before, c)
  {
    var f, g := (i: nat) => Outstanding(before, c, i), (i: nat) => Outstanding(after, c, i);
    SumSame(|after.invoices|, f, g);
    SumGrows(|before.invoices|, |after.invoices|, f);
    var h, k := (p: nat) => Unapplied(before, c, p), (p: nat) => Unapplied(after, c, p);
    SumSame(|after.payments|, h, k);
    SumGrows(|before.payments|, |after.payments|, h);
  }

  lemma {:induction false} InsertIsOneCustomers(ledger: Ledger, p: nat, i: nat, amount: int, c: nat)
    requires Valid(ledger) && p < |ledger.payments| && GuardAndInsert(ledger, p, i, amount).Ok?
    requires c != ledger.payments[p].customer
    ensures SameFor(ledger, GuardAndInsert(ledger, p, i, amount).value, c)
  {
    var after := GuardAndInsert(ledger, p, i, amount).value;
    forall k: nat
      ensures Outstanding(after, c, k) == Outstanding(ledger, c, k)
      ensures Unapplied(after, c, k) == Unapplied(ledger, c, k)
    {
      RowAdded(ledger.allocations, Allocation(p, i, amount), k, k);
    }
  }

  lemma {:induction false} AllocateAllIsOneCustomers(ledger: Ledger, p: nat, splits: seq<(nat, int)>, c: nat)
    requires Valid(ledger) && p < |ledger.payments| && AllocateAll(ledger, p, splits).Ok?
    requires forall k :: 0 <= k < |splits| ==> splits[k].1 > 0
    requires c != ledger.payments[p].customer
    ensures SameFor(ledger, AllocateAll(ledger, p, splits).value, c)
    decreases |splits|
  {
    if splits != [] {
      InsertIsOneCustomers(ledger, p, splits[0].0, splits[0].1, c);
      InsertKeepsValid(ledger, p, splits[0].0, splits[0].1);
      AllocateAllIsOneCustomers(GuardAndInsert(ledger, p, splits[0].0, splits[0].1).value, p, splits[1..], c);
    }
  }

  lemma {:induction false} PaymentIsOneCustomers(ledger: Ledger, payment: Payment, c: nat)
    requires Valid(ledger) && payment.reversalOf.None? && payment.customer != c
    ensures SameFor(ledger, WithPayment(ledger, payment), c)
  {
  }

  lemma {:induction false} WithholdIsOneCustomers(ledger: Ledger, i: nat, amount: int, recordedOn: int, c: nat)
    requires Valid(ledger) && Withhold(ledger, i, amount, recordedOn).Ok?
    requires c != ledger.invoices[i].customer
    ensures SameFor(ledger, Withhold(ledger, i, amount, recordedOn).value, c)
  {
  }

  /** What a reversal does to an invoice or a payment of another customer: nothing. */
  lemma {:induction false} ReverseIsOneCustomers(ledger: Ledger, p: nat, today: int, c: nat)
    requires Valid(ledger) && Reverse(ledger, p, today).Ok?
    requires c != ledger.payments[p].customer
    ensures SameFor(ledger, Reverse(ledger, p, today).value, c)
  {
    var q, after := |ledger.payments|, Reverse(ledger, p, today).value;
    var mirrored := MirroredRows(ledger.allocations, p, q);
    RecomputedForTouches(Reversed(ledger, p, today), mirrored);
    forall k: nat
      ensures Outstanding(after, c, k) == Outstanding(ledger, c, k)
      ensures Unapplied(after, c, k) == Unapplied(ledger, c, k)
    {
      ReversedSums(ledger, p, today, k, k);
      if k < |ledger.invoices| && ledger.invoices[k].customer == c {
        RowSumNone(ledger.allocations, (row: Allocation) => row.payment == p && row.invoice == k);
      }
    }
  }

  lemma {:induction false} ReverseLeavesOthers(ledger: Ledger, p: nat, today: int)
    requires Valid(ledger) && Reverse(ledger, p, today).Ok?
    ensures forall c: nat :: c != ledger.payments[p].customer ==> SameFor(ledger, Reverse(ledger, p, today).value, c)
  {
    forall c: nat | c != ledger.payments[p].customer
      ensures SameFor(ledger, Reverse(ledger, p, today).value, c)
    {
      ReverseIsOneCustomers(ledger, p, today, c);
    }
  }

  /** Deriving statuses again changes nothing but statuses, and voids nothing. */
  lemma {:induction false} RecomputedForTouches(ledger: Ledger, rows: seq<Allocation>)
    ensures forall i :: 0 <= i < |ledger.invoices| ==>
              var after := RecomputedFor(ledger, rows).invoices[i];
              && after == ledger.invoices[i].(status := after.status)
              && (after.status == Void <==> ledger.invoices[i].status == Void)
    decreases |rows|
  {
    if rows != [] {
      var i := rows[0].invoice;
      RecomputedForTouches(if i < |ledger.invoices| then Recomputed(ledger, i) else ledger, rows[1..]);
    }
  }

  class Book {
    var invoices: seq<Invoice>
    var payments: seq<Payment>
    var allocations: seq<Allocation>
    var outstandingBalances: map<nat, int>

    constructor ()
      ensures Rows() == EMPTY && BalancesCurrent()
    {
      invoices, payments, allocations, outstandingBalances := [], [], [], map[];
    }

    function Rows(): Ledger
      reads this
    {
      Ledger(invoices, payments, allocations)
    }

    function StoredBalance(c: nat): int
      reads this
    {
      if c in outstandingBalances then outstandingBalances[c] else 0
    }

    /** No customer's stored balance is stale. */
    ghost predicate BalancesCurrent()
      reads this
    {
      forall c: nat :: StoredBalance(c) == Balance(Rows(), c)
    }

    method RecomputeBalance(c: nat, ghost before: Ledger)
      requires PaymentsOk(payments) && forall k: nat :: StoredBalance(k) == Balance(before, k)
      requires forall k: nat :: k != c ==> SameFor(before, Rows(), k)
      modifies this`outstandingBalances
      ensures BalancesCurrent()
    {
      var balance := RecomputeCustomerBalance(Rows(), c);
      RecomputedIsBalance(Rows(), c);
      outstandingBalances := outstandingBalances[c := balance];
      forall k: nat
        ensures StoredBalance(k) == Balance(Rows(), k)
      {
        if k != c {
          SameBalance(before, Rows(), k);
        }
      }
    }

    method RecomputePaymentStatus(i: nat)
      requires i < |invoices|
      modifies this`invoices
      ensures Rows() == Recomputed(old(Rows()), i)
    {
      var invoice := invoices[i];
      if invoice.status == Void {
        return;
      }
      var status := DerivedStatus(invoice.total, invoice.wht, InvoiceSum(allocations, i));
      if status != invoice.status {
        invoices := invoices[i := invoice.(status := status)];
      }
    }

    method GuardAndInsertAllocation(p: nat, i: nat, amount: int) returns (error: Option<LedgerError>)
      requires p < |payments|
      modifies this`invoices, this`allocations
      ensures error == ErrorOf(GuardAndInsert(old(Rows()), p, i, amount))
      ensures error.None? ==> Rows() == GuardAndInsert(old(Rows()), p, i, amount).value
      ensures error.Some? ==> Rows() == old(Rows())
    {
      if i >= |invoices| {
        return Some(NotFound);
      }
      if invoices[i].status == Void {
        return Some(InvoiceIsVoid);
      }
      if invoices[i].customer != payments[p].customer {
        return Some(OtherCustomer);
      }
      if InvoiceSum(allocations, i) + invoices[i].wht + amount > invoices[i].total {
        return Some(ExceedsInvoice);
      }
      if PaymentSum(allocations, p) + amount > payments[p].amount {
        return Some(ExceedsPayment);
      }
      if HasRow(allocations, p, i) {
        return Some(AlreadyAllocated);
      }
      allocations := allocations + [Allocation(p, i, amount)];
      RecomputePaymentStatus(i);
      error := None;
    }

    method IssueInvoice(customer: nat, total: int, today: int, dueOn: Option<int>)
      requires Valid(Rows()) && BalancesCurrent() && total >= 0
      modifies this
      ensures Rows() == After(old(Rows()), DoIssue(customer, total, today, dueOn))
      ensures Valid(Rows()) && BalancesCurrent()
    {
      ghost var before := Rows();
      CommandKeepsValid(before, DoIssue(customer, total, today, dueOn));
      invoices := invoices + [Invoice(customer, total, 0, Issued, today, None, dueOn)];
      RecomputeBalance(customer, before);
    }

    method RecordPayment(customer: nat, amount: int, today: int, splits: seq<(nat, int)>) returns (error: Option<LedgerError>)
      requires Valid(Rows()) && BalancesCurrent()
      requires IsRequest(DoRecord(customer, amount, today, splits))
      modifies this
      ensures error == ErrorOf(Record(old(Rows()), customer, amount, today, splits))
      ensures Rows() == After(old(Rows()), DoRecord(customer, amount, today, splits))
      ensures Valid(Rows()) && BalancesCurrent()
    {
      ghost var before := Rows();
      CommandKeepsValid(before, DoRecord(customer, amount, today, splits));
      var savedInvoices, savedPayments, savedAllocations := invoices, payments, allocations;
      var p := |payments|;
      payments := payments + [Payment(customer, amount, today, None)];
      ghost var started := Rows();
      var k := 0;
      assert splits[0..] == splits;
      while k < |splits|
        invariant 0 <= k <= |splits| && p < |payments|
        invariant AllocateAll(started, p, splits) == AllocateAll(Rows(), p, splits[k..])
        invariant unchanged(this`outstandingBalances)
      {
        assert splits[k..][1..] == splits[k + 1..];
        error := GuardAndInsertAllocation(p, splits[k].0, splits[k].1);
        if error.Some? {
          invoices, payments, allocations := savedInvoices, savedPayments, savedAllocations;
          return;
        }
        k := k + 1;
      }
      PaymentKeepsValid(before, customer, amount, today);
      forall c: nat | c != customer
        ensures SameFor(before, Rows(), c)
      {
        PaymentIsOneCustomers(before, Payment(customer, amount, today, None), c);
        AllocateAllIsOneCustomers(started, p, splits, c);
      }
      RecomputeBalance(customer, before);
      error := None;
    }

    method AllocatePayment(p: nat, i: nat, amount: int) returns (error: Option<LedgerError>)
      requires Valid(Rows()) && BalancesCurrent() && amount > 0
      modifies this
      ensures error == ErrorOf(Allocate(old(Rows()), p, i, amount))
      ensures Rows() == After(old(Rows()), DoAllocate(p, i, amount))
      ensures Valid(Rows()) && BalancesCurrent()
    {
      ghost var before := Rows();
      CommandKeepsValid(before, DoAllocate(p, i, amount));
      if p >= |payments| {
        return Some(NotFound);
      }
      error := GuardAndInsertAllocation(p, i, amount);
      if error.None? {
        forall c: nat | c != before.payments[p].customer
          ensures SameFor(before, Rows(), c)
        {
          InsertIsOneCustomers(before, p, i, amount, c);
        }
        RecomputeBalance(payments[p].customer, before);
      }
    }

    method ReversePayment(p: nat, today: int) returns (error: Option<LedgerError>)
      requires Valid(Rows()) && BalancesCurrent()
      modifies this
      ensures error == ErrorOf(Reverse(old(Rows()), p, today))
      ensures Rows() == After(old(Rows()), DoReverse(p, today))
      ensures Valid(Rows()) && BalancesCurrent()
    {
      ghost var before := Rows();
      CommandKeepsValid(before, DoReverse(p, today));
      if p >= |payments| {
        return Some(NotFound);
      }
      var original := payments[p];
      if original.reversalOf.Some? {
        return Some(IsAReversal);
      }
      if MirrorOf(payments, p).Some? {
        return Some(AlreadyReversed);
      }
      if !AllPositive(allocations, p) {
        return Some(AllocationNotPositive);
      }
      var mirrored := MirroredRows(allocations, p, |payments|);
      payments := payments + [Payment(original.customer, -original.amount, today, Some(p))];
      allocations := allocations + mirrored;
      ghost var moved := Rows();
      assert moved == Reversed(before, p, today);
      var k := 0;
      assert mirrored[0..] == mirrored;
      while k < |mirrored|
        invariant 0 <= k <= |mirrored|
        invariant RecomputedFor(moved, mirrored) == RecomputedFor(Rows(), mirrored[k..])
        invariant payments == moved.payments
        invariant unchanged(this`outstandingBalances)
      {
        assert mirrored[k..][1..] == mirrored[k + 1..];
        if mirrored[k].invoice < |invoices| {
          RecomputePaymentStatus(mirrored[k].invoice);
        }
        k := k + 1;
      }
      assert Rows() == Reverse(before, p, today).value;
      ReverseLeavesOthers(before, p, today);
      RecomputeBalance(original.customer, before);
      error := None;
    }

    method RecordWithholding(i: nat, amount: int, recordedOn: int) returns (error: Option<LedgerError>)
      requires Valid(Rows()) && BalancesCurrent() && amount >= 0
      modifies this
      ensures error == ErrorOf(Withhold(old(Rows()), i, amount, recordedOn))
      ensures Rows() == After(old(Rows()), DoWithhold(i, amount, recordedOn))
      ensures Valid(Rows()) && BalancesCurrent()
    {
      ghost var before := Rows();
      CommandKeepsValid(before, DoWithhold(i, amount, recordedOn));
      if i >= |invoices| {
        return Some(NotFound);
      }
      var invoice := invoices[i];
      if invoice.status == Void {
        return Some(InvoiceIsVoid);
      }
      if InvoiceSum(allocations, i) + amount > invoice.total {
        return Some(ExceedsInvoice);
      }
      invoices := invoices[i := invoice.(wht := amount, whtOn := if amount == 0 then None else Some(recordedOn))];
      RecomputePaymentStatus(i);
      assert Rows() == Withhold(before, i, amount, recordedOn).value;
      forall c: nat | c != invoice.customer
        ensures SameFor(before, Rows(), c)
      {
        WithholdIsOneCustomers(before, i, amount, recordedOn, c);
      }
      RecomputeBalance(invoice.customer, before);
      error := None;
    }

    method MarkVoid(i: nat) returns (error: Option<LedgerError>)
      requires Valid(Rows()) && BalancesCurrent()
      modifies this
      ensures error == ErrorOf(VoidInvoice(old(Rows()), i))
      ensures Rows() == After(old(Rows()), DoVoid(i))
      ensures Valid(Rows()) && BalancesCurrent()
    {
      ghost var before := Rows();
      CommandKeepsValid(before, DoVoid(i));
      if i >= |invoices| {
        return Some(NotFound);
      }
      var invoice := invoices[i];
      if invoice.status != Issued {
        return Some(NotVoidable);
      }
      if invoice.wht > 0 {
        return Some(NotVoidable);
      }
      if InvoiceSum(allocations, i) != 0 {
        return Some(NotVoidable);
      }
      invoices := invoices[i := invoice.(status := Void)];
      RecomputeBalance(invoice.customer, before);
      error := None;
    }
  }
}
