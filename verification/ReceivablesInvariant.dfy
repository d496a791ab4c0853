/**
 * What every transaction of the ledger keeps: allocations and withholding
 * never exceed an invoice, a VOID invoice carries neither, statuses are the
 * derived ones, and reversals come in pairs that cancel.
 */
module ReceivablesInvariant {
  import opened Wrappers
  import opened Sums
  import opened Receivables

  // ----- row sums -----

  lemma {:induction false} RowSumConcat(a: seq<Allocation>, b: seq<Allocation>, picked: Allocation -> bool)
    ensures RowSum(a + b, picked) == RowSum(a, picked) + RowSum(b, picked)
  {
    if b == [] {
      assert a + b == a;
    } else {
      var last := b[|b| - 1];
      assert (a + b)[..|a + b| - 1] == a + b[..|b| - 1] && (a + b)[|a + b| - 1] == last;
      RowSumConcat(a, b[..|b| - 1], picked);
    }
  }

  lemma {:induction false} RowSumOne(row: Allocation, picked: Allocation -> bool)
    ensures RowSum([row], picked) == if picked(row) then row.amount else 0
  {
    assert [row][..0] == [];
  }

  lemma {:induction false} RowSumNone(rows: seq<Allocation>, picked: Allocation -> bool)
    requires forall k :: 0 <= k < |rows| ==> !picked(rows[k])
    ensures RowSum(rows, picked) == 0
  {
    if rows != [] {
      RowSumNone(rows[..|rows| - 1], picked);
    }
  }

  lemma {:induction false} RowSumPositive(rows: seq<Allocation>, picked: Allocation -> bool)
    requires forall k :: 0 <= k < |rows| && picked(rows[k]) ==> rows[k].amount > 0
    ensures RowSum(rows, picked) >= 0
    ensures RowSum(rows, picked) == 0 ==> forall k :: 0 <= k < |rows| ==> !picked(rows[k])
  {
    if rows != [] {
      RowSumPositive(rows[..|rows| - 1], picked);
      forall k | 0 <= k < |rows| && RowSum(rows, picked) == 0
        ensures !picked(rows[k])
      {
        if k < |rows| - 1 {
          assert rows[k] == rows[..|rows| - 1][k];
        }
      }
    }
  }

  /** The allocations of payment `p` to invoice `i`. */
  function Cell(rows: seq<Allocation>, p: nat, i: nat): int {
    RowSum(rows, (row: Allocation) => row.payment == p && row.invoice == i)
  }

  /** What a reversal files under its own payment undoes the original's rows. */
  lemma {:induction false} MirroredSums(rows: seq<Allocation>, p: nat, q: nat, i: nat)
    ensures PaymentSum(MirroredRows(rows, p, q), q) == -PaymentSum(rows, p)
    ensures InvoiceSum(MirroredRows(rows, p, q), i) == -Cell(rows, p, i)
    ensures Cell(MirroredRows(rows, p, q), q, i) == -Cell(rows, p, i)
  {
    if rows != [] {
      var front, last := rows[..|rows| - 1], rows[|rows| - 1];
      MirroredSums(front, p, q, i);
      if last.payment == p {
        var row := Allocation(q, last.invoice, -last.amount);
        RowAdded(MirroredRows(front, p, q), row, q, i);
      } else {
        assert MirroredRows(front, p, q) + [] == MirroredRows(front, p, q);
      }
    }
  }

  lemma {:induction false} RowAdded(rows: seq<Allocation>, row: Allocation, p: nat, i: nat)
    ensures InvoiceSum(rows + [row], i) == InvoiceSum(rows, i) + (if row.invoice == i then row.amount else 0)
    ensures PaymentSum(rows + [row], p) == PaymentSum(rows, p) + (if row.payment == p then row.amount else 0)
    ensures Cell(rows + [row], p, i)
         == Cell(rows, p, i) + (if row.payment == p && row.invoice == i then row.amount else 0)
  {
    assert (rows + [row])[..|rows|] == rows;
  }

  lemma {:induction false} MirroredShape(rows: seq<Allocation>, p: nat, q: nat)
    ensures forall k :: 0 <= k < |MirroredRows(rows, p, q)| ==>
              && MirroredRows(rows, p, q)[k].payment == q
              && exists j :: 0 <= j < |rows| && rows[j].payment == p && rows[j].invoice == MirroredRows(rows, p, q)[k].invoice
                             && MirroredRows(rows, p, q)[k].amount == -rows[j].amount
  {
    if rows != [] {
      var front, last := rows[..|rows| - 1], rows[|rows| - 1];
      MirroredShape(front, p, q);
      forall k | 0 <= k < |MirroredRows(rows, p, q)|
        ensures MirroredRows(rows, p, q)[k].payment == q
        ensures exists j :: 0 <= j < |rows| && rows[j].payment == p && rows[j].invoice == MirroredRows(rows, p, q)[k].invoice
                            && MirroredRows(rows, p, q)[k].amount == -rows[j].amount
      {
        var row := MirroredRows(rows, p, q)[k];
        if k < |MirroredRows(front, p, q)| {
          assert row == MirroredRows(front, p, q)[k];
          var j :| 0 <= j < |front| && front[j].payment == p && front[j].invoice == row.invoice && row.amount == -front[j].amount;
          assert rows[j] == front[j];
        } else {
          assert rows[|rows| - 1] == last;
        }
      }
    }
  }

  /** Grouping by payment: an invoice's allocations, payment by payment. */
  lemma {:induction false} InvoiceSumByPayment(rows: seq<Allocation>, n: nat, i: nat)
    requires forall k :: 0 <= k < |rows| ==> rows[k].payment < n
    ensures InvoiceSum(rows, i) == Sum(n, (p: nat) => Cell(rows, p, i))
  {
    var after := (p: nat) => Cell(rows, p, i);
    if rows == [] {
      SumZero(n, after);
    } else {
      var front, last := rows[..|rows| - 1], rows[|rows| - 1];
      var before := (p: nat) => Cell(front, p, i);
      InvoiceSumByPayment(front, n, i);
      SumChange(n, before, after, last.payment);
    }
  }

  // ----- reversals come in pairs -----

  ghost predicate PaymentsOk(payments: seq<Payment>) {
    && (forall q :: 0 <= q < |payments| && payments[q].reversalOf.Some? ==>
          var p := payments[q].reversalOf.value;
          && p < q && payments[p].reversalOf.None?
          && payments[q].amount == -payments[p].amount && payments[q].customer == payments[p].customer)
    && (forall q, q' :: 0 <= q < q' < |payments| && payments[q].reversalOf.Some? ==>
          payments[q].reversalOf != payments[q'].reversalOf)
    && (forall p :: 0 <= p < |payments| && payments[p].reversalOf.None? ==> payments[p].amount > 0)
  }

  /** A payment's term and that of the row reversing it; nothing for a reversal itself. */
  function Paired(payments: seq<Payment>, f: nat -> int, p: nat): int {
    if p >= |payments| || payments[p].reversalOf.Some? then 0
    else
      match MirrorOf(payments, p)
      case Some(m) => f(p) + f(m)
      case None => f(p)
  }

  function PairTerms(payments: seq<Payment>, f: nat -> int): nat -> int {
    (p: nat) => Paired(payments, f, p)
  }

  lemma {:induction false} PaymentsOkBefore(payments: seq<Payment>, n: nat)
    requires PaymentsOk(payments) && n <= |payments|
    ensures PaymentsOk(payments[..n])
  {
  }

  lemma {:induction false} SumByPair(payments: seq<Payment>, f: nat -> int)
    requires PaymentsOk(payments)
    ensures Sum(|payments|, f) == Sum(|payments|, PairTerms(payments, f))
  {
    if payments != [] {
      var n, reversalOf := |payments| - 1, payments[|payments| - 1].reversalOf;
      var before, after := PairTerms(payments[..n], f), PairTerms(payments, f);
      PaymentsOkBefore(payments, n);
      SumByPair(payments[..n], f);
      forall p: nat
        ensures after(p) == before(p) + (if p == n && reversalOf.None? then f(n) else 0) + (if reversalOf == Some(p) then f(n) else 0)
      {
        PairedWithLast(payments, f, p);
      }
      LastPair(reversalOf, n, f(n), before, after);
    }
  }

  /** Adding a payment adds its term, to itself or to the payment it reverses. */
  lemma {:induction false} LastPair(reversalOf: Option<nat>, n: nat, term: int, before: nat -> int, after: nat -> int)
    requires reversalOf.Some? ==> reversalOf.value < n
    requires forall p: nat :: after(p) == before(p) + (if p == n && reversalOf.None? then term else 0)
                                          + (if reversalOf == Some(p) then term else 0)
    requires before(n) == 0
    ensures Sum(n + 1, after) == Sum(n, before) + term
  {
    if reversalOf.Some? {
      SumChange(n, before, after, reversalOf.value);
    } else {
      SumSame(n, before, after);
    }
  }

  lemma {:induction false} PairedWithLast(payments: seq<Payment>, f: nat -> int, p: nat)
    requires PaymentsOk(payments) && payments != []
    ensures var n := |payments| - 1;
            Paired(payments, f, p)
            == Paired(payments[..n], f, p)
               + (if p == n && payments[n].reversalOf.None? then f(n) else 0)
               + (if payments[n].reversalOf == Some(p) then f(n) else 0)
  {
    var n := |payments| - 1;
    if payments[n].reversalOf == Some(p) {
      assert MirrorOf(payments[..n], p).None?;
    }
  }

  // ----- the invariant -----

  ghost predicate RowsOk(ledger: Ledger) {
    forall k :: 0 <= k < |ledger.allocations| ==>
      var row := ledger.allocations[k];
      && row.payment < |ledger.payments| && row.invoice < |ledger.invoices|
      && ledger.invoices[row.invoice].customer == ledger.payments[row.payment].customer
      && (ledger.payments[row.payment].reversalOf.None? ==> row.amount > 0)
  }

  ghost predicate MoneyOk(ledger: Ledger, i: nat)
    requires i < |ledger.invoices|
  {
    var invoice, cash := ledger.invoices[i], InvoiceSum(ledger.allocations, i);
    && invoice.total >= 0 && invoice.wht >= 0
    && 0 <= cash && cash + invoice.wht <= invoice.total
    && (invoice.status == Void ==> cash == 0 && invoice.wht == 0)
  }

  /** Every status is the derived one, but VOID, and the ISSUED a free invoice starts with. */
  ghost predicate StatusOk(ledger: Ledger, i: nat)
    requires i < |ledger.invoices|
  {
    var invoice := ledger.invoices[i];
    || invoice.status == Void
    || (invoice.total == 0 && invoice.status == Issued)
    || invoice.status == DerivedStatus(invoice.total, invoice.wht, InvoiceSum(ledger.allocations, i))
  }

  ghost predicate InvoiceOk(ledger: Ledger, i: nat)
    requires i < |ledger.invoices|
  {
    MoneyOk(ledger, i) && StatusOk(ledger, i)
  }

  /** An original never allocates more than it brought; its reversal never undoes more. */
  ghost predicate PaymentOk(ledger: Ledger, p: nat)
    requires p < |ledger.payments|
  {
    if ledger.payments[p].reversalOf.None? then PaymentSum(ledger.allocations, p) <= ledger.payments[p].amount
    else PaymentSum(ledger.allocations, p) >= ledger.payments[p].amount
  }

  function Net(ledger: Ledger, p: nat, i: nat): int {
    Paired(ledger.payments, (k: nat) => Cell(ledger.allocations, k, i), p)
  }

  ghost predicate Valid(ledger: Ledger) {
    && RowsOk(ledger)
    && PaymentsOk(ledger.payments)
    && (forall i :: 0 <= i < |ledger.invoices| ==> InvoiceOk(ledger, i))
    && (forall p :: 0 <= p < |ledger.payments| ==> PaymentOk(ledger, p))
    && (forall p: nat, i: nat :: Net(ledger, p, i) >= 0)
  }

  // ----- every transaction keeps it -----

  lemma {:induction false} IssueKeepsValid(ledger: Ledger, customer: nat, total: int, day: int, dueOn: Option<int>)
    requires Valid(ledger) && total >= 0
    ensures Valid(Issue(ledger, customer, total, day, dueOn))
  {
    var after := Issue(ledger, customer, total, day, dueOn);
    var n := |ledger.invoices|;
    assert InvoiceSum(ledger.allocations, n) == 0 by {
      RowSumNone(ledger.allocations, (row: Allocation) => row.invoice == n);
    }
    SameRowsKeepPayments(ledger, after);
    forall i | 0 <= i < |after.invoices|
      ensures InvoiceOk(after, i)
    {
      assert i < n ==> InvoiceOk(ledger, i);
    }
  }

  /** An invoice is issued with the derived status unless it is free: that one is ISSUED, and the derivation says PAID. */
  lemma {:induction false} IssuedAsDerivedIff(ledger: Ledger, customer: nat, total: int, day: int, dueOn: Option<int>)
    requires Valid(ledger) && total >= 0
    ensures var after, n := Issue(ledger, customer, total, day, dueOn), |ledger.invoices|;
            after.invoices[n].status == DerivedStatus(total, 0, InvoiceSum(after.allocations, n)) <==> total > 0
  {
    RowSumNone(ledger.allocations, (row: Allocation) => row.invoice == |ledger.invoices|);
  }

  /** A free invoice takes no cash, and a withholding of zero makes it PAID, and then voiding it is refused. */
  lemma {:induction false} FreeInvoice(ledger: Ledger, i: nat, p: nat, amount: int, day: int)
    requires Valid(ledger) && i < |ledger.invoices| && ledger.invoices[i].total == 0
    requires ledger.invoices[i].status == Issued && amount > 0
    ensures Allocate(ledger, p, i, amount).Err? && VoidInvoice(ledger, i).Ok?
    ensures var settled := Withhold(ledger, i, 0, day);
            && settled.Ok? && settled.value.invoices[i].status == Paid
            && VoidInvoice(settled.value, i) == Err(NotVoidable)
  {
    assert InvoiceOk(ledger, i);
  }

  /** Payments do not change with the invoices. */
  lemma {:induction false} SameRowsKeepPayments(ledger: Ledger, after: Ledger)
    requires Valid(ledger) && after.payments == ledger.payments && after.allocations == ledger.allocations
    ensures forall p :: 0 <= p < |after.payments| ==> PaymentOk(after, p)
    ensures forall p: nat, i: nat :: Net(after, p, i) >= 0
  {
    assert forall p :: 0 <= p < |after.payments| && PaymentOk(ledger, p) ==> PaymentOk(after, p);
    assert forall p: nat, i: nat :: Net(after, p, i) == Net(ledger, p, i);
  }

  lemma {:induction false} PaymentKeepsValid(ledger: Ledger, customer: nat, amount: int, day: int)
    requires Valid(ledger) && amount > 0
    ensures Valid(WithPayment(ledger, Payment(customer, amount, day, None)))
  {
    var after := WithPayment(ledger, Payment(customer, amount, day, None));
    var n := |ledger.payments|;
    assert PaymentsOk(after.payments);
    forall i | 0 <= i < |after.invoices|
      ensures InvoiceOk(after, i)
    {
      assert InvoiceOk(ledger, i);
    }
    forall p | 0 <= p < |after.payments|
      ensures PaymentOk(after, p)
    {
      if p < n {
        assert PaymentOk(ledger, p);
      } else {
        RowSumNone(ledger.allocations, (row: Allocation) => row.payment == p);
      }
    }
    forall p: nat, i: nat
      ensures Net(after, p, i) >= 0
    {
      PaymentKeepsNet(ledger, Payment(customer, amount, day, None), p, i);
    }
  }

  lemma {:induction false} PaymentKeepsNet(ledger: Ledger, payment: Payment, p: nat, i: nat)
    requires Valid(ledger) && payment.reversalOf.None? && PaymentsOk(ledger.payments + [payment])
    ensures Net(WithPayment(ledger, payment), p, i) >= 0
  {
    var n := |ledger.payments|;
    PairedWithLast(ledger.payments + [payment], (k: nat) => Cell(ledger.allocations, k, i), p);
    assert (ledger.payments + [payment])[..n] == ledger.payments;
    RowSumNone(ledger.allocations, (row: Allocation) => row.payment == n && row.invoice == i);
    assert Net(ledger, p, i) >= 0;
  }

  /** A term added to a payment that is no reversal is added to its own pair only. */
  lemma {:induction false} PairedAdds(payments: seq<Payment>, f: nat -> int, g: nat -> int, at: nat, amount: int, p: nat)
    requires at < |payments| && payments[at].reversalOf.None?
    requires forall k: nat :: g(k) == f(k) + (if k == at then amount else 0)
    ensures Paired(payments, g, p) == Paired(payments, f, p) + (if p == at then amount else 0)
  {
  }

  lemma {:induction false} InsertKeepsNet(ledger: Ledger, p: nat, i: nat, amount: int, p': nat, i': nat)
    requires PaymentsOk(ledger.payments) && p < |ledger.payments| && ledger.payments[p].reversalOf.None?
    ensures var after := ledger.(allocations := ledger.allocations + [Allocation(p, i, amount)]);
            Net(after, p', i') == Net(ledger, p', i') + (if p' == p && i' == i then amount else 0)
  {
    var rows, more := ledger.allocations, ledger.allocations + [Allocation(p, i, amount)];
    var f, g := (k: nat) => Cell(rows, k, i'), (k: nat) => Cell(more, k, i');
    forall k: nat ensures g(k) == f(k) + (if k == p then (if i' == i then amount else 0) else 0) {
      RowAdded(rows, Allocation(p, i, amount), k, i');
    }
    PairedAdds(ledger.payments, f, g, p, if i' == i then amount else 0, p');
  }

  lemma {:induction false} InsertKeepsValid(ledger: Ledger, p: nat, i: nat, amount: int)
    requires Valid(ledger) && p < |ledger.payments| && amount > 0
    requires GuardAndInsert(ledger, p, i, amount).Ok?
    ensures Valid(GuardAndInsert(ledger, p, i, amount).value)
    ensures ledger.payments[p].reversalOf.None?
  {
    assert PaymentOk(ledger, p) && InvoiceOk(ledger, i);
    var row := Allocation(p, i, amount);
    var grown := ledger.(allocations := ledger.allocations + [row]);
    var after := GuardAndInsert(ledger, p, i, amount).value;
    assert after == Recomputed(grown, i);
    forall j | 0 <= j < |after.invoices|
      ensures InvoiceOk(after, j)
    {
      assert InvoiceOk(ledger, j);
      RowAdded(ledger.allocations, row, p, j);
    }
    forall q | 0 <= q < |after.payments|
      ensures PaymentOk(after, q)
    {
      assert PaymentOk(ledger, q);
      RowAdded(ledger.allocations, row, q, i);
    }
    forall p': nat, i': nat
      ensures Net(after, p', i') >= 0
    {
      InsertKeepsNet(ledger, p, i, amount, p', i');
      assert Net(ledger, p', i') >= 0 && Net(after, p', i') == Net(grown, p', i');
    }
    assert RowsOk(after);
  }

  lemma {:induction false} AllocateAllKeepsValid(ledger: Ledger, p: nat, splits: seq<(nat, int)>)
    requires Valid(ledger) && p < |ledger.payments|
    requires forall k :: 0 <= k < |splits| ==> splits[k].1 > 0
    ensures AllocateAll(ledger, p, splits).Ok? ==> Valid(AllocateAll(ledger, p, splits).value)
    decreases |splits|
  {
    if splits != [] && GuardAndInsert(ledger, p, splits[0].0, splits[0].1).Ok? {
      InsertKeepsValid(ledger, p, splits[0].0, splits[0].1);
      AllocateAllKeepsValid(GuardAndInsert(ledger, p, splits[0].0, splits[0].1).value, p, splits[1..]);
    }
  }

  lemma {:induction false} WithholdKeepsValid(ledger: Ledger, i: nat, amount: int, day: int)
    requires Valid(ledger) && amount >= 0 && Withhold(ledger, i, amount, day).Ok?
    ensures Valid(Withhold(ledger, i, amount, day).value)
  {
    var after := Withhold(ledger, i, amount, day).value;
    forall j | 0 <= j < |after.invoices|
      ensures InvoiceOk(after, j)
    {
      assert InvoiceOk(ledger, j);
    }
    SameRowsKeepPayments(ledger, after);
  }

  lemma {:induction false} VoidKeepsValid(ledger: Ledger, i: nat)
    requires Valid(ledger) && VoidInvoice(ledger, i).Ok?
    ensures Valid(VoidInvoice(ledger, i).value)
  {
    var after := VoidInvoice(ledger, i).value;
    forall j | 0 <= j < |after.invoices|
      ensures InvoiceOk(after, j)
    {
      assert InvoiceOk(ledger, j);
    }
    SameRowsKeepPayments(ledger, after);
  }

  // ----- reversing -----

  /** An invoice holds at least what a live payment has allocated to it. */
  lemma {:induction false} InvoiceHoldsCell(ledger: Ledger, p: nat, i: nat)
    requires Valid(ledger) && p < |ledger.payments| && IsLive(ledger, p)
    ensures 0 <= Cell(ledger.allocations, p, i) <= InvoiceSum(ledger.allocations, i)
  {
    var n := |ledger.payments|;
    var cells := (k: nat) => Cell(ledger.allocations, k, i);
    var nets := PairTerms(ledger.payments, cells);
    InvoiceSumByPayment(ledger.allocations, n, i);
    SumByPair(ledger.payments, cells);
    forall k: nat | k < n
      ensures nets(k) >= 0
    {
      assert nets(k) == Net(ledger, k, i);
    }
    SumBounds(n, nets);
    assert nets(p) == Cell(ledger.allocations, p, i);
  }

  /** The ledger a reversal leaves before the statuses are derived again. */
  function Reversed(ledger: Ledger, p: nat, today: int): Ledger
    requires p < |ledger.payments|
  {
    var original, q := ledger.payments[p], |ledger.payments|;
    WithPayment(ledger, Payment(original.customer, -original.amount, today, Some(p)))
      .(allocations := ledger.allocations + MirroredRows(ledger.allocations, p, q))
  }

  /** How a reversal moves the sums. */
  lemma {:induction false} ReversedSums(ledger: Ledger, p: nat, today: int, k: nat, i: nat)
    requires RowsOk(ledger) && p < |ledger.payments|
    ensures var after, q := Reversed(ledger, p, today), |ledger.payments|;
            && InvoiceSum(after.allocations, i) == InvoiceSum(ledger.allocations, i) - Cell(ledger.allocations, p, i)
            && PaymentSum(after.allocations, k)
               == (if k == q then -PaymentSum(ledger.allocations, p) else PaymentSum(ledger.allocations, k))
            && Cell(after.allocations, k, i)
               == (if k == q then -Cell(ledger.allocations, p, i) else Cell(ledger.allocations, k, i))
  {
    var rows, q := ledger.allocations, |ledger.payments|;
    var mirrored := MirroredRows(rows, p, q);
    MirroredSums(rows, p, q, i);
    MirroredShape(rows, p, q);
    RowSumConcat(rows, mirrored, (row: Allocation) => row.invoice == i);
    RowSumConcat(rows, mirrored, (row: Allocation) => row.payment == k);
    RowSumConcat(rows, mirrored, (row: Allocation) => row.payment == k && row.invoice == i);
    if k == q {
      RowSumNone(rows, (row: Allocation) => row.payment == k);
      RowSumNone(rows, (row: Allocation) => row.payment == k && row.invoice == i);
    } else {
      RowSumNone(mirrored, (row: Allocation) => row.payment == k);
      RowSumNone(mirrored, (row: Allocation) => row.payment == k && row.invoice == i);
    }
  }

  lemma {:induction false} ReversedRowsOk(ledger: Ledger, p: nat, today: int)
    requires Valid(ledger) && p < |ledger.payments| && IsLive(ledger, p)
    ensures RowsOk(Reversed(ledger, p, today)) && PaymentsOk(Reversed(ledger, p, today).payments)
  {
    MirroredShape(ledger.allocations, p, |ledger.payments|);
  }

  lemma {:induction false} PairedAgrees(payments: seq<Payment>, f: nat -> int, g: nat -> int, p: nat)
    requires forall k: nat :: k < |payments| ==> g(k) == f(k)
    ensures Paired(payments, f, p) == Paired(payments, g, p)
  {
  }

  lemma {:induction false} ReversedNet(ledger: Ledger, p: nat, today: int, k: nat, i: nat)
    requires Valid(ledger) && p < |ledger.payments| && IsLive(ledger, p)
    ensures Net(Reversed(ledger, p, today), k, i) == if k == p then 0 else Net(ledger, k, i)
  {
    var after, q := Reversed(ledger, p, today), |ledger.payments|;
    ReversedRowsOk(ledger, p, today);
    var before, cells := (j: nat) => Cell(ledger.allocations, j, i), (j: nat) => Cell(after.allocations, j, i);
    PairedWithLast(after.payments, cells, k);
    assert after.payments[..q] == ledger.payments;
    forall j: nat | j < q ensures cells(j) == before(j) {
      ReversedSums(ledger, p, today, j, i);
    }
    PairedAgrees(ledger.payments, before, cells, k);
    ReversedSums(ledger, p, today, q, i);
  }

  /** Deriving the statuses of the touched invoices is enough. */
  lemma {:induction false} RecomputedForKeeps(ledger: Ledger, rows: seq<Allocation>)
    requires forall i :: 0 <= i < |ledger.invoices| ==> MoneyOk(ledger, i)
    requires forall i :: 0 <= i < |ledger.invoices| ==>
               StatusOk(ledger, i) || exists k :: 0 <= k < |rows| && rows[k].invoice == i
    ensures forall i :: 0 <= i < |ledger.invoices| ==> InvoiceOk(RecomputedFor(ledger, rows), i)
    ensures forall i :: 0 <= i < |ledger.invoices| ==>
              RecomputedFor(ledger, rows).invoices[i].customer == ledger.invoices[i].customer
    decreases |rows|
  {
    if rows != [] {
      var i := rows[0].invoice;
      var next := if i < |ledger.invoices| then Recomputed(ledger, i) else ledger;
      forall j | 0 <= j < |next.invoices|
        ensures MoneyOk(next, j)
        ensures StatusOk(next, j) || exists k :: 0 <= k < |rows[1..]| && rows[1..][k].invoice == j
      {
        assert MoneyOk(ledger, j);
        if !StatusOk(ledger, j) && j != i {
          var k :| 0 <= k < |rows| && rows[k].invoice == j;
          assert rows[1..][k - 1].invoice == j;
        }
      }
      RecomputedForKeeps(next, rows[1..]);
    }
  }

  lemma {:induction false} ReverseKeepsValid(ledger: Ledger, p: nat, today: int)
    requires Valid(ledger) && Reverse(ledger, p, today).Ok?
    ensures Valid(Reverse(ledger, p, today).value)
  {
    var q := |ledger.payments|;
    var mirrored, moved := MirroredRows(ledger.allocations, p, q), Reversed(ledger, p, today);
    var after := RecomputedFor(moved, mirrored);
    ReversedRowsOk(ledger, p, today);
    forall i | 0 <= i < |moved.invoices|
      ensures MoneyOk(moved, i)
      ensures StatusOk(moved, i) || exists k :: 0 <= k < |mirrored| && mirrored[k].invoice == i
    {
      assert InvoiceOk(ledger, i);
      InvoiceHoldsCell(ledger, p, i);
      ReversedSums(ledger, p, today, p, i);
      if forall k :: 0 <= k < |mirrored| ==> mirrored[k].invoice != i {
        MirroredSums(ledger.allocations, p, q, i);
        RowSumNone(mirrored, (row: Allocation) => row.invoice == i);
      }
    }
    RecomputedForKeeps(moved, mirrored);
    assert RowsOk(after);
    forall k | 0 <= k < |after.payments|
      ensures PaymentOk(after, k)
    {
      ReversedSums(ledger, p, today, k, 0);
      assert PaymentOk(ledger, p);
      if k < q {
        assert PaymentOk(ledger, k);
      }
    }
    forall k: nat, i: nat
      ensures Net(after, k, i) >= 0
    {
      ReversedNet(ledger, p, today, k, i);
      assert Net(after, k, i) == Net(moved, k, i) && Net(ledger, k, i) >= 0;
    }
  }

  // ----- runs -----

  lemma {:induction false} CommandKeepsValid(ledger: Ledger, c: Command)
    requires Valid(ledger) && IsRequest(c)
    ensures Valid(After(ledger, c))
  {
    if Execute(ledger, c).Ok? {
      match c {
        case DoIssue(customer, total, day, dueOn) => IssueKeepsValid(ledger, customer, total, day, dueOn);
        case DoRecord(customer, amount, day, splits) =>
          PaymentKeepsValid(ledger, customer, amount, day);
          AllocateAllKeepsValid(WithPayment(ledger, Payment(customer, amount, day, None)), |ledger.payments|, splits);
        case DoAllocate(p, i, amount) => InsertKeepsValid(ledger, p, i, amount);
        case DoReverse(p, day) => ReverseKeepsValid(ledger, p, day);
        case DoWithhold(i, amount, day) => WithholdKeepsValid(ledger, i, amount, day);
        case DoVoid(i) => VoidKeepsValid(ledger, i);
      }
    }
  }

  /** A status told from the amounts: what an invoice is short of its total, and whether any cash is on it. */
  predicate SaysWhatIsPaid(ledger: Ledger, i: nat)
    requires i < |ledger.invoices|
  {
    var invoice, cash := ledger.invoices[i], InvoiceSum(ledger.allocations, i);
    var settled := cash + invoice.wht;
    && (invoice.status == Paid <==> settled == invoice.total)
    && (invoice.status == PartiallyPaid <==> cash > 0 && settled < invoice.total)
    && (invoice.status == Issued <==> cash == 0 && settled < invoice.total)
  }

  lemma {:induction false} StatusIsWhatIsPaid(ledger: Ledger, i: nat)
    requires Valid(ledger) && i < |ledger.invoices|
    requires ledger.invoices[i].status != Void && ledger.invoices[i].total > 0
    ensures SaysWhatIsPaid(ledger, i)
  {
    assert InvoiceOk(ledger, i);
  }

  /**
   * After any sequence of requests an invoice that costs something and is not
   * VOID is PAID exactly when cash and withholding come to its total; short of
   * it, PARTIALLY_PAID exactly when there is cash, and ISSUED when there is none.
   */
  lemma {:induction false} StatusesSayWhatIsPaid(commands: seq<Command>, i: nat)
    requires AreRequests(commands) && i < |RunAll(commands).invoices|
    requires RunAll(commands).invoices[i].status != Void && RunAll(commands).invoices[i].total > 0
    ensures SaysWhatIsPaid(RunAll(commands), i)
  {
    ReachableIsValid(commands);
    StatusIsWhatIsPaid(RunAll(commands), i);
  }

  /** Every ledger any sequence of requests leads to is valid. */
  lemma {:induction false} ReachableIsValid(commands: seq<Command>)
    requires AreRequests(commands)
    ensures Valid(RunAll(commands))
  {
    if commands == [] {
      assert forall p: nat, i: nat :: Net(EMPTY, p, i) >= 0;
    } else {
      ReachableIsValid(commands[..|commands| - 1]);
      CommandKeepsValid(RunAll(commands[..|commands| - 1]), commands[|commands| - 1]);
    }
  }
}
