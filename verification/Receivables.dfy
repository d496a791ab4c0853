/**
 * The accounts-receivable ledger as committed rows, and each transaction of
 * InvoicesRepository and PaymentsRepository as a function of them. Money is
 * in cents, dates are day numbers, and a row's id is its position.
 */
module Receivables {
  import opened Wrappers

  datatype Status = Issued | PartiallyPaid | Paid | Void

  datatype Invoice = Invoice(
    customer: nat,
    total: int,
    wht: int,
    status: Status,
    issuedOn: int,
    whtOn: Option<int>,
    dueOn: Option<int>)

  /** A reversal is a second row pointing at the first; neither row ever changes. */
  datatype Payment = Payment(customer: nat, amount: int, receivedOn: int, reversalOf: Option<nat>)

  datatype Allocation = Allocation(payment: nat, invoice: nat, amount: int)

  datatype Ledger = Ledger(invoices: seq<Invoice>, payments: seq<Payment>, allocations: seq<Allocation>)

  datatype LedgerError =
    | NotFound
    | InvoiceIsVoid
    | OtherCustomer
    | ExceedsInvoice
    | ExceedsPayment
    | AlreadyAllocated
    | IsAReversal
    | AlreadyReversed
    | AllocationNotPositive
    | NotVoidable

  type Outcome = Result<Ledger, LedgerError>

  // ----- sums over the allocation rows -----

  function RowSum(rows: seq<Allocation>, picked: Allocation -> bool): int {
    if rows == [] then 0
    else
      var last := rows[|rows| - 1];
      RowSum(rows[..|rows| - 1], picked) + (if picked(last) then last.amount else 0)
  }

  function InvoiceSum(rows: seq<Allocation>, i: nat): int {
    RowSum(rows, (row: Allocation) => row.invoice == i)
  }

  function PaymentSum(rows: seq<Allocation>, p: nat): int {
    RowSum(rows, (row: Allocation) => row.payment == p)
  }

  /** derivePaymentStatus: settled by cash and withholding together, else by any cash. */
  function DerivedStatus(total: int, wht: int, cash: int): Status {
    if cash + wht >= total then Paid
    else if cash > 0 then PartiallyPaid
    else Issued
  }

  /** recomputePaymentStatus: VOID is terminal, every other status is derived. */
  function Recomputed(ledger: Ledger, i: nat): Ledger
    requires i < |ledger.invoices|
  {
    var invoice := ledger.invoices[i];
    if invoice.status == Void then ledger
    else
      var status := DerivedStatus(invoice.total, invoice.wht, InvoiceSum(ledger.allocations, i));
      ledger.(invoices := ledger.invoices[i := invoice.(status := status)])
  }

  // ----- the transactions -----

  function Issue(ledger: Ledger, customer: nat, total: int, issuedOn: int, dueOn: Option<int>): Ledger {
    ledger.(invoices := ledger.invoices + [Invoice(customer, total, 0, Issued, issuedOn, None, dueOn)])
  }

  predicate HasRow(rows: seq<Allocation>, payment: nat, invoice: nat) {
    exists k :: 0 <= k < |rows| && rows[k].payment == payment && rows[k].invoice == invoice
  }

  /** guardAndInsertAllocation, under the locks of the payment and the invoice. */
  function GuardAndInsert(ledger: Ledger, p: nat, i: nat, amount: int): Outcome
    requires p < |ledger.payments|
  {
    if i >= |ledger.invoices| then Err(NotFound)
    else
      var invoice, payment := ledger.invoices[i], ledger.payments[p];
      if invoice.status == Void then Err(InvoiceIsVoid)
      else if invoice.customer != payment.customer then Err(OtherCustomer)
      else if InvoiceSum(ledger.allocations, i) + invoice.wht + amount > invoice.total then Err(ExceedsInvoice)
      else if PaymentSum(ledger.allocations, p) + amount > payment.amount then Err(ExceedsPayment)
      else if HasRow(ledger.allocations, p, i) then Err(AlreadyAllocated)
      else Ok(Recomputed(ledger.(allocations := ledger.allocations + [Allocation(p, i, amount)]), i))
  }

  function Allocate(ledger: Ledger, p: nat, i: nat, amount: int): Outcome {
    if p >= |ledger.payments| then Err(NotFound) else GuardAndInsert(ledger, p, i, amount)
  }

  /** The allocation loop of `record`: the first refusal rolls the whole transaction back. */
  function AllocateAll(ledger: Ledger, p: nat, splits: seq<(nat, int)>): Outcome
    requires p < |ledger.payments|
    decreases |splits|
  {
    if splits == [] then Ok(ledger)
    else
      var next :- GuardAndInsert(ledger, p, splits[0].0, splits[0].1);
      AllocateAll(next, p, splits[1..])
  }

  function WithPayment(ledger: Ledger, payment: Payment): Ledger {
    ledger.(payments := ledger.payments + [payment])
  }

  function Record(ledger: Ledger, customer: nat, amount: int, receivedOn: int, splits: seq<(nat, int)>): Outcome {
    AllocateAll(WithPayment(ledger, Payment(customer, amount, receivedOn, None)), |ledger.payments|, splits)
  }

  /** The row that reverses payment `p`, if any. */
  function MirrorOf(payments: seq<Payment>, p: nat): (m: Option<nat>)
    ensures m.Some? ==> m.value < |payments| && payments[m.value].reversalOf == Some(p)
    ensures m.None? ==> forall q :: 0 <= q < |payments| ==> payments[q].reversalOf != Some(p)
  {
    if payments == [] then None
    else if payments[|payments| - 1].reversalOf == Some(p) then Some(|payments| - 1)
    else MirrorOf(payments[..|payments| - 1], p)
  }

  predicate IsReversed(ledger: Ledger, p: nat) {
    MirrorOf(ledger.payments, p).Some?
  }

  /** A live payment is neither a reversal nor reversed. */
  predicate IsLive(ledger: Ledger, p: nat)
    requires p < |ledger.payments|
  {
    ledger.payments[p].reversalOf.None? && !IsReversed(ledger, p)
  }

  /** The rows of payment `p`, negated and filed under payment `q`. */
  function MirroredRows(rows: seq<Allocation>, p: nat, q: nat): seq<Allocation> {
    if rows == [] then []
    else
      var last := rows[|rows| - 1];
      MirroredRows(rows[..|rows| - 1], p, q)
      + (if last.payment == p then [Allocation(q, last.invoice, -last.amount)] else [])
  }

  predicate AllPositive(rows: seq<Allocation>, p: nat) {
    forall k :: 0 <= k < |rows| && rows[k].payment == p ==> rows[k].amount >= 0
  }

  /** Statuses again for the invoice of every row in `rows`. */
  function RecomputedFor(ledger: Ledger, rows: seq<Allocation>): (r: Ledger)
    ensures |r.invoices| == |ledger.invoices|
    ensures r.allocations == ledger.allocations && r.payments == ledger.payments
    decreases |rows|
  {
    if rows == [] then ledger
    else
      var i := rows[0].invoice;
      RecomputedFor(if i < |ledger.invoices| then Recomputed(ledger, i) else ledger, rows[1..])
  }

  function Reverse(ledger: Ledger, p: nat, today: int): Outcome {
    if p >= |ledger.payments| then Err(NotFound)
    else
      var original, q := ledger.payments[p], |ledger.payments|;
      if original.reversalOf.Some? then Err(IsAReversal)
      else if IsReversed(ledger, p) then Err(AlreadyReversed)
      else if !AllPositive(ledger.allocations, p) then Err(AllocationNotPositive)
      else
        var mirrored := MirroredRows(ledger.allocations, p, q);
        var paid := WithPayment(ledger, Payment(original.customer, -original.amount, today, Some(p)));
        Ok(RecomputedFor(paid.(allocations := ledger.allocations + mirrored), mirrored))
  }

  function Withhold(ledger: Ledger, i: nat, amount: int, recordedOn: int): Outcome {
    if i >= |ledger.invoices| then Err(NotFound)
    else
      var invoice := ledger.invoices[i];
      if invoice.status == Void then Err(InvoiceIsVoid)
      else if InvoiceSum(ledger.allocations, i) + amount > invoice.total then Err(ExceedsInvoice)
      else
        var whtOn := if amount == 0 then None else Some(recordedOn);
        Ok(Recomputed(ledger.(invoices := ledger.invoices[i := invoice.(wht := amount, whtOn := whtOn)]), i))
  }

  function VoidInvoice(ledger: Ledger, i: nat): Outcome {
    if i >= |ledger.invoices| then Err(NotFound)
    else
      var invoice := ledger.invoices[i];
      if invoice.status != Issued || invoice.wht > 0 || InvoiceSum(ledger.allocations, i) != 0 then Err(NotVoidable)
      else Ok(ledger.(invoices := ledger.invoices[i := invoice.(status := Void)]))
  }

  // ----- runs -----

  datatype Command =
    | DoIssue(customer: nat, total: int, day: int, dueOn: Option<int>)
    | DoRecord(customer: nat, amount: int, day: int, splits: seq<(nat, int)>)
    | DoAllocate(payment: nat, invoice: nat, amount: int)
    | DoReverse(payment: nat, day: int)
    | DoWithhold(invoice: nat, amount: int, day: int)
    | DoVoid(invoice: nat)

  /** What the request DTOs let through: positive payments and allocations, and totals and withholdings of zero or more. */
  predicate IsRequest(c: Command) {
    match c
    case DoIssue(_, total, _, _) => total >= 0
    case DoRecord(_, amount, _, splits) => amount > 0 && forall k :: 0 <= k < |splits| ==> splits[k].1 > 0
    case DoAllocate(_, _, amount) => amount > 0
    case DoReverse(_, _) => true
    case DoWithhold(_, amount, _) => amount >= 0
    case DoVoid(_) => true
  }

  function Execute(ledger: Ledger, c: Command): Outcome {
    match c
    case DoIssue(customer, total, day, dueOn) => Ok(Issue(ledger, customer, total, day, dueOn))
    case DoRecord(customer, amount, day, splits) => Record(ledger, customer, amount, day, splits)
    case DoAllocate(p, i, amount) => Allocate(ledger, p, i, amount)
    case DoReverse(p, day) => Reverse(ledger, p, day)
    case DoWithhold(i, amount, day) => Withhold(ledger, i, amount, day)
    case DoVoid(i) => VoidInvoice(ledger, i)
  }

  /** The committed rows after a request: unchanged if it was refused. */
  function After(ledger: Ledger, c: Command): Ledger {
    var r := Execute(ledger, c);
    if r.Ok? then r.value else ledger
  }

  const EMPTY := Ledger([], [], [])

  function RunAll(commands: seq<Command>): Ledger {
    if commands == [] then EMPTY
    else After(RunAll(commands[..|commands| - 1]), commands[|commands| - 1])
  }

  predicate AreRequests(commands: seq<Command>) {
    forall k :: 0 <= k < |commands| ==> IsRequest(commands[k])
  }
}
