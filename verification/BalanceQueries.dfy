/**
 * The four queries behind a stored balance, each of which may see other rows
 * than the one before it: the open invoices of a customer, the cash allocated to
 * those, the customer's live payments, and the cash allocated from those. And how
 * a transaction of the ledger moves what each of them returns.
 */
module BalanceQueries {
  import opened Wrappers
  import opened Sums
  import opened Receivables
  import opened ReceivablesInvariant
  import opened CustomerBalance
  import opened CustomerStatement
  import opened ReceivablesBook
  import P = InvoiceProtocol

  // ----- the queries -----

  function BilledTotal(ledger: Ledger, c: nat): int {
    Sum(|ledger.invoices|, (i: nat) => Billed(ledger, c, i))
  }

  function OpenInvoices(ledger: Ledger, c: nat): set<nat> {
    set i: nat | i < |ledger.invoices| && ledger.invoices[i].customer == c && ledger.invoices[i].status != Void
  }

  function LivePayments(ledger: Ledger, c: nat): set<nat> {
    set p: nat | p < |ledger.payments| && IsLiveFor(ledger.payments, c, p)
  }

  /** What the payments `live` brought in. */
  function PaidBy(ledger: Ledger, live: set<nat>): int {
    Sum(|ledger.payments|, (p: nat) => if p < |ledger.payments| && p in live then ledger.payments[p].amount else 0)
  }

  /** The cash allocated to the invoices `open`. */
  function CashOn(rows: seq<Allocation>, open: set<nat>): int {
    RowSum(rows, (row: Allocation) => row.invoice in open)
  }

  /** The cash allocated from the payments `live`. */
  function CashFrom(rows: seq<Allocation>, live: set<nat>): int {
    RowSum(rows, (row: Allocation) => row.payment in live)
  }

  /** What customer `c` still owes on invoices, from the rows the first and the second query see. */
  function Invoiced(first: Ledger, second: Ledger, c: nat): int {
    BilledTotal(first, c) - CashOn(second.allocations, OpenInvoices(first, c))
  }

  /** The unapplied cash, from the rows the third and the fourth query see. */
  function OnAccount(third: Ledger, fourth: Ledger, c: nat): int {
    PaidBy(third, LivePayments(third, c)) - CashFrom(fourth.allocations, LivePayments(third, c))
  }

  // ----- all four at one instant -----

  lemma {:induction false} CashOnByInvoice(rows: seq<Allocation>, open: set<nat>, n: nat)
    requires forall i :: i in open ==> i < n
    ensures Sum(n, (i: nat) => if i in open then InvoiceSum(rows, i) else 0) == CashOn(rows, open)
  {
    var after := (i: nat) => if i in open then InvoiceSum(rows, i) else 0;
    if rows == [] {
      SumZero(n, after);
    } else {
      var front, last := rows[..|rows| - 1], rows[|rows| - 1];
      var before := (i: nat) => if i in open then InvoiceSum(front, i) else 0;
      CashOnByInvoice(front, open, n);
      if last.invoice in open {
        SumChange(n, before, after, last.invoice);
      } else {
        SumSame(n, before, after);
      }
    }
  }

  lemma {:induction false} CashFromByPayment(rows: seq<Allocation>, live: set<nat>, n: nat)
    requires forall p :: p in live ==> p < n
    ensures Sum(n, (p: nat) => if p in live then PaymentSum(rows, p) else 0) == CashFrom(rows, live)
  {
    var after := (p: nat) => if p in live then PaymentSum(rows, p) else 0;
    if rows == [] {
      SumZero(n, after);
    } else {
      var front, last := rows[..|rows| - 1], rows[|rows| - 1];
      var before := (p: nat) => if p in live then PaymentSum(front, p) else 0;
      CashFromByPayment(front, live, n);
      if last.payment in live {
        SumChange(n, before, after, last.payment);
      } else {
        SumSame(n, before, after);
      }
    }
  }

  lemma {:induction false} InvoicedAtOnce(ledger: Ledger, c: nat)
    ensures Invoiced(ledger, ledger, c) == InvoicedBalance(ledger, c)
  {
    var n, open := |ledger.invoices|, OpenInvoices(ledger, c);
    var cash := (i: nat) => if i in open then InvoiceSum(ledger.allocations, i) else 0;
    CashOnByInvoice(ledger.allocations, open, n);
    SumPlus(n, (i: nat) => Outstanding(ledger, c, i), cash, (i: nat) => Billed(ledger, c, i));
  }

  lemma {:induction false} OnAccountAtOnce(ledger: Ledger, c: nat)
    requires PaymentsOk(ledger.payments)
    ensures OnAccount(ledger, ledger, c) == UnappliedCash(ledger, c)
  {
    var n, live := |ledger.payments|, LivePayments(ledger, c);
    var cash := (p: nat) => if p in live then PaymentSum(ledger.allocations, p) else 0;
    CashFromByPayment(ledger.allocations, live, n);
    SumPlus(n, (p: nat) => UnappliedFor(ledger, c, p), cash,
            (p: nat) => if p < |ledger.payments| && p in live then ledger.payments[p].amount else 0);
    RecomputedIsBalance(ledger, c);
  }

  /** Asked at one instant, the four queries give the balance. */
  lemma {:induction false} BalanceIsQueried(ledger: Ledger, c: nat)
    requires PaymentsOk(ledger.payments)
    ensures Invoiced(ledger, ledger, c) - OnAccount(ledger, ledger, c) == Balance(ledger, c)
  {
    InvoicedAtOnce(ledger, c);
    OnAccountAtOnce(ledger, c);
  }

  // ----- what one transaction adds to a balance -----

  /** The customer whose balance a transaction recomputes. */
  function Whose(c: Command, seen: P.Seen): nat
    requires P.Decide(c, seen).Some?
  {
    match c
    case DoIssue(customer, _, _, _) => customer
    case DoRecord(customer, _, _, _) => customer
    case DoAllocate(p, _, _) => seen[P.Pay(p)].payment.customer
    case DoReverse(p, _) => seen[P.Pay(p)].payment.customer
    case DoWithhold(i, _, _) => seen[P.Inv(i)].invoice.customer
    case DoVoid(i) => seen[P.Inv(i)].invoice.customer
  }

  /** What it adds to that balance, told from what it has read. */
  function Move(c: Command, seen: P.Seen): int
    requires P.Decide(c, seen).Some?
  {
    match c
    case DoIssue(_, total, _, _) => total
    case DoRecord(_, amount, _, _) => -amount
    case DoAllocate(p, _, amount) => if seen[P.Pay(p)].reversed then -amount else 0
    case DoReverse(p, _) => seen[P.Pay(p)].payment.amount
    case DoWithhold(i, amount, _) => seen[P.Inv(i)].invoice.wht - amount
    case DoVoid(i) => -seen[P.Inv(i)].invoice.total
  }

  /** Statuses move no total, unless they void. */
  lemma {:induction false} BilledAsBefore(ledger: Ledger, after: Ledger, c: nat)
    requires |after.invoices| == |ledger.invoices|
    requires forall i :: 0 <= i < |ledger.invoices| ==> Billed(after, c, i) == Billed(ledger, c, i)
    ensures BilledTotal(after, c) == BilledTotal(ledger, c)
  {
    SumSame(|ledger.invoices|, (i: nat) => Billed(after, c, i), (i: nat) => Billed(ledger, c, i));
  }

  lemma {:induction false} BilledAt(ledger: Ledger, after: Ledger, c: nat, at: nat)
    requires |after.invoices| == |ledger.invoices| && at < |ledger.invoices|
    requires forall i :: 0 <= i < |ledger.invoices| && i != at ==> after.invoices[i] == ledger.invoices[i]
    ensures BilledTotal(after, c) == BilledTotal(ledger, c) + (Billed(after, c, at) - Billed(ledger, c, at))
  {
    SumChange(|ledger.invoices|, (i: nat) => Billed(ledger, c, i), (i: nat) => Billed(after, c, i), at);
  }

  lemma {:induction false} BilledMore(ledger: Ledger, invoice: Invoice, c: nat)
    ensures var after := ledger.(invoices := ledger.invoices + [invoice]);
            BilledTotal(after, c) == BilledTotal(ledger, c) + Billed(after, c, |ledger.invoices|)
  {
    var after := ledger.(invoices := ledger.invoices + [invoice]);
    SumSame(|ledger.invoices|, (i: nat) => Billed(after, c, i), (i: nat) => Billed(ledger, c, i));
  }

  /** Only statuses differ, and none to or from VOID. */
  ghost predicate OnlyStatuses(ledger: Ledger, after: Ledger) {
    && |after.invoices| == |ledger.invoices|
    && forall i :: 0 <= i < |ledger.invoices| ==>
         && after.invoices[i] == ledger.invoices[i].(status := after.invoices[i].status)
         && (after.invoices[i].status == Void <==> ledger.invoices[i].status == Void)
  }

  lemma {:induction false} InsertTouches(ledger: Ledger, p: nat, i: nat, amount: int)
    requires p < |ledger.payments| && GuardAndInsert(ledger, p, i, amount).Ok?
    ensures OnlyStatuses(ledger, GuardAndInsert(ledger, p, i, amount).value)
    ensures GuardAndInsert(ledger, p, i, amount).value.payments == ledger.payments
  {
  }

  lemma {:induction false} AllocateAllTouches(ledger: Ledger, p: nat, splits: seq<(nat, int)>)
    requires p < |ledger.payments| && AllocateAll(ledger, p, splits).Ok?
    ensures OnlyStatuses(ledger, AllocateAll(ledger, p, splits).value)
    ensures AllocateAll(ledger, p, splits).value.payments == ledger.payments
    decreases |splits|
  {
    if splits != [] {
      var next := GuardAndInsert(ledger, p, splits[0].0, splits[0].1).value;
      InsertTouches(ledger, p, splits[0].0, splits[0].1);
      AllocateAllTouches(next, p, splits[1..]);
    }
  }

  lemma {:induction false} ReverseTouches(ledger: Ledger, p: nat, day: int)
    requires Reverse(ledger, p, day).Ok?
    ensures OnlyStatuses(ledger, Reverse(ledger, p, day).value)
    ensures Reverse(ledger, p, day).value.payments
         == ledger.payments + [Payment(ledger.payments[p].customer, -ledger.payments[p].amount, day, Some(p))]
  {
    RecomputedForTouches(Reversed(ledger, p, day), MirroredRows(ledger.allocations, p, |ledger.payments|));
  }

  /** How a request that goes ahead moves what customer `c` was billed. */
  function BilledMove(ledger: Ledger, c: nat, command: Command): int
    requires Execute(ledger, command).Ok?
  {
    match command
    case DoIssue(customer, total, _, _) => if customer == c then total else 0
    case DoWithhold(i, amount, _) => if ledger.invoices[i].customer == c then ledger.invoices[i].wht - amount else 0
    case DoVoid(i) => if ledger.invoices[i].customer == c then -ledger.invoices[i].total else 0
    case _ => 0
  }

  lemma {:induction false} BilledMoves(ledger: Ledger, c: nat, command: Command)
    requires Valid(ledger) && Execute(ledger, command).Ok?
    ensures BilledTotal(Execute(ledger, command).value, c) == BilledTotal(ledger, c) + BilledMove(ledger, c, command)
  {
    var after := Execute(ledger, command).value;
    match command {
      case DoIssue(customer, total, day, dueOn) =>
        BilledMore(ledger, Invoice(customer, total, 0, Issued, day, None, dueOn), c);
      case DoRecord(customer, amount, day, splits) =>
        AllocateAllTouches(WithPayment(ledger, Payment(customer, amount, day, None)), |ledger.payments|, splits);
        BilledAsBefore(ledger, after, c);
      case DoAllocate(p, i, amount) =>
        InsertTouches(ledger, p, i, amount);
        BilledAsBefore(ledger, after, c);
      case DoReverse(p, day) =>
        ReverseTouches(ledger, p, day);
        BilledAsBefore(ledger, after, c);
      case DoWithhold(i, _, _) =>
        BilledAt(ledger, after, c, i);
      case DoVoid(i) =>
        assert InvoiceOk(ledger, i);
        BilledAt(ledger, after, c, i);
    }
  }

  // ----- the four queries around one transaction, told from the rows it has locked -----

  /** The transaction goes ahead, and what it has read is still so in `ledger`. */
  ghost predicate Stands(ledger: Ledger, command: Command, seen: P.Seen) {
    Valid(ledger) && IsRequest(command) && P.Current(seen, ledger) && P.Decide(command, seen).Some?
  }

  /** `ledger` as the transaction itself sees it, its own writes among the rows. */
  function Written(ledger: Ledger, command: Command, seen: P.Seen): Ledger
    requires P.Decide(command, seen).Some?
  {
    P.Apply(ledger, P.Decide(command, seen).value)
  }

  /** The allocation rows it adds, its own payment being number `q`. */
  function NewRows(command: Command, seen: P.Seen, q: nat): seq<Allocation>
    requires P.Decide(command, seen).Some?
  {
    match P.Decide(command, seen).value
    case AddPayment(_, splits, _) => P.RowsFor(splits, q)
    case AddAllocation(row, _) => [row]
    case AddReversal(_, _, rows, _) => P.Negated(rows, q)
    case _ => []
  }

  /** What it adds to its customer's billed total. */
  function BilledPart(command: Command, seen: P.Seen): int
    requires P.Decide(command, seen).Some?
  {
    match command
    case DoIssue(_, total, _, _) => total
    case DoWithhold(i, amount, _) => seen[P.Inv(i)].invoice.wht - amount
    case DoVoid(i) => -seen[P.Inv(i)].invoice.total
    case _ => 0
  }

  /** What it allocates. */
  function CashPart(command: Command, seen: P.Seen): int
    requires P.Decide(command, seen).Some?
  {
    match command
    case DoRecord(_, _, _, splits) => P.SplitSum(splits)
    case DoAllocate(_, _, amount) => amount
    case DoReverse(p, _) => -seen[P.Pay(p)].cash
    case _ => 0
  }

  /** What it adds to the payments its customer has brought in and not taken back. */
  function PaidPart(command: Command, seen: P.Seen): int
    requires P.Decide(command, seen).Some?
  {
    match command
    case DoRecord(_, amount, _, _) => amount
    case DoReverse(p, _) => -seen[P.Pay(p)].payment.amount
    case _ => 0
  }

  /** And to the cash those have allocated. */
  function AppliedPart(command: Command, seen: P.Seen): int
    requires P.Decide(command, seen).Some?
  {
    match command
    case DoRecord(_, _, _, splits) => P.SplitSum(splits)
    case DoAllocate(p, _, amount) => if seen[P.Pay(p)].reversed then 0 else amount
    case DoReverse(p, _) => -seen[P.Pay(p)].cash
    case _ => 0
  }

  lemma {:induction false} PartsMakeTheMove(command: Command, seen: P.Seen)
    requires P.Decide(command, seen).Some?
    ensures Move(command, seen) == BilledPart(command, seen) - CashPart(command, seen) - (PaidPart(command, seen) - AppliedPart(command, seen))
  {
  }

  // ----- the rows a transaction adds -----

  lemma {:induction false} RowsAdded(ledger: Ledger, command: Command, seen: P.Seen)
    requires P.Decide(command, seen).Some?
    ensures Written(ledger, command, seen).allocations == ledger.allocations + NewRows(command, seen, |ledger.payments|)
  {
  }

  /** A row of a live payment stands for cash on its invoice, so that is not VOID. */
  lemma {:induction false} AllocatedIsOpen(ledger: Ledger, p: nat, i: nat)
    requires Valid(ledger) && p < |ledger.payments| && IsLive(ledger, p) && HasRow(ledger.allocations, p, i)
    ensures i < |ledger.invoices| && ledger.invoices[i].status != Void
    ensures ledger.invoices[i].customer == ledger.payments[p].customer
  {
    var rows := ledger.allocations;
    var k :| 0 <= k < |rows| && rows[k].payment == p && rows[k].invoice == i;
    assert RowsOk(ledger);
    RowSumPositive(rows, (row: Allocation) => row.payment == p && row.invoice == i);
    InvoiceHoldsCell(ledger, p, i);
    assert InvoiceOk(ledger, i);
  }

  /** Every row it adds is on an open invoice of its customer. */
  lemma {:induction false} NewRowIsOpen(ledger: Ledger, command: Command, seen: P.Seen, q: nat, k: nat)
    requires Stands(ledger, command, seen) && k < |NewRows(command, seen, q)|
    ensures NewRows(command, seen, q)[k].invoice in OpenInvoices(ledger, Whose(command, seen))
  {
    match command {
      case DoRecord(customer, amount, day, splits) =>
        assert P.SplitGoesAhead(customer, amount, splits, seen, k);
      case DoAllocate(p, i, _) =>
      case DoReverse(p, _) =>
        var rows := P.RowsOf(ledger.allocations, p);
        assert seen[P.Pay(p)] == P.ViewOf(ledger, P.Pay(p));
        var i := rows[k].invoice;
        P.RowsOfAreTheRows(ledger.allocations, p, i);
        AllocatedIsOpen(ledger, p, i);
      case _ =>
    }
  }

  /** And filed under its own new payment, or the one it allocates from. */
  lemma {:induction false} NewRowIsFiled(ledger: Ledger, command: Command, seen: P.Seen, k: nat)
    requires Stands(ledger, command, seen) && k < |NewRows(command, seen, |ledger.payments|)|
    ensures var p := NewRows(command, seen, |ledger.payments|)[k].payment;
            if command.DoAllocate? then p == command.payment && p < |ledger.payments| && ledger.payments[p].customer == Whose(command, seen)
            else p == |ledger.payments|
  {
  }

  lemma {:induction false} MirroredRowsSum(rows: seq<Allocation>, p: nat, q: nat)
    ensures PaymentSum(P.Negated(P.RowsOf(rows, p), q), q) == -PaymentSum(rows, p)
  {
    P.RowsOfNegated(rows, p, q);
    MirroredSums(rows, p, q, 0);
  }

  lemma {:induction false} NewRowsSum(ledger: Ledger, command: Command, seen: P.Seen, q: nat)
    requires Stands(ledger, command, seen)
    ensures RowSum(NewRows(command, seen, q), (row: Allocation) => true) == CashPart(command, seen)
  {
    var rows := NewRows(command, seen, q);
    match command {
      case DoRecord(_, _, _, splits) =>
        P.SplitRowsSum(splits, q);
        RowSumAgrees(rows, (row: Allocation) => true, (row: Allocation) => row.payment == q);
      case DoAllocate(p, i, amount) =>
        RowSumOne(rows[0], (row: Allocation) => true);
      case DoReverse(p, _) =>
        assert seen[P.Pay(p)] == P.ViewOf(ledger, P.Pay(p));
        MirroredRowsSum(ledger.allocations, p, q);
        RowSumAgrees(rows, (row: Allocation) => true, (row: Allocation) => row.payment == q);
      case _ =>
    }
  }

  lemma {:induction false} RowSumAgrees(rows: seq<Allocation>, f: Allocation -> bool, g: Allocation -> bool)
    requires forall k :: 0 <= k < |rows| ==> f(rows[k]) == g(rows[k])
    ensures RowSum(rows, f) == RowSum(rows, g)
  {
    if rows != [] {
      RowSumAgrees(rows[..|rows| - 1], f, g);
    }
  }

  lemma {:induction false} RowSumWithout(rows: seq<Allocation>, f: Allocation -> bool, g: Allocation -> bool, h: Allocation -> bool)
    requires forall row: Allocation :: f(row) <==> g(row) || h(row)
    requires forall row: Allocation :: !(g(row) && h(row))
    ensures RowSum(rows, f) == RowSum(rows, g) + RowSum(rows, h)
  {
    if rows != [] {
      RowSumWithout(rows[..|rows| - 1], f, g, h);
    }
  }

  // ----- ids from one query to the next -----

  /** Rows of its own come after the committed ones, which were `was` many when their ids were read and are `now` many. */
  function Renumbered(ids: set<nat>, was: nat, now: nat): set<nat> {
    set id <- ids :: if id < was then id else id - was + now
  }

  lemma {:induction false} RenumberedAre(ids: set<nat>, was: nat, now: nat)
    requires forall id :: id in ids ==> id < was
    ensures Renumbered(ids, was, now) == ids
    ensures Renumbered(ids + {was}, was, now) == ids + {now}
  {
    assert forall id <- ids :: id in Renumbered(ids, was, now) && id in Renumbered(ids + {was}, was, now);
    assert was in ids + {was};
  }

  // ----- the first two queries -----

  /** The open invoices once a transaction has written, in the ids of a later query. */
  function OpenThen(ledger: Ledger, command: Command, c: nat, now: nat): set<nat> {
    match command
    case DoIssue(customer, _, _, _) => OpenInvoices(ledger, c) + if customer == c then {now} else {}
    case DoVoid(i) => OpenInvoices(ledger, c) - {i}
    case _ => OpenInvoices(ledger, c)
  }

  lemma {:induction false} OpenIsOpenThen(ledger: Ledger, command: Command, seen: P.Seen, c: nat)
    requires Stands(ledger, command, seen)
    ensures OpenInvoices(Written(ledger, command, seen), c) == OpenThen(ledger, command, c, |ledger.invoices|)
  {
    P.Decided(ledger, command, seen);
    match command {
      case DoRecord(customer, amount, day, splits) =>
        AllocateAllTouches(WithPayment(ledger, Payment(customer, amount, day, None)), |ledger.payments|, splits);
      case DoAllocate(p, i, amount) => InsertTouches(ledger, p, i, amount);
      case DoReverse(p, day) => ReverseTouches(ledger, p, day);
      case _ =>
    }
  }

  lemma {:induction false} OpenLater(ledger: Ledger, command: Command, seen: P.Seen, c: nat, now: nat)
    requires Stands(ledger, command, seen) && |ledger.invoices| <= now
    ensures Renumbered(OpenInvoices(Written(ledger, command, seen), c), |ledger.invoices|, now) == OpenThen(ledger, command, c, now)
  {
    var n, open := |ledger.invoices|, OpenInvoices(ledger, c);
    OpenIsOpenThen(ledger, command, seen, c);
    RenumberedAre(open, n, now);
    if command.DoVoid? {
      RenumberedAre(open - {command.invoice}, n, now);
    }
  }

  /** On the rows committed by the second query, the transaction's own invoice and the one it voids carry no cash. */
  lemma {:induction false} CommittedCashOn(first: Ledger, second: Ledger, command: Command, seen: P.Seen, c: nat)
    requires Stands(first, command, seen) && Stands(second, command, seen)
    ensures CashOn(second.allocations, OpenThen(first, command, c, |second.invoices|))
         == CashOn(second.allocations, OpenInvoices(first, c))
  {
    var rows, open, n := second.allocations, OpenInvoices(first, c), |second.invoices|;
    match command {
      case DoIssue(_, _, _, _) =>
        assert RowsOk(second);
        RowSumAgrees(rows, (row: Allocation) => row.invoice in OpenThen(first, command, c, n), (row: Allocation) => row.invoice in open);
      case DoVoid(i) =>
        assert seen[P.Inv(i)] == P.ViewOf(second, P.Inv(i));
        if i in open {
          RowSumWithout(rows, (row: Allocation) => row.invoice in open, (row: Allocation) => row.invoice in open - {i},
                        (row: Allocation) => row.invoice == i);
        } else {
          assert open - {i} == open;
        }
      case _ =>
    }
  }

  /** Its own rows are on invoices the first query returned, if they are its customer's. */
  lemma {:induction false} OwnCashOn(first: Ledger, second: Ledger, command: Command, seen: P.Seen, c: nat)
    requires Stands(first, command, seen) && Stands(second, command, seen)
    ensures CashOn(NewRows(command, seen, |second.payments|), OpenThen(first, command, c, |second.invoices|))
         == if Whose(command, seen) == c then CashPart(command, seen) else 0
  {
    var rows, open := NewRows(command, seen, |second.payments|), OpenThen(first, command, c, |second.invoices|);
    forall k | 0 <= k < |rows|
      ensures rows[k].invoice in open <==> Whose(command, seen) == c
    {
      NewRowIsOpen(first, command, seen, |second.payments|, k);
    }
    if Whose(command, seen) == c {
      NewRowsSum(second, command, seen, |second.payments|);
      RowSumAgrees(rows, (row: Allocation) => row.invoice in open, (row: Allocation) => true);
    } else {
      RowSumNone(rows, (row: Allocation) => row.invoice in open);
    }
  }

  lemma {:induction false} BilledIsRead(ledger: Ledger, command: Command, seen: P.Seen, c: nat)
    requires Stands(ledger, command, seen)
    ensures BilledTotal(Written(ledger, command, seen), c)
         == BilledTotal(ledger, c) + (if Whose(command, seen) == c then BilledPart(command, seen) else 0)
  {
    P.Decided(ledger, command, seen);
    BilledMoves(ledger, c, command);
  }

  /** What the first two queries return together, the transaction's own writes and all. */
  lemma {:induction false} InvoicedMoves(first: Ledger, second: Ledger, command: Command, seen: P.Seen, c: nat)
    requires Stands(first, command, seen) && Stands(second, command, seen) && |first.invoices| <= |second.invoices|
    ensures var open := OpenInvoices(Written(first, command, seen), c);
            BilledTotal(Written(first, command, seen), c)
            - CashOn(Written(second, command, seen).allocations, Renumbered(open, |first.invoices|, |second.invoices|))
            == Invoiced(first, second, c)
               + (if Whose(command, seen) == c then BilledPart(command, seen) - CashPart(command, seen) else 0)
  {
    var open := OpenThen(first, command, c, |second.invoices|);
    BilledIsRead(first, command, seen, c);
    OpenLater(first, command, seen, c, |second.invoices|);
    RowsAdded(second, command, seen);
    RowSumConcat(second.allocations, NewRows(command, seen, |second.payments|), (row: Allocation) => row.invoice in open);
    CommittedCashOn(first, second, command, seen, c);
    OwnCashOn(first, second, command, seen, c);
  }

  // ----- the last two -----

  function LiveThen(ledger: Ledger, command: Command, c: nat, now: nat): set<nat> {
    match command
    case DoRecord(customer, _, _, _) => LivePayments(ledger, c) + if customer == c then {now} else {}
    case DoReverse(p, _) => LivePayments(ledger, c) - {p}
    case _ => LivePayments(ledger, c)
  }

  lemma {:induction false} LiveIsLiveThen(ledger: Ledger, command: Command, seen: P.Seen, c: nat)
    requires Stands(ledger, command, seen)
    ensures LivePayments(Written(ledger, command, seen), c) == LiveThen(ledger, command, c, |ledger.payments|)
  {
    if command.DoRecord? || command.DoReverse? {
      var last := P.Decide(command, seen).value.payment;
      forall p: nat
        ensures IsReversedFor(ledger.payments + [last], c, p)
           <==> IsReversedFor(ledger.payments, c, p) || (last.customer == c && last.reversalOf == Some(p))
      {
        ReversedByTheLast(ledger.payments, last, c, p);
      }
    }
  }

  lemma {:induction false} LiveLater(ledger: Ledger, command: Command, seen: P.Seen, c: nat, now: nat)
    requires Stands(ledger, command, seen) && |ledger.payments| <= now
    ensures Renumbered(LivePayments(Written(ledger, command, seen), c), |ledger.payments|, now) == LiveThen(ledger, command, c, now)
  {
    var n, live := |ledger.payments|, LivePayments(ledger, c);
    LiveIsLiveThen(ledger, command, seen, c);
    RenumberedAre(live, n, now);
    if command.DoReverse? {
      RenumberedAre(live - {command.payment}, n, now);
    }
  }

  lemma {:induction false} LiveIff(ledger: Ledger, c: nat, p: nat)
    requires PaymentsOk(ledger.payments) && p < |ledger.payments|
    ensures p in LivePayments(ledger, c) <==> ledger.payments[p].customer == c && IsLive(ledger, p)
  {
    if ledger.payments[p].customer == c && IsReversed(ledger, p) {
      var q := MirrorOf(ledger.payments, p).value;
      assert ledger.payments[q].reversalOf == Some(p);
    }
  }

  lemma {:induction false} PaidByMore(ledger: Ledger, live: set<nat>, payment: Payment, live': set<nat>)
    requires forall p: nat :: p < |ledger.payments| ==> (p in live' <==> p in live)
    ensures PaidBy(WithPayment(ledger, payment), live')
         == PaidBy(ledger, live) + (if |ledger.payments| in live' then payment.amount else 0)
  {
    var after := WithPayment(ledger, payment);
    SumSame(|ledger.payments|,
            (p: nat) => if p < |after.payments| && p in live' then after.payments[p].amount else 0,
            (p: nat) => if p < |ledger.payments| && p in live then ledger.payments[p].amount else 0);
  }

  lemma {:induction false} PaidByLess(ledger: Ledger, live: set<nat>, p: nat)
    requires p < |ledger.payments| && p in live
    ensures PaidBy(ledger, live - {p}) == PaidBy(ledger, live) - ledger.payments[p].amount
  {
    SumChange(|ledger.payments|,
              (k: nat) => if k < |ledger.payments| && k in live then ledger.payments[k].amount else 0,
              (k: nat) => if k < |ledger.payments| && k in live - {p} then ledger.payments[k].amount else 0, p);
  }

  lemma {:induction false} PaidByOf(ledger: Ledger, ledger': Ledger, live: set<nat>)
    requires ledger.payments == ledger'.payments
    ensures PaidBy(ledger, live) == PaidBy(ledger', live)
  {
    SumSame(|ledger.payments|,
            (p: nat) => if p < |ledger.payments| && p in live then ledger.payments[p].amount else 0,
            (p: nat) => if p < |ledger'.payments| && p in live then ledger'.payments[p].amount else 0);
  }

  lemma {:induction false} ReversalTakesBack(ledger: Ledger, p: nat, mirror: Payment, c: nat)
    requires PaymentsOk(ledger.payments) && p < |ledger.payments| && IsLive(ledger, p)
    ensures var live := LivePayments(ledger, c);
            PaidBy(WithPayment(ledger, mirror), live - {p})
            == PaidBy(ledger, live) - (if ledger.payments[p].customer == c then ledger.payments[p].amount else 0)
  {
    var live := LivePayments(ledger, c);
    LiveIff(ledger, c, p);
    PaidByMore(ledger, live - {p}, mirror, live - {p});
    if p in live {
      PaidByLess(ledger, live, p);
    } else {
      assert live - {p} == live;
    }
  }

  lemma {:induction false} PaidMoves(ledger: Ledger, command: Command, seen: P.Seen, c: nat)
    requires Stands(ledger, command, seen)
    ensures PaidBy(Written(ledger, command, seen), LiveThen(ledger, command, c, |ledger.payments|))
         == PaidBy(ledger, LivePayments(ledger, c)) + (if Whose(command, seen) == c then PaidPart(command, seen) else 0)
  {
    var live, now := LivePayments(ledger, c), LiveThen(ledger, command, c, |ledger.payments|);
    var written := Written(ledger, command, seen);
    match command {
      case DoRecord(customer, amount, day, _) =>
        var payment := Payment(customer, amount, day, None);
        PaidByMore(ledger, live, payment, now);
        PaidByOf(written, WithPayment(ledger, payment), now);
      case DoReverse(p, day) =>
        var mirror := P.Decide(command, seen).value.payment;
        ReversalTakesBack(ledger, p, mirror, c);
        PaidByOf(written, WithPayment(ledger, mirror), now);
      case _ =>
        PaidByOf(written, ledger, now);
    }
  }

  lemma {:induction false} CommittedCashFrom(third: Ledger, fourth: Ledger, command: Command, seen: P.Seen, c: nat)
    requires Stands(third, command, seen) && Stands(fourth, command, seen) && |third.payments| <= |fourth.payments|
    ensures CashFrom(fourth.allocations, LiveThen(third, command, c, |fourth.payments|))
         == CashFrom(fourth.allocations, LivePayments(third, c))
            + (if command.DoReverse? && Whose(command, seen) == c then AppliedPart(command, seen) else 0)
  {
    var rows, live, n := fourth.allocations, LivePayments(third, c), |fourth.payments|;
    match command {
      case DoRecord(_, _, _, _) =>
        assert RowsOk(fourth);
        RowSumAgrees(rows, (row: Allocation) => row.payment in LiveThen(third, command, c, n), (row: Allocation) => row.payment in live);
      case DoReverse(p, _) =>
        assert seen[P.Pay(p)] == P.ViewOf(fourth, P.Pay(p)) == P.ViewOf(third, P.Pay(p));
        LiveIff(third, c, p);
        if p in live {
          RowSumWithout(rows, (row: Allocation) => row.payment in live, (row: Allocation) => row.payment in live - {p},
                        (row: Allocation) => row.payment == p);
        } else {
          assert live - {p} == live;
        }
      case _ =>
    }
  }

  /** A payment allocated from is no reversal. */
  lemma {:induction false} AllocatedFrom(ledger: Ledger, command: Command, seen: P.Seen, c: nat)
    requires Stands(ledger, command, seen) && command.DoAllocate?
    ensures command.payment in LivePayments(ledger, c) <==> Whose(command, seen) == c && !seen[P.Pay(command.payment)].reversed
  {
    var p := command.payment;
    assert seen[P.Pay(p)] == P.ViewOf(ledger, P.Pay(p));
    P.Decided(ledger, command, seen);
    InsertKeepsValid(ledger, p, command.invoice, command.amount);
    LiveIff(ledger, c, p);
  }

  lemma {:induction false} OwnCashFrom(third: Ledger, fourth: Ledger, command: Command, seen: P.Seen, c: nat)
    requires Stands(third, command, seen) && Stands(fourth, command, seen) && |third.payments| <= |fourth.payments|
    ensures CashFrom(NewRows(command, seen, |fourth.payments|), LiveThen(third, command, c, |fourth.payments|))
         == if Whose(command, seen) == c && !command.DoReverse? then AppliedPart(command, seen) else 0
  {
    var n := |fourth.payments|;
    var rows, live := NewRows(command, seen, n), LiveThen(third, command, c, n);
    if command.DoAllocate? {
      AllocatedFrom(third, command, seen, c);
      RowSumOne(rows[0], (row: Allocation) => row.payment in live);
    } else {
      forall k | 0 <= k < |rows|
        ensures rows[k].payment == n
      {
        NewRowIsFiled(fourth, command, seen, k);
      }
      if command.DoRecord? && Whose(command, seen) == c {
        NewRowsSum(fourth, command, seen, n);
        RowSumAgrees(rows, (row: Allocation) => row.payment in live, (row: Allocation) => true);
      } else {
        RowSumNone(rows, (row: Allocation) => row.payment in live);
      }
    }
  }

  /** What the last two queries return together, the transaction's own writes and all. */
  lemma {:induction false} OnAccountMoves(third: Ledger, fourth: Ledger, command: Command, seen: P.Seen, c: nat)
    requires Stands(third, command, seen) && Stands(fourth, command, seen) && |third.payments| <= |fourth.payments|
    ensures var live := LivePayments(Written(third, command, seen), c);
            PaidBy(Written(third, command, seen), live)
            - CashFrom(Written(fourth, command, seen).allocations, Renumbered(live, |third.payments|, |fourth.payments|))
            == OnAccount(third, fourth, c)
               + (if Whose(command, seen) == c then PaidPart(command, seen) - AppliedPart(command, seen) else 0)
  {
    var live := LiveThen(third, command, c, |fourth.payments|);
    PaidMoves(third, command, seen, c);
    LiveIsLiveThen(third, command, seen, c);
    LiveLater(third, command, seen, c, |fourth.payments|);
    RowsAdded(fourth, command, seen);
    RowSumConcat(fourth.allocations, NewRows(command, seen, |fourth.payments|), (row: Allocation) => row.payment in live);
    CommittedCashFrom(third, fourth, command, seen, c);
    OwnCashFrom(third, fourth, command, seen, c);
  }

  // ----- the balance -----

  lemma {:induction false} WrittenIsValid(ledger: Ledger, command: Command, seen: P.Seen)
    requires Stands(ledger, command, seen)
    ensures Valid(Written(ledger, command, seen))
  {
    P.Decided(ledger, command, seen);
    CommandKeepsValid(ledger, command);
  }

  lemma {:induction false} NothingRenumbered(ledger: Ledger, command: Command, seen: P.Seen, c: nat)
    requires Stands(ledger, command, seen)
    ensures var open, live := OpenInvoices(Written(ledger, command, seen), c), LivePayments(Written(ledger, command, seen), c);
            && Renumbered(open, |ledger.invoices|, |ledger.invoices|) == open
            && Renumbered(live, |ledger.payments|, |ledger.payments|) == live
  {
    OpenLater(ledger, command, seen, c, |ledger.invoices|);
    OpenIsOpenThen(ledger, command, seen, c);
    LiveLater(ledger, command, seen, c, |ledger.payments|);
    LiveIsLiveThen(ledger, command, seen, c);
  }

  /** A transaction moves its own customer's balance by `Move`, and nobody else's. */
  lemma {:induction false} BalanceMoves(ledger: Ledger, command: Command, seen: P.Seen, c: nat)
    requires Stands(ledger, command, seen)
    ensures Balance(Written(ledger, command, seen), c)
         == Balance(ledger, c) + (if Whose(command, seen) == c then Move(command, seen) else 0)
  {
    WrittenIsValid(ledger, command, seen);
    NothingRenumbered(ledger, command, seen, c);
    InvoicedMoves(ledger, ledger, command, seen, c);
    OnAccountMoves(ledger, ledger, command, seen, c);
    BalanceIsQueried(ledger, c);
    BalanceIsQueried(Written(ledger, command, seen), c);
    PartsMakeTheMove(command, seen);
  }
}
