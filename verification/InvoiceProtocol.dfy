/**
 * The invoice transactions as they interleave under READ COMMITTED. A
 * transaction takes advisory locks, reads committed rows one locked resource
 * at a time, decides from what it read, and commits blind writes. The several
 * statements about one resource (its row, the sums and the rows of its
 * allocations, whether it is reversed) are one step: between them no commit
 * changes any of it, which is `CommitLeavesAlone`. The theorem is
 * serializability: the committed ledger is always the one the committed
 * requests would have left one after the other, so everything proved of the
 * sequential ledger holds in every interleaving.
 */
module InvoiceProtocol {
  import opened Wrappers
  import opened Receivables
  import opened ReceivablesInvariant

  /** What an advisory lock names. */
  datatype Resource = Pay(p: nat) | Inv(i: nat)

  /** What the statements about one row read: the row, and the sums over its allocations. */
  datatype View =
    | Absent
    | InvoiceView(invoice: Invoice, cash: int)
    | PaymentView(payment: Payment, cash: int, reversed: bool, rows: seq<Allocation>)

  function RowsOf(rows: seq<Allocation>, p: nat): seq<Allocation> {
    if rows == [] then []
    else
      var last := rows[|rows| - 1];
      RowsOf(rows[..|rows| - 1], p) + (if last.payment == p then [last] else [])
  }

  function ViewOf(ledger: Ledger, r: Resource): View {
    match r
    case Inv(i) =>
      if i < |ledger.invoices| then InvoiceView(ledger.invoices[i], InvoiceSum(ledger.allocations, i)) else Absent
    case Pay(p) =>
      if p < |ledger.payments|
      then PaymentView(ledger.payments[p], PaymentSum(ledger.allocations, p), IsReversed(ledger, p), RowsOf(ledger.allocations, p))
      else Absent
  }

  // ----- deciding from what was read -----

  /** The writes of one transaction. */
  datatype Effect =
    | AddInvoice(invoice: Invoice)
    | AddPayment(payment: Payment, splits: seq<(nat, int)>, statuses: map<nat, Status>)
    | AddAllocation(row: Allocation, status: Status)
    | SetInvoice(at: nat, row': Invoice)
    | AddReversal(of: nat, payment: Payment, rows: seq<Allocation>, statuses: map<nat, Status>)

  type Seen = map<Resource, View>

  function StatusAfter(invoice: Invoice, cash: int): Status {
    if invoice.status == Void then Void else DerivedStatus(invoice.total, invoice.wht, cash)
  }

  function Negated(rows: seq<Allocation>, q: nat): seq<Allocation> {
    seq(|rows|, k requires 0 <= k < |rows| => Allocation(q, rows[k].invoice, -rows[k].amount))
  }

  /** The writes the guards of the source allow, from the views in `seen`; None is a throw. */
  function Decide(c: Command, seen: Seen): Option<Effect> {
    match c
    case DoIssue(customer, total, day, dueOn) => Some(AddInvoice(Invoice(customer, total, 0, Issued, day, None, dueOn)))
    case DoRecord(customer, amount, day, splits) =>
      if SplitsGoAhead(customer, amount, splits, seen)
      then Some(AddPayment(Payment(customer, amount, day, None), splits, StatusesWith(splits, seen)))
      else None
    case DoAllocate(p, i, amount) => DecideAllocate(p, i, amount, seen)
    case DoReverse(p, day) => DecideReverse(p, day, seen)
    case DoWithhold(i, amount, day) =>
      if Inv(i) !in seen || !seen[Inv(i)].InvoiceView? then None
      else
        var InvoiceView(invoice, cash) := seen[Inv(i)];
        if invoice.status == Void || cash + amount > invoice.total then None
        else
          var updated := invoice.(wht := amount, whtOn := if amount == 0 then None else Some(day));
          Some(SetInvoice(i, updated.(status := StatusAfter(updated, cash))))
    case DoVoid(i) =>
      if Inv(i) !in seen || !seen[Inv(i)].InvoiceView? then None
      else
        var InvoiceView(invoice, cash) := seen[Inv(i)];
        if invoice.status != Issued || invoice.wht > 0 || cash != 0 then None
        else Some(SetInvoice(i, invoice.(status := Void)))
  }

  function DecideAllocate(p: nat, i: nat, amount: int, seen: Seen): Option<Effect> {
    if Inv(i) !in seen || !seen[Inv(i)].InvoiceView? || Pay(p) !in seen || !seen[Pay(p)].PaymentView? then None
    else
      var InvoiceView(invoice, cash) := seen[Inv(i)];
      var PaymentView(payment, applied, _, rows) := seen[Pay(p)];
      if invoice.status == Void || invoice.customer != payment.customer
         || cash + invoice.wht + amount > invoice.total || applied + amount > payment.amount
         || (exists k :: 0 <= k < |rows| && rows[k].invoice == i)
      then None
      else Some(AddAllocation(Allocation(p, i, amount), StatusAfter(invoice, cash + amount)))
  }

  // ----- a payment recorded with allocations -----

  function SplitSum(splits: seq<(nat, int)>): int {
    if splits == [] then 0 else SplitSum(splits[..|splits| - 1]) + splits[|splits| - 1].1
  }

  /** The guards of the allocation at `k`, its earlier ones already inserted. */
  predicate SplitGoesAhead(customer: nat, amount: int, splits: seq<(nat, int)>, seen: Seen, k: nat)
    requires k < |splits|
  {
    var (i, part) := splits[k];
    && Inv(i) in seen && seen[Inv(i)].InvoiceView?
    && var InvoiceView(invoice, cash) := seen[Inv(i)];
       && invoice.status != Void && invoice.customer == customer
       && cash + invoice.wht + part <= invoice.total && SplitSum(splits[..k]) + part <= amount
       && forall j :: 0 <= j < k ==> splits[j].0 != i
  }

  predicate SplitsGoAhead(customer: nat, amount: int, splits: seq<(nat, int)>, seen: Seen) {
    forall k :: 0 <= k < |splits| ==> SplitGoesAhead(customer, amount, splits, seen, k)
  }

  /** The statuses of the invoices once their parts are paid. */
  function StatusesWith(splits: seq<(nat, int)>, seen: Seen): map<nat, Status> {
    if splits == [] then map[]
    else
      var (i, part) := splits[|splits| - 1];
      var before := StatusesWith(splits[..|splits| - 1], seen);
      if Inv(i) in seen && seen[Inv(i)].InvoiceView? then
        before[i := StatusAfter(seen[Inv(i)].invoice, seen[Inv(i)].cash + part)]
      else before
  }

  /** The rows of a payment's parts, filed under payment `q`. */
  function RowsFor(splits: seq<(nat, int)>, q: nat): (rows: seq<Allocation>)
    ensures |rows| == |splits|
  {
    seq(|splits|, k requires 0 <= k < |splits| => Allocation(q, splits[k].0, splits[k].1))
  }

  // ----- a payment reversed -----

  predicate SeesInvoices(rows: seq<Allocation>, seen: Seen) {
    forall k :: 0 <= k < |rows| ==> Inv(rows[k].invoice) in seen && seen[Inv(rows[k].invoice)].InvoiceView?
  }

  /** The statuses of the invoices of `rows` once their cash is taken back. */
  function StatusesWithout(rows: seq<Allocation>, seen: Seen): map<nat, Status>
    requires SeesInvoices(rows, seen)
  {
    map k | 0 <= k < |rows| :: rows[k].invoice
      := var InvoiceView(invoice, cash) := seen[Inv(rows[k].invoice)];
         StatusAfter(invoice, cash - InvoiceSum(rows, rows[k].invoice))
  }

  function DecideReverse(p: nat, day: int, seen: Seen): Option<Effect> {
    if Pay(p) !in seen || !seen[Pay(p)].PaymentView? then None
    else
      var PaymentView(original, applied, reversed, rows) := seen[Pay(p)];
      if original.reversalOf.Some? || reversed || !AllPositive(rows, p) || !SeesInvoices(rows, seen) then None
      else
        var mirror := Payment(original.customer, -original.amount, day, Some(p));
        Some(AddReversal(p, mirror, rows, StatusesWithout(rows, seen)))
  }

  function WithStatuses(invoices: seq<Invoice>, statuses: map<nat, Status>): seq<Invoice> {
    seq(|invoices|, k requires 0 <= k < |invoices| =>
      if k in statuses then invoices[k].(status := statuses[k]) else invoices[k])
  }

  /** A new payment with its parts allocated. */
  function Placed(ledger: Ledger, payment: Payment, splits: seq<(nat, int)>, statuses: map<nat, Status>): Ledger {
    Ledger(WithStatuses(ledger.invoices, statuses), ledger.payments + [payment],
           ledger.allocations + RowsFor(splits, |ledger.payments|))
  }

  /** Committing the writes on whatever is committed by then. */
  function Apply(ledger: Ledger, effect: Effect): Ledger {
    match effect
    case AddInvoice(invoice) => ledger.(invoices := ledger.invoices + [invoice])
    case AddPayment(payment, splits, statuses) => Placed(ledger, payment, splits, statuses)
    case AddAllocation(row, status) =>
      Ledger(WithStatuses(ledger.invoices, map[row.invoice := status]), ledger.payments, ledger.allocations + [row])
    case SetInvoice(i, row) => ledger.(invoices := if i < |ledger.invoices| then ledger.invoices[i := row] else ledger.invoices)
    case AddReversal(_, payment, rows, statuses) =>
      Ledger(WithStatuses(ledger.invoices, statuses), ledger.payments + [payment],
             ledger.allocations + Negated(rows, |ledger.payments|))
  }

  /** The views of what a transaction read are still those of the committed ledger, or were of no row at all. */
  ghost predicate Current(seen: Seen, ledger: Ledger) {
    forall r :: r in seen ==> seen[r] == Absent || seen[r] == ViewOf(ledger, r)
  }

  // ----- a decision from current views is the transaction itself -----

  lemma {:induction false} RowsOfAreTheRows(rows: seq<Allocation>, p: nat, i: nat)
    ensures (exists k :: 0 <= k < |RowsOf(rows, p)| && RowsOf(rows, p)[k].invoice == i) <==> HasRow(rows, p, i)
    ensures AllPositive(RowsOf(rows, p), p) <==> AllPositive(rows, p)
    ensures forall k :: 0 <= k < |RowsOf(rows, p)| ==> RowsOf(rows, p)[k].payment == p
  {
    if rows != [] {
      var front, last := rows[..|rows| - 1], rows[|rows| - 1];
      var mine, all := RowsOf(front, p), RowsOf(rows, p);
      RowsOfAreTheRows(front, p, i);
      assert forall k :: 0 <= k < |front| ==> rows[k] == front[k];
      assert forall k :: 0 <= k < |mine| ==> all[k] == mine[k];
      assert last.payment == p ==> all[|mine|] == last;
      assert |all| == |mine| + (if last.payment == p then 1 else 0);
    }
  }

  lemma {:induction false} RowsOfSums(rows: seq<Allocation>, p: nat, i: nat)
    ensures InvoiceSum(RowsOf(rows, p), i) == Cell(rows, p, i)
  {
    if rows != [] {
      var front, last := rows[..|rows| - 1], rows[|rows| - 1];
      RowsOfSums(front, p, i);
      RowAdded(RowsOf(front, p), last, p, i);
      assert RowsOf(front, p) + [] == RowsOf(front, p);
    }
  }

  lemma {:induction false} RowsOfNegated(rows: seq<Allocation>, p: nat, q: nat)
    ensures Negated(RowsOf(rows, p), q) == MirroredRows(rows, p, q)
  {
    if rows != [] {
      var front, last := rows[..|rows| - 1], rows[|rows| - 1];
      var mine := RowsOf(front, p);
      RowsOfNegated(front, p, q);
      if last.payment == p {
        assert Negated(mine + [last], q) == Negated(mine, q) + [Allocation(q, last.invoice, -last.amount)];
      } else {
        assert mine + [] == mine;
      }
    }
  }

  /** Deriving statuses again, invoice by invoice. */
  lemma {:induction false} RecomputedForPointwise(ledger: Ledger, rows: seq<Allocation>, i: nat)
    requires i < |ledger.invoices|
    ensures RecomputedFor(ledger, rows).invoices[i]
         == if exists k :: 0 <= k < |rows| && rows[k].invoice == i
            then ledger.invoices[i].(status := StatusAfter(ledger.invoices[i], InvoiceSum(ledger.allocations, i)))
            else ledger.invoices[i]
    decreases |rows|
  {
    if rows != [] {
      var j := rows[0].invoice;
      var next := if j < |ledger.invoices| then Recomputed(ledger, j) else ledger;
      RecomputedForPointwise(next, rows[1..], i);
      assert (exists k :: 0 <= k < |rows| && rows[k].invoice == i)
          <==> j == i || (exists k :: 0 <= k < |rows[1..]| && rows[1..][k].invoice == i) by {
        if k :| 0 <= k < |rows| && rows[k].invoice == i && k > 0 {
          assert rows[1..][k - 1].invoice == i;
        }
      }
    }
  }

  lemma {:induction false} AllocateDecided(ledger: Ledger, p: nat, i: nat, amount: int, seen: Seen)
    requires Current(seen, ledger) && DecideAllocate(p, i, amount, seen).Some?
    ensures Allocate(ledger, p, i, amount) == Ok(Apply(ledger, DecideAllocate(p, i, amount, seen).value))
  {
    RowsOfAreTheRows(ledger.allocations, p, i);
    RowAdded(ledger.allocations, Allocation(p, i, amount), p, i);
    var after := Allocate(ledger, p, i, amount).value;
    assert after.invoices == Apply(ledger, DecideAllocate(p, i, amount, seen).value).invoices;
  }

  lemma {:induction false} StatusesWithoutAt(ledger: Ledger, rows: seq<Allocation>, seen: Seen, i: nat)
    requires Current(seen, ledger) && SeesInvoices(rows, seen)
    ensures i in StatusesWithout(rows, seen) <==> exists k :: 0 <= k < |rows| && rows[k].invoice == i
    ensures i in StatusesWithout(rows, seen) ==>
              && i < |ledger.invoices|
              && StatusesWithout(rows, seen)[i]
                 == StatusAfter(ledger.invoices[i], InvoiceSum(ledger.allocations, i) - InvoiceSum(rows, i))
  {
    if k :| 0 <= k < |rows| && rows[k].invoice == i {
      assert seen[Inv(rows[k].invoice)] == ViewOf(ledger, Inv(i));
    }
  }

  lemma {:induction false} MirroredInvoices(rows: seq<Allocation>, p: nat, q: nat, i: nat)
    ensures (exists k :: 0 <= k < |MirroredRows(rows, p, q)| && MirroredRows(rows, p, q)[k].invoice == i)
       <==> (exists k :: 0 <= k < |RowsOf(rows, p)| && RowsOf(rows, p)[k].invoice == i)
  {
    var mine, mirrored := RowsOf(rows, p), MirroredRows(rows, p, q);
    RowsOfNegated(rows, p, q);
    assert |mirrored| == |mine| && forall k :: 0 <= k < |mine| ==> mirrored[k].invoice == mine[k].invoice;
  }

  /** The cash left on an invoice by a reversal. */
  lemma {:induction false} CashWithout(ledger: Ledger, p: nat, day: int, i: nat)
    requires Valid(ledger) && p < |ledger.payments|
    ensures InvoiceSum(Reversed(ledger, p, day).allocations, i)
         == InvoiceSum(ledger.allocations, i) - InvoiceSum(RowsOf(ledger.allocations, p), i)
  {
    ReversedSums(ledger, p, day, p, i);
    RowsOfSums(ledger.allocations, p, i);
  }

  lemma {:induction false} ReversalInvoiceAt(ledger: Ledger, moved: Ledger, p: nat, q: nat, seen: Seen, i: nat)
    requires Current(seen, ledger) && i < |ledger.invoices| && moved.invoices == ledger.invoices
    requires SeesInvoices(RowsOf(ledger.allocations, p), seen)
    requires InvoiceSum(moved.allocations, i)
          == InvoiceSum(ledger.allocations, i) - InvoiceSum(RowsOf(ledger.allocations, p), i)
    ensures RecomputedFor(moved, MirroredRows(ledger.allocations, p, q)).invoices[i]
         == WithStatuses(ledger.invoices, StatusesWithout(RowsOf(ledger.allocations, p), seen))[i]
  {
    RecomputedForPointwise(moved, MirroredRows(ledger.allocations, p, q), i);
    MirroredInvoices(ledger.allocations, p, q, i);
    StatusesWithoutAt(ledger, RowsOf(ledger.allocations, p), seen, i);
  }

  /** The invoices after a reversal, from the views and from the rows. */
  lemma {:induction false} ReversalInvoices(ledger: Ledger, p: nat, day: int, seen: Seen)
    requires Valid(ledger) && Current(seen, ledger) && p < |ledger.payments|
    requires SeesInvoices(RowsOf(ledger.allocations, p), seen)
    ensures var mirrored := MirroredRows(ledger.allocations, p, |ledger.payments|);
            RecomputedFor(Reversed(ledger, p, day), mirrored).invoices
            == WithStatuses(ledger.invoices, StatusesWithout(RowsOf(ledger.allocations, p), seen))
  {
    var mirrored := MirroredRows(ledger.allocations, p, |ledger.payments|);
    var after := RecomputedFor(Reversed(ledger, p, day), mirrored).invoices;
    var applied := WithStatuses(ledger.invoices, StatusesWithout(RowsOf(ledger.allocations, p), seen));
    assert |after| == |applied|;
    forall i: nat | i < |ledger.invoices| ensures after[i] == applied[i] {
      CashWithout(ledger, p, day, i);
      ReversalInvoiceAt(ledger, Reversed(ledger, p, day), p, |ledger.payments|, seen, i);
    }
  }

  lemma {:induction false} ReverseGoesAhead(ledger: Ledger, p: nat, day: int, seen: Seen)
    requires Current(seen, ledger) && DecideReverse(p, day, seen).Some?
    ensures p < |ledger.payments| && SeesInvoices(RowsOf(ledger.allocations, p), seen)
    ensures var rows := RowsOf(ledger.allocations, p);
            var mirror := Payment(ledger.payments[p].customer, -ledger.payments[p].amount, day, Some(p));
            DecideReverse(p, day, seen) == Some(AddReversal(p, mirror, rows, StatusesWithout(rows, seen)))
    ensures ledger.payments[p].reversalOf.None? && !IsReversed(ledger, p) && AllPositive(ledger.allocations, p)
  {
    assert seen[Pay(p)] == ViewOf(ledger, Pay(p));
    RowsOfAreTheRows(ledger.allocations, p, 0);
  }

  lemma {:induction false} ReverseDecided(ledger: Ledger, p: nat, day: int, seen: Seen)
    requires Valid(ledger) && Current(seen, ledger) && DecideReverse(p, day, seen).Some?
    ensures Reverse(ledger, p, day) == Ok(Apply(ledger, DecideReverse(p, day, seen).value))
  {
    ReverseGoesAhead(ledger, p, day, seen);
    ReverseIs(ledger, p, day);
    ReversalInvoices(ledger, p, day, seen);
    ReversalRows(ledger, p, day, StatusesWithout(RowsOf(ledger.allocations, p), seen));
  }

  lemma {:induction false} ReverseIs(ledger: Ledger, p: nat, day: int)
    requires p < |ledger.payments| && ledger.payments[p].reversalOf.None?
    requires !IsReversed(ledger, p) && AllPositive(ledger.allocations, p)
    ensures Reverse(ledger, p, day)
         == Ok(RecomputedFor(Reversed(ledger, p, day), MirroredRows(ledger.allocations, p, |ledger.payments|)))
  {
  }

  /** The rows a reversal adds, from the views and from the rows. */
  lemma {:induction false} ReversalRows(ledger: Ledger, p: nat, day: int, statuses: map<nat, Status>)
    requires p < |ledger.payments|
    ensures var original, rows := ledger.payments[p], RowsOf(ledger.allocations, p);
            var mirror := Payment(original.customer, -original.amount, day, Some(p));
            var applied, moved := Apply(ledger, AddReversal(p, mirror, rows, statuses)), Reversed(ledger, p, day);
            && applied.payments == moved.payments && applied.allocations == moved.allocations
            && applied.invoices == WithStatuses(ledger.invoices, statuses)
  {
    RowsOfNegated(ledger.allocations, p, |ledger.payments|);
  }

  lemma {:induction false} StatusesWithAt(splits: seq<(nat, int)>, seen: Seen, i: nat)
    ensures i in StatusesWith(splits, seen) ==> exists k :: 0 <= k < |splits| && splits[k].0 == i
    decreases |splits|
  {
    if splits != [] {
      var front := splits[..|splits| - 1];
      StatusesWithAt(front, seen, i);
      if i in StatusesWith(front, seen) {
        var k :| 0 <= k < |front| && front[k].0 == i;
        assert splits[k].0 == i;
      } else if i in StatusesWith(splits, seen) {
        assert splits[|splits| - 1].0 == i;
      }
    }
  }

  /** What the parts placed so far add to the sums the next guard reads. */
  lemma {:induction false} PlacedSums(ledger: Ledger, splits: seq<(nat, int)>, i: nat)
    requires Valid(ledger) && forall k :: 0 <= k < |splits| ==> splits[k].0 != i
    ensures var q := |ledger.payments|;
            var rows := ledger.allocations + RowsFor(splits, q);
            && InvoiceSum(rows, i) == InvoiceSum(ledger.allocations, i)
            && PaymentSum(rows, q) == SplitSum(splits) && !HasRow(rows, q, i)
  {
    var q := |ledger.payments|;
    var more := RowsFor(splits, q);
    RowSumConcat(ledger.allocations, more, (row: Allocation) => row.invoice == i);
    RowSumConcat(ledger.allocations, more, (row: Allocation) => row.payment == q);
    RowSumNone(more, (row: Allocation) => row.invoice == i);
    assert RowsOk(ledger);
    RowSumNone(ledger.allocations, (row: Allocation) => row.payment == q);
    SplitRowsSum(splits, q);
    var rows := ledger.allocations + more;
    forall k | 0 <= k < |rows| ensures !(rows[k].payment == q && rows[k].invoice == i) {
      if k >= |ledger.allocations| {
        assert rows[k] == more[k - |ledger.allocations|];
      }
    }
  }

  lemma {:induction false} SplitRowsSum(splits: seq<(nat, int)>, q: nat)
    ensures PaymentSum(RowsFor(splits, q), q) == SplitSum(splits)
  {
    if splits != [] {
      var front, last := splits[..|splits| - 1], splits[|splits| - 1];
      SplitRowsSum(front, q);
      assert RowsFor(splits, q) == RowsFor(front, q) + [Allocation(q, last.0, last.1)];
      RowAdded(RowsFor(front, q), Allocation(q, last.0, last.1), q, 0);
    }
  }

  /** The guards see what they would have seen had the other parts not been placed. */
  lemma {:induction false} SplitPasses(ledger: Ledger, payment: Payment, splits: seq<(nat, int)>, seen: Seen, n: nat)
    requires Valid(ledger) && Current(seen, ledger) && n < |splits|
    requires SplitGoesAhead(payment.customer, payment.amount, splits, seen, n)
    ensures var q, i, part := |ledger.payments|, splits[n].0, splits[n].1;
            var before := Placed(ledger, payment, splits[..n], StatusesWith(splits[..n], seen));
            var inserted := before.(allocations := before.allocations + [Allocation(q, i, part)]);
            && i < |ledger.invoices| && i !in StatusesWith(splits[..n], seen) && before.invoices[i] == ledger.invoices[i]
            && seen[Inv(i)] == ViewOf(ledger, Inv(i))
            && InvoiceSum(inserted.allocations, i) == InvoiceSum(ledger.allocations, i) + part
            && GuardAndInsert(before, q, i, part) == Ok(Recomputed(inserted, i))
  {
    var q, i, part := |ledger.payments|, splits[n].0, splits[n].1;
    var before := Placed(ledger, payment, splits[..n], StatusesWith(splits[..n], seen));
    assert seen[Inv(i)] == ViewOf(ledger, Inv(i));
    PlacedSums(ledger, splits[..n], i);
    StatusesWithAt(splits[..n], seen, i);
    RowAdded(before.allocations, Allocation(q, i, part), q, i);
  }

  /** One turn of the allocation loop. */
  lemma {:induction false} SplitPlaced(ledger: Ledger, payment: Payment, splits: seq<(nat, int)>, seen: Seen, n: nat)
    requires Valid(ledger) && Current(seen, ledger) && n < |splits|
    requires SplitGoesAhead(payment.customer, payment.amount, splits, seen, n)
    ensures var before := Placed(ledger, payment, splits[..n], StatusesWith(splits[..n], seen));
            GuardAndInsert(before, |ledger.payments|, splits[n].0, splits[n].1)
            == Ok(Placed(ledger, payment, splits[..n + 1], StatusesWith(splits[..n + 1], seen)))
  {
    var row := Allocation(|ledger.payments|, splits[n].0, splits[n].1);
    SplitPasses(ledger, payment, splits, seen, n);
    StatusPlaced(ledger, splits, seen, n);
    assert RowsFor(splits[..n + 1], |ledger.payments|) == RowsFor(splits[..n], |ledger.payments|) + [row];
    assert ledger.allocations + RowsFor(splits[..n], |ledger.payments|) + [row]
        == ledger.allocations + RowsFor(splits[..n + 1], |ledger.payments|);
  }

  lemma {:induction false} StatusPlaced(ledger: Ledger, splits: seq<(nat, int)>, seen: Seen, n: nat)
    requires n < |splits| && splits[n].0 < |ledger.invoices|
    requires Inv(splits[n].0) in seen && seen[Inv(splits[n].0)].InvoiceView?
    requires splits[n].0 !in StatusesWith(splits[..n], seen)
    ensures var i := splits[n].0;
            var view := seen[Inv(i)];
            var before := WithStatuses(ledger.invoices, StatusesWith(splits[..n], seen));
            var row := before[i].(status := StatusAfter(view.invoice, view.cash + splits[n].1));
            WithStatuses(ledger.invoices, StatusesWith(splits[..n + 1], seen)) == before[i := row]
  {
    assert splits[..n + 1][..n] == splits[..n] && splits[..n + 1][n] == splits[n];
  }

  lemma {:induction false} SplitsPlaced(ledger: Ledger, payment: Payment, splits: seq<(nat, int)>, seen: Seen, n: nat)
    requires Valid(ledger) && Current(seen, ledger) && n <= |splits|
    requires SplitsGoAhead(payment.customer, payment.amount, splits, seen)
    ensures AllocateAll(Placed(ledger, payment, splits[..n], StatusesWith(splits[..n], seen)), |ledger.payments|, splits[n..])
         == Ok(Placed(ledger, payment, splits, StatusesWith(splits, seen)))
    decreases |splits| - n
  {
    if n == |splits| {
      assert splits[..n] == splits;
    } else {
      SplitPlaced(ledger, payment, splits, seen, n);
      SplitsPlaced(ledger, payment, splits, seen, n + 1);
      assert splits[n..][1..] == splits[n + 1..];
    }
  }

  lemma {:induction false} RecordDecided(ledger: Ledger, customer: nat, amount: int, day: int, splits: seq<(nat, int)>, seen: Seen)
    requires Valid(ledger) && Current(seen, ledger) && SplitsGoAhead(customer, amount, splits, seen)
    ensures var payment := Payment(customer, amount, day, None);
            Record(ledger, customer, amount, day, splits)
            == Ok(Apply(ledger, AddPayment(payment, splits, StatusesWith(splits, seen))))
  {
    var payment := Payment(customer, amount, day, None);
    var start := Placed(ledger, payment, splits[..0], StatusesWith(splits[..0], seen));
    assert start.invoices == ledger.invoices && start.allocations == ledger.allocations;
    assert start == WithPayment(ledger, payment) && splits[0..] == splits;
    SplitsPlaced(ledger, payment, splits, seen, 0);
  }

  lemma {:induction false} Decided(ledger: Ledger, c: Command, seen: Seen)
    requires Valid(ledger) && Current(seen, ledger) && Decide(c, seen).Some?
    ensures Execute(ledger, c) == Ok(Apply(ledger, Decide(c, seen).value))
  {
    match c {
      case DoRecord(customer, amount, day, splits) => RecordDecided(ledger, customer, amount, day, splits, seen);
      case DoAllocate(p, i, amount) => AllocateDecided(ledger, p, i, amount, seen);
      case DoReverse(p, day) => ReverseDecided(ledger, p, day, seen);
      case DoWithhold(i, amount, day) =>
        assert Execute(ledger, c).value.invoices == Apply(ledger, Decide(c, seen).value).invoices;
      case _ =>
    }
  }

  // ----- a commit leaves alone whatever it has not locked -----

  /** The rows a transaction writes about, which it must have locked. */
  function Footprint(effect: Effect): set<Resource> {
    match effect
    case AddInvoice(_) => {}
    case AddPayment(_, splits, _) => set k | 0 <= k < |splits| :: Inv(splits[k].0)
    case AddAllocation(row, _) => {Pay(row.payment), Inv(row.invoice)}
    case SetInvoice(i, _) => {Inv(i)}
    case AddReversal(p, _, rows, statuses) => {Pay(p)} + set k | 0 <= k < |rows| :: Inv(rows[k].invoice)
  }

  /** A decision writes only about rows it has read. */
  lemma {:induction false} FootprintIsSeen(c: Command, seen: Seen)
    requires Decide(c, seen).Some?
    ensures Footprint(Decide(c, seen).value) <= seen.Keys
    ensures WritesItsFootprint(Decide(c, seen).value)
  {
    if c.DoRecord? {
      forall i | i in StatusesWith(c.splits, seen) ensures exists k :: 0 <= k < |c.splits| && c.splits[k].0 == i {
        StatusesWithAt(c.splits, seen, i);
      }
      forall k | 0 <= k < |c.splits| ensures Inv(c.splits[k].0) in seen {
        assert SplitGoesAhead(c.customer, c.amount, c.splits, seen, k);
      }
    }
  }

  ghost predicate WritesItsFootprint(effect: Effect) {
    match effect
    case AddPayment(payment, splits, statuses) =>
      payment.reversalOf.None? && forall i :: i in statuses ==> exists k :: 0 <= k < |splits| && splits[k].0 == i
    case AddReversal(of, payment, rows, statuses) =>
      payment.reversalOf == Some(of) && forall i :: i in statuses ==> exists k :: 0 <= k < |rows| && rows[k].invoice == i
    case _ => true
  }

  lemma {:induction false} NegatedSums(rows: seq<Allocation>, q: nat, r: Resource)
    ensures r.Inv? && (forall k :: 0 <= k < |rows| ==> rows[k].invoice != r.i) ==> InvoiceSum(Negated(rows, q), r.i) == 0
    ensures r.Pay? && r.p != q ==> PaymentSum(Negated(rows, q), r.p) == 0
  {
    var negated := Negated(rows, q);
    if r.Inv? && (forall k :: 0 <= k < |rows| ==> rows[k].invoice != r.i) {
      RowSumNone(negated, (row: Allocation) => row.invoice == r.i);
    }
    if r.Pay? && r.p != q {
      RowSumNone(negated, (row: Allocation) => row.payment == r.p);
    }
  }

  lemma {:induction false} RowsOfConcat(a: seq<Allocation>, b: seq<Allocation>, p: nat)
    requires forall k :: 0 <= k < |b| ==> b[k].payment != p
    ensures RowsOf(a + b, p) == RowsOf(a, p)
  {
    if b == [] {
      assert a + b == a;
    } else {
      assert (a + b)[..|a + b| - 1] == a + b[..|b| - 1];
      RowsOfConcat(a, b[..|b| - 1], p);
      assert RowsOf(a, p) + [] == RowsOf(a, p);
    }
  }

  /** Adding a payment makes none but the one it reverses reversed. */
  lemma {:induction false} MirrorAdded(payments: seq<Payment>, payment: Payment, p: nat)
    requires payment.reversalOf != Some(p)
    ensures MirrorOf(payments + [payment], p) == MirrorOf(payments, p)
  {
    assert (payments + [payment])[..|payments|] == payments;
  }

  lemma {:induction false} CommitLeavesAlone(ledger: Ledger, c: Command, seen: Seen, r: Resource)
    requires Decide(c, seen).Some? && r !in Footprint(Decide(c, seen).value)
    requires ViewOf(ledger, r) != Absent
    ensures ViewOf(Apply(ledger, Decide(c, seen).value), r) == ViewOf(ledger, r)
  {
    var effect := Decide(c, seen).value;
    FootprintIsSeen(c, seen);
    match effect {
      case AddInvoice(_) =>
      case SetInvoice(_, _) =>
      case AddPayment(_, _, _) =>
        PaymentLeavesAlone(ledger, effect, r);
      case AddAllocation(row, _) =>
        if r.Pay? {
          RowAdded(ledger.allocations, row, r.p, 0);
          RowsOfConcat(ledger.allocations, [row], r.p);
        } else {
          RowAdded(ledger.allocations, row, 0, r.i);
        }
      case AddReversal(_, payment, rows, _) =>
        ReversalLeavesAlone(ledger, effect, r);
    }
  }

  /** Rows about neither an invoice nor a payment change nothing that is read of them. */
  lemma {:induction false} RowsLeaveAlone(rows: seq<Allocation>, more: seq<Allocation>, r: Resource)
    requires r.Inv? ==> forall k :: 0 <= k < |more| ==> more[k].invoice != r.i
    requires r.Pay? ==> forall k :: 0 <= k < |more| ==> more[k].payment != r.p
    ensures r.Inv? ==> InvoiceSum(rows + more, r.i) == InvoiceSum(rows, r.i)
    ensures r.Pay? ==> PaymentSum(rows + more, r.p) == PaymentSum(rows, r.p) && RowsOf(rows + more, r.p) == RowsOf(rows, r.p)
  {
    if r.Inv? {
      RowSumConcat(rows, more, (row: Allocation) => row.invoice == r.i);
      RowSumNone(more, (row: Allocation) => row.invoice == r.i);
    } else {
      RowSumConcat(rows, more, (row: Allocation) => row.payment == r.p);
      RowSumNone(more, (row: Allocation) => row.payment == r.p);
      RowsOfConcat(rows, more, r.p);
    }
  }

  lemma {:induction false} PaymentLeavesAlone(ledger: Ledger, effect: Effect, r: Resource)
    requires effect.AddPayment? && WritesItsFootprint(effect) && r !in Footprint(effect) && ViewOf(ledger, r) != Absent
    ensures ViewOf(Apply(ledger, effect), r) == ViewOf(ledger, r)
  {
    var q, splits := |ledger.payments|, effect.splits;
    if r.Inv? {
      forall k | 0 <= k < |splits| ensures splits[k].0 != r.i {
        assert Inv(splits[k].0) in Footprint(effect);
      }
      assert r.i !in effect.statuses;
    } else {
      MirrorAdded(ledger.payments, effect.payment, r.p);
    }
    RowsLeaveAlone(ledger.allocations, RowsFor(splits, q), r);
  }

  lemma {:induction false} ReversalLeavesAlone(ledger: Ledger, effect: Effect, r: Resource)
    requires effect.AddReversal? && WritesItsFootprint(effect) && r !in Footprint(effect) && ViewOf(ledger, r) != Absent
    ensures ViewOf(Apply(ledger, effect), r) == ViewOf(ledger, r)
  {
    var negated := Negated(effect.rows, |ledger.payments|);
    NegatedSums(effect.rows, |ledger.payments|, r);
    match r {
      case Inv(i) =>
        assert forall k :: 0 <= k < |effect.rows| ==> Inv(effect.rows[k].invoice) in Footprint(effect);
        RowSumConcat(ledger.allocations, negated, (row: Allocation) => row.invoice == i);
      case Pay(p) =>
        RowSumConcat(ledger.allocations, negated, (row: Allocation) => row.payment == p);
        RowsOfConcat(ledger.allocations, negated, p);
        MirrorAdded(ledger.payments, effect.payment, p);
    }
  }

  // ----- the machine -----

  type TxnId = nat

  datatype Txn = Txn(request: Command, seen: Seen)

  datatype System = System(ledger: Ledger, locks: map<Resource, TxnId>, active: map<TxnId, Txn>, history: seq<Command>)

  const START := System(EMPTY, map[], map[], [])

  function Released(locks: map<Resource, TxnId>, t: TxnId): map<Resource, TxnId> {
    map r | r in locks && locks[r] != t :: locks[r]
  }

  datatype Action =
    | Begin(t: TxnId, request: Command)
    | Lock(t: TxnId, r: Resource)
    | Read(t: TxnId, r: Resource)
    | Commit(t: TxnId)
    | Abort(t: TxnId)

  /** Whether an action can happen: a taken lock makes the others wait, a row is read only under its lock. */
  predicate Enabled(s: System, a: Action) {
    match a
    case Begin(t, request) => t !in s.active && IsRequest(request)
    case Lock(t, r) => t in s.active && r !in s.locks
    case Read(t, r) => t in s.active && r in s.locks && s.locks[r] == t
    case Commit(t) => t in s.active && Decide(s.active[t].request, s.active[t].seen).Some?
    case Abort(t) => t in s.active
  }

  function Next(s: System, a: Action): System
    requires Enabled(s, a)
  {
    match a
    case Begin(t, request) => s.(active := s.active[t := Txn(request, map[])])
    case Lock(t, r) => s.(locks := s.locks[r := t])
    case Read(t, r) =>
      var txn := s.active[t];
      s.(active := s.active[t := txn.(seen := txn.seen[r := ViewOf(s.ledger, r)])])
    case Commit(t) =>
      var txn := s.active[t];
      System(Apply(s.ledger, Decide(txn.request, txn.seen).value), Released(s.locks, t), s.active - {t}, s.history + [txn.request])
    case Abort(t) => s.(locks := Released(s.locks, t), active := s.active - {t})
  }

  ghost predicate IsExecution(states: seq<System>, actions: seq<Action>) {
    && |states| == |actions| + 1 && states[0] == START
    && forall k :: 0 <= k < |actions| ==> Enabled(states[k], actions[k]) && states[k + 1] == Next(states[k], actions[k])
  }

  ghost predicate HoldsItsLocks(locks: map<Resource, TxnId>, t: TxnId, seen: Seen) {
    forall r :: r in seen ==> r in locks && locks[r] == t
  }

  /** A transaction under way holds the locks of what it has read, and what it has read is current. */
  ghost predicate IsSound(s: System, t: TxnId)
    requires t in s.active
  {
    IsRequest(s.active[t].request) && HoldsItsLocks(s.locks, t, s.active[t].seen) && Current(s.active[t].seen, s.ledger)
  }

  ghost predicate Inv2PL(s: System) {
    && s.ledger == RunAll(s.history) && AreRequests(s.history)
    && forall t {:trigger IsSound(s, t)} :: t in s.active ==> IsSound(s, t)
  }

  /** What another transaction has read stays current through a commit. */
  lemma {:induction false} OthersStayCurrent(s: System, t: TxnId, u: TxnId, r: Resource)
    requires Inv2PL(s) && Enabled(s, Commit(t)) && u != t && u in s.active && r in s.active[u].seen
    ensures s.active[u].seen[r] == Absent || s.active[u].seen[r] == ViewOf(Next(s, Commit(t)).ledger, r)
  {
    var txn := s.active[t];
    assert IsSound(s, u) && IsSound(s, t);
    assert r !in txn.seen;
    FootprintIsSeen(txn.request, txn.seen);
    if s.active[u].seen[r] != Absent {
      CommitLeavesAlone(s.ledger, txn.request, txn.seen, r);
    }
  }

  lemma {:induction false} RunOneMore(history: seq<Command>, c: Command, after: Ledger)
    requires AreRequests(history) && IsRequest(c) && Execute(RunAll(history), c) == Ok(after)
    ensures RunAll(history + [c]) == after && AreRequests(history + [c])
  {
    assert (history + [c])[..|history|] == history;
  }

  /** The rows committed are those the request would have left, run alone. */
  lemma {:induction false} CommitIsTheRequest(s: System, t: TxnId)
    requires Inv2PL(s) && Enabled(s, Commit(t))
    ensures var s' := Next(s, Commit(t)); s'.ledger == RunAll(s'.history) && AreRequests(s'.history)
  {
    var txn := s.active[t];
    assert IsSound(s, t);
    ReachableIsValid(s.history);
    Decided(s.ledger, txn.request, txn.seen);
    RunOneMore(s.history, txn.request, Next(s, Commit(t)).ledger);
  }

  lemma {:induction false} CommitKeeps(s: System, t: TxnId)
    requires Inv2PL(s) && Enabled(s, Commit(t))
    ensures Inv2PL(Next(s, Commit(t)))
  {
    var s' := Next(s, Commit(t));
    CommitIsTheRequest(s, t);
    forall u | u in s'.active
      ensures IsSound(s', u)
    {
      assert IsSound(s, u);
      ReleasedKeeps(s.locks, t, u, s.active[u].seen);
      forall r | r in s.active[u].seen
        ensures s.active[u].seen[r] == Absent || s.active[u].seen[r] == ViewOf(s'.ledger, r)
      {
        OthersStayCurrent(s, t, u, r);
      }
    }
  }

  lemma {:induction false} ReleasedKeeps(locks: map<Resource, TxnId>, t: TxnId, u: TxnId, seen: Seen)
    requires HoldsItsLocks(locks, u, seen) && u != t
    ensures HoldsItsLocks(Released(locks, t), u, seen)
  {
  }

  lemma {:induction false} AbortKeeps(s: System, t: TxnId)
    requires Inv2PL(s) && Enabled(s, Abort(t))
    ensures Inv2PL(Next(s, Abort(t)))
  {
    var s' := Next(s, Abort(t));
    forall u | u in s'.active
      ensures IsSound(s', u)
    {
      assert IsSound(s, u);
      ReleasedKeeps(s.locks, t, u, s.active[u].seen);
    }
  }

  lemma {:induction false} ReadKeeps(s: System, t: TxnId, r: Resource)
    requires Inv2PL(s) && Enabled(s, Read(t, r))
    ensures Inv2PL(Next(s, Read(t, r)))
  {
    var s' := Next(s, Read(t, r));
    forall u | u in s'.active
      ensures IsSound(s', u)
    {
      assert IsSound(s, u);
    }
  }

  lemma {:induction false} BeginOrLockKeeps(s: System, a: Action)
    requires Inv2PL(s) && Enabled(s, a) && (a.Begin? || a.Lock?)
    ensures Inv2PL(Next(s, a))
  {
    var s' := Next(s, a);
    forall u | u in s'.active
      ensures IsSound(s', u)
    {
      assert u in s.active ==> IsSound(s, u);
    }
  }

  lemma {:induction false} StepKeeps(s: System, a: Action)
    requires Inv2PL(s) && Enabled(s, a)
    ensures Inv2PL(Next(s, a))
  {
    match a {
      case Commit(t) => CommitKeeps(s, t);
      case Abort(t) => AbortKeeps(s, t);
      case Read(t, r) => ReadKeeps(s, t, r);
      case _ => BeginOrLockKeeps(s, a);
    }
  }

  /**
   * Serializability: in every interleaving the committed ledger is the one the
   * committed requests leave when run one after the other, in commit order.
   */
  lemma {:induction false} ExecutionsAreSerial(states: seq<System>, actions: seq<Action>)
    requires IsExecution(states, actions)
    ensures var s := states[|actions|]; Inv2PL(s) && s.ledger == RunAll(s.history) && AreRequests(s.history)
    decreases |actions|
  {
    if actions != [] {
      var n := |actions| - 1;
      assert IsExecution(states[..n + 1], actions[..n]);
      ExecutionsAreSerial(states[..n + 1], actions[..n]);
      StepKeeps(states[n], actions[n]);
    }
  }

  /**
   * So in every interleaving each committed invoice keeps its allocations and
   * withholding within its total, a VOID one has neither, and every other
   * carries the derived status, but for a free one that is still ISSUED.
   */
  lemma {:induction false} InterleavingsKeepInvoices(states: seq<System>, actions: seq<Action>, i: nat)
    requires IsExecution(states, actions) && i < |states[|actions|].ledger.invoices|
    ensures var ledger := states[|actions|].ledger;
            var invoice, cash := ledger.invoices[i], InvoiceSum(ledger.allocations, i);
            && 0 <= cash && cash + invoice.wht <= invoice.total
            && (invoice.status == Void ==> cash == 0 && invoice.wht == 0)
            && (invoice.status != Void && invoice.status != DerivedStatus(invoice.total, invoice.wht, cash)
                <==> invoice.total == 0 && invoice.status == Issued)
    ensures var ledger := states[|actions|].ledger;
            ledger.invoices[i].status != Void && ledger.invoices[i].total > 0 ==> SaysWhatIsPaid(ledger, i)
  {
    var ledger := states[|actions|].ledger;
    ExecutionsAreSerial(states, actions);
    ReachableIsValid(states[|actions|].history);
    assert InvoiceOk(ledger, i);
    if ledger.invoices[i].status != Void && ledger.invoices[i].total > 0 {
      StatusIsWhatIsPaid(ledger, i);
    }
  }

  function SeenWithoutLocks(ledger: Ledger, p: nat, i: nat): Seen {
    map[Inv(i) := ViewOf(ledger, Inv(i)), Pay(p) := ViewOf(ledger, Pay(p))]
  }

  /**
   * The lock is what does it. From the same committed rows both an allocation
   * and a void decide to go ahead, and committing both leaves a VOID invoice
   * with live cash on it.
   */
  lemma {:induction false} WithoutTheLock(ledger: Ledger, p: nat, i: nat, amount: int)
    requires Allocate(ledger, p, i, amount).Ok? && VoidInvoice(ledger, i).Ok? && amount > 0
    ensures Decide(DoAllocate(p, i, amount), SeenWithoutLocks(ledger, p, i)).Some?
    ensures Decide(DoVoid(i), SeenWithoutLocks(ledger, p, i)).Some?
    ensures var paid := Apply(ledger, Decide(DoAllocate(p, i, amount), SeenWithoutLocks(ledger, p, i)).value);
            var both := Apply(paid, Decide(DoVoid(i), SeenWithoutLocks(ledger, p, i)).value);
            i < |both.invoices| && both.invoices[i].status == Void && InvoiceSum(both.allocations, i) == amount
  {
    RowsOfAreTheRows(ledger.allocations, p, i);
    RowAdded(ledger.allocations, Allocation(p, i, amount), p, i);
  }
}
