/**
 * The three views of what a customer owes, over whole runs. The statement and
 * the balance agree as long as no payment is allocated after it was reversed,
 * which `allocate` does not refuse; each such allocation sets them apart by
 * its amount.
 */
module LedgerAgreement {
  import opened Wrappers
  import opened Sums
  import opened Receivables
  import opened ReceivablesInvariant
  import opened CustomerBalance
  import opened CustomerStatement

  /** What a request allocates for customer `c` from a payment already reversed. */
  function LateAmount(ledger: Ledger, c: nat, command: Command): int {
    match command
    case DoAllocate(p, i, amount) =>
      if Allocate(ledger, p, i, amount).Ok? && ledger.payments[p].customer == c && IsReversed(ledger, p)
      then amount else 0
    case _ => 0
  }

  function LateCash(commands: seq<Command>, c: nat): int {
    if commands == [] then 0
    else
      var before := commands[..|commands| - 1];
      LateCash(before, c) + LateAmount(RunAll(before), c, commands[|commands| - 1])
  }

  // ----- how each transaction moves the stranded cash -----

  lemma {:induction false} InsertMovesStranded(ledger: Ledger, c: nat, p: nat, i: nat, amount: int)
    requires Valid(ledger) && p < |ledger.payments| && GuardAndInsert(ledger, p, i, amount).Ok?
    ensures StrandedCash(GuardAndInsert(ledger, p, i, amount).value, c)
         == StrandedCash(ledger, c)
            + (if ledger.payments[p].customer == c && !IsLive(ledger, p) then amount else 0)
  {
    var after := GuardAndInsert(ledger, p, i, amount).value;
    forall k: nat
      ensures PaymentSum(after.allocations, k) == PaymentSum(ledger.allocations, k) + (if k == p then amount else 0)
    {
      RowAdded(ledger.allocations, Allocation(p, i, amount), k, i);
    }
    SumChange(|ledger.payments|, (k: nat) => Stranded(ledger, c, k), (k: nat) => Stranded(after, c, k), p);
  }

  lemma {:induction false} AllocateAllMovesStranded(ledger: Ledger, c: nat, p: nat, splits: seq<(nat, int)>)
    requires Valid(ledger) && p < |ledger.payments| && IsLive(ledger, p)
    requires forall k :: 0 <= k < |splits| ==> splits[k].1 > 0
    requires AllocateAll(ledger, p, splits).Ok?
    ensures StrandedCash(AllocateAll(ledger, p, splits).value, c) == StrandedCash(ledger, c)
    decreases |splits|
  {
    if splits != [] {
      InsertMovesStranded(ledger, c, p, splits[0].0, splits[0].1);
      InsertKeepsValid(ledger, p, splits[0].0, splits[0].1);
      AllocateAllMovesStranded(GuardAndInsert(ledger, p, splits[0].0, splits[0].1).value, c, p, splits[1..]);
    }
  }

  lemma {:induction false} PaymentMovesNothing(ledger: Ledger, c: nat, customer: nat, amount: int, day: int)
    requires Valid(ledger)
    ensures StrandedCash(WithPayment(ledger, Payment(customer, amount, day, None)), c) == StrandedCash(ledger, c)
    ensures IsLive(WithPayment(ledger, Payment(customer, amount, day, None)), |ledger.payments|)
  {
    var n := |ledger.payments|;
    var after := WithPayment(ledger, Payment(customer, amount, day, None));
    SumSame(n, (k: nat) => Stranded(ledger, c, k), (k: nat) => Stranded(after, c, k));
  }

  lemma {:induction false} ReversedStrands(ledger: Ledger, c: nat, p: nat, day: int, k: nat)
    requires Valid(ledger) && Reverse(ledger, p, day).Ok?
    ensures Stranded(Reverse(ledger, p, day).value, c, k)
         == if ledger.payments[p].customer != c || (k != p && k != |ledger.payments|) then Stranded(ledger, c, k)
            else if k == p then PaymentSum(ledger.allocations, p)
            else -PaymentSum(ledger.allocations, p)
  {
    ReversedSums(ledger, p, day, k, 0);
  }

  lemma {:induction false} ReverseMovesNothing(ledger: Ledger, c: nat, p: nat, day: int)
    requires Valid(ledger) && Reverse(ledger, p, day).Ok?
    ensures StrandedCash(Reverse(ledger, p, day).value, c) == StrandedCash(ledger, c)
  {
    var n, after := |ledger.payments|, Reverse(ledger, p, day).value;
    var before, later := (k: nat) => Stranded(ledger, c, k), (k: nat) => Stranded(after, c, k);
    forall k: nat
      ensures later(k) == if ledger.payments[p].customer != c || (k != p && k != n) then before(k)
                          else if k == p then PaymentSum(ledger.allocations, p)
                          else -PaymentSum(ledger.allocations, p)
    {
      ReversedStrands(ledger, c, p, day, k);
    }
    SumChange(n, before, later, p);
  }

  lemma {:induction false} StrandedMoves(ledger: Ledger, c: nat, command: Command)
    requires Valid(ledger) && IsRequest(command)
    ensures StrandedCash(After(ledger, command), c) == StrandedCash(ledger, c) + LateAmount(ledger, c, command)
  {
    var after := After(ledger, command);
    if Execute(ledger, command).Ok? {
      match command {
        case DoRecord(customer, amount, day, splits) =>
          PaymentMovesNothing(ledger, c, customer, amount, day);
          PaymentKeepsValid(ledger, customer, amount, day);
          AllocateAllMovesStranded(WithPayment(ledger, Payment(customer, amount, day, None)), c, |ledger.payments|, splits);
        case DoAllocate(p, i, amount) =>
          InsertKeepsValid(ledger, p, i, amount);
          InsertMovesStranded(ledger, c, p, i, amount);
        case DoReverse(p, day) =>
          ReverseMovesNothing(ledger, c, p, day);
        case _ =>
          SumSame(|ledger.payments|, (k: nat) => Stranded(ledger, c, k), (k: nat) => Stranded(after, c, k));
      }
    }
  }

  lemma {:induction false} StrandedIsLate(commands: seq<Command>, c: nat)
    requires AreRequests(commands)
    ensures StrandedCash(RunAll(commands), c) == LateCash(commands, c)
  {
    if commands != [] {
      var before := commands[..|commands| - 1];
      StrandedIsLate(before, c);
      ReachableIsValid(before);
      StrandedMoves(RunAll(before), c, commands[|commands| - 1]);
    }
  }

  /** Whether a run allocates a payment of `c` after reversing it. */
  ghost predicate AllocatesLate(commands: seq<Command>, c: nat) {
    exists k :: 0 <= k < |commands| && LateAmount(RunAll(commands[..k]), c, commands[k]) > 0
  }

  lemma {:induction false} LateCashIsPositive(commands: seq<Command>, c: nat)
    requires AreRequests(commands)
    ensures LateCash(commands, c) >= 0
    ensures LateCash(commands, c) > 0 <==> AllocatesLate(commands, c)
  {
    if commands != [] {
      var n := |commands| - 1;
      var before := commands[..n];
      LateCashIsPositive(before, c);
      assert IsRequest(commands[n]);
      assert LateAmount(RunAll(before), c, commands[n]) >= 0;
      assert forall k :: 0 <= k <= n ==> before[..k] == commands[..k];
      if AllocatesLate(before, c) {
        var k :| 0 <= k < n && LateAmount(RunAll(before[..k]), c, before[k]) > 0;
        assert LateAmount(RunAll(commands[..k]), c, commands[k]) > 0;
      }
      if AllocatesLate(commands, c) {
        var k :| 0 <= k < |commands| && LateAmount(RunAll(commands[..k]), c, commands[k]) > 0;
        if k < n {
          assert LateAmount(RunAll(before[..k]), c, before[k]) > 0;
        }
      }
    }
  }

  /**
   * Through any sequence of requests: the all-time statement closes at the
   * recomputed balance plus the cash allocated late, so the two agree exactly
   * when no payment of the customer was allocated after its reversal.
   */
  lemma {:induction false} StatementAgrees(commands: seq<Command>, c: nat, from: int, to: int)
    requires AreRequests(commands)
    requires AllDatedBy(RunAll(commands), to) && from <= to + 1
    ensures var ledger := RunAll(commands);
            var closing := StatementOf(from, to, SourceRows(ledger, c)).closing;
            && closing == Balance(ledger, c) + LateCash(commands, c)
            && (closing == Balance(ledger, c) <==> !AllocatesLate(commands, c))
  {
    ReachableIsValid(commands);
    StatementAgainstBalance(RunAll(commands), c, from, to);
    StrandedIsLate(commands, c);
    LateCashIsPositive(commands, c);
  }

  /** A payment reversed in full and then allocated to an invoice of the same amount. */
  function LateRun(amount: int): seq<Command> {
    [DoIssue(0, amount, 0, None), DoRecord(0, amount, 0, []), DoReverse(0, 0), DoAllocate(0, 0, amount)]
  }

  function LateLedger(amount: int, status: Status, rows: seq<Allocation>): Ledger {
    Ledger([Invoice(0, amount, 0, status, 0, None, None)],
           [Payment(0, amount, 0, None), Payment(0, -amount, 0, Some(0))], rows)
  }

  /** The books before that reversal. */
  function PaidLedger(amount: int): Ledger {
    Ledger([Invoice(0, amount, 0, Issued, 0, None, None)], [Payment(0, amount, 0, None)], [])
  }

  lemma {:induction false} LateRunPays(amount: int)
    requires amount > 0
    ensures RunAll(LateRun(amount)[..2]) == PaidLedger(amount)
  {
    var run := LateRun(amount);
    assert run[..2][..1] == run[..1] && run[..1][..0] == [];
    assert RunAll(run[..1]) == Ledger(PaidLedger(amount).invoices, [], []);
  }

  lemma {:induction false} LateReversal(amount: int)
    requires amount > 0
    ensures After(PaidLedger(amount), DoReverse(0, 0)) == LateLedger(amount, Issued, [])
  {
    assert PaidLedger(amount).payments[..0] == [];
  }

  lemma {:induction false} LateRunReverses(amount: int)
    requires amount > 0
    ensures RunAll(LateRun(amount)[..3]) == LateLedger(amount, Issued, [])
  {
    LateRunPays(amount);
    LateReversal(amount);
    assert LateRun(amount)[..3][..2] == LateRun(amount)[..2];
  }

  lemma {:induction false} LateAllocationIsAccepted(amount: int)
    requires amount > 0
    ensures IsReversed(LateLedger(amount, Issued, []), 0)
    ensures Allocate(LateLedger(amount, Issued, []), 0, 0, amount)
         == Ok(LateLedger(amount, Paid, [Allocation(0, 0, amount)]))
  {
    var row := Allocation(0, 0, amount);
    var before, grown := LateLedger(amount, Issued, []), LateLedger(amount, Issued, [row]);
    assert InvoiceSum([], 0) == 0 && PaymentSum([], 0) == 0 && !HasRow([], 0, 0);
    assert [] + [row] == [row];
    assert Allocate(before, 0, 0, amount) == Ok(Recomputed(grown, 0));
    RowSumOne(row, (r: Allocation) => r.invoice == 0);
    assert InvoiceSum([row], 0) == amount;
    assert Recomputed(grown, 0).invoices == LateLedger(amount, Paid, [row]).invoices;
  }

  lemma {:induction false} LateViews(amount: int)
    requires amount > 0
    ensures Balance(LateLedger(amount, Paid, [Allocation(0, 0, amount)]), 0) == 0
    ensures StrandedCash(LateLedger(amount, Paid, [Allocation(0, 0, amount)]), 0) == amount
  {
    var row := Allocation(0, 0, amount);
    var ledger := LateLedger(amount, Paid, [row]);
    RowSumOne(row, (r: Allocation) => r.invoice == 0);
    RowSumOne(row, (r: Allocation) => r.payment == 0);
    RowSumOne(row, (r: Allocation) => r.payment == 1);
    assert ledger.payments[..1] == [ledger.payments[0]];
    assert !IsLive(ledger, 0) && !IsLive(ledger, 1);
    SumZero(1, (i: nat) => Outstanding(ledger, 0, i));
    SumZero(2, (p: nat) => Unapplied(ledger, 0, p));
    var stranded := (p: nat) => Stranded(ledger, 0, p);
    assert stranded(0) == amount && stranded(1) == 0;
    assert Sum(2, stranded) == Sum(1, stranded) + stranded(1) && Sum(1, stranded) == Sum(0, stranded) + stranded(0);
  }

  lemma {:induction false} LateRunEnds(amount: int)
    requires amount > 0
    ensures AreRequests(LateRun(amount)) && |LateRun(amount)| == 4
    ensures RunAll(LateRun(amount)) == LateLedger(amount, Paid, [Allocation(0, 0, amount)])
  {
    var run := LateRun(amount);
    LateRunReverses(amount);
    LateAllocationIsAccepted(amount);
    assert RunAll(run) == After(RunAll(run[..3]), run[3]);
  }

  /** The code accepts that run: the invoice is PAID and the balance 0, while the statement still shows the amount owed. */
  lemma {:induction false} LateAllocationSplitsTheViews(amount: int)
    requires amount > 0
    ensures AreRequests(LateRun(amount))
    ensures var ledger := RunAll(LateRun(amount));
            && ledger == LateLedger(amount, Paid, [Allocation(0, 0, amount)])
            && Balance(ledger, 0) == 0
            && StatementOf(0, 0, SourceRows(ledger, 0)).closing == amount
  {
    LateRunEnds(amount);
    LateViews(amount);
    ReachableIsValid(LateRun(amount));
    StatementAgainstBalance(LateLedger(amount, Paid, [Allocation(0, 0, amount)]), 0, 0, 0);
  }
}
