/**
 * The stored balance of a customer under concurrent writes. Every transaction
 * that moves money recomputes it last, in four queries, each of which sees the
 * rows committed by then and the transaction's own; the figure is stored at the
 * commit. Two writes for one customer that lock different rows overlap, and what
 * one commits the other's queries may see in part. The figure stored is off by
 * exactly what the commits since its first query moved in the queries already
 * asked: so a write that no other write for its customer commits during repairs
 * whatever was stored before.
 */
module StoredBalances {
  import opened Wrappers
  import opened Sums
  import opened Receivables
  import opened ReceivablesInvariant
  import opened CustomerBalance
  import opened CustomerStatement
  import opened BalanceQueries
  import P = InvoiceProtocol

  // ----- a recomputation under way -----

  /** The rows query `k` saw, or would see now. */
  function SeenBy(asked: seq<Ledger>, ledger: Ledger, k: nat): Ledger {
    if k < |asked| then asked[k] else ledger
  }

  /** What the committed rows come to for the queries asked, were the others asked now. */
  function Estimate(asked: seq<Ledger>, ledger: Ledger, c: nat): int {
    Invoiced(SeenBy(asked, ledger, 0), SeenBy(asked, ledger, 1), c)
    - OnAccount(SeenBy(asked, ledger, 2), SeenBy(asked, ledger, 3), c)
  }

  /** `n` queries that see the same rows. */
  function Times(ledger: Ledger, n: nat): seq<Ledger> {
    seq(n, k => ledger)
  }

  /** The figure to be stored: each query sees the transaction's own rows besides. */
  function FigureOf(asked: seq<Ledger>, command: Command, seen: P.Seen, c: nat): int
    requires |asked| == 4 && P.Decide(command, seen).Some?
  {
    var billed, summed := Written(asked[0], command, seen), Written(asked[1], command, seen);
    var paid, applied := Written(asked[2], command, seen), Written(asked[3], command, seen);
    var open := Renumbered(OpenInvoices(billed, c), |asked[0].invoices|, |asked[1].invoices|);
    var live := Renumbered(LivePayments(paid, c), |asked[2].payments|, |asked[3].payments|);
    BilledTotal(billed, c) - CashOn(summed.allocations, open)
    - (PaidBy(paid, LivePayments(paid, c)) - CashFrom(applied.allocations, live))
  }

  /** Rows are only added, and keep their customers. */
  ghost predicate Grows(before: Ledger, after: Ledger) {
    && |before.invoices| <= |after.invoices| && |before.payments| <= |after.payments|
    && (forall i :: 0 <= i < |before.invoices| ==> after.invoices[i].customer == before.invoices[i].customer)
    && (forall p :: 0 <= p < |before.payments| ==> after.payments[p] == before.payments[p])
  }

  lemma {:induction false} CommitGrows(ledger: Ledger, command: Command, seen: P.Seen)
    requires Stands(ledger, command, seen)
    ensures Grows(ledger, Written(ledger, command, seen))
  {
    match command {
      case DoWithhold(i, _, _) => assert seen[P.Inv(i)] == P.ViewOf(ledger, P.Inv(i));
      case DoVoid(i) => assert seen[P.Inv(i)] == P.ViewOf(ledger, P.Inv(i));
      case _ =>
    }
  }

  /** The figure is what its queries found committed, and the transaction's own move. */
  lemma {:induction false} FigureMoves(asked: seq<Ledger>, command: Command, seen: P.Seen, ledger: Ledger)
    requires |asked| == 4 && P.Decide(command, seen).Some?
    requires forall k :: 0 <= k < 4 ==> Stands(asked[k], command, seen)
    requires Grows(asked[0], asked[1]) && Grows(asked[2], asked[3])
    ensures var c := Whose(command, seen);
            FigureOf(asked, command, seen, c) == Estimate(asked, ledger, c) + Move(command, seen)
  {
    var c := Whose(command, seen);
    InvoicedMoves(asked[0], asked[1], command, seen, c);
    OnAccountMoves(asked[2], asked[3], command, seen, c);
    PartsMakeTheMove(command, seen);
  }

  /** With all four queries at one instant the figure is the balance the transaction leaves. */
  lemma {:induction false} FigureAtOnce(ledger: Ledger, command: Command, seen: P.Seen)
    requires Stands(ledger, command, seen)
    ensures var c := Whose(command, seen);
            FigureOf(Times(ledger, 4), command, seen, c) == Balance(Written(ledger, command, seen), c)
  {
    FigureMoves(Times(ledger, 4), command, seen, ledger);
    BalanceMoves(ledger, command, seen, Whose(command, seen));
    BalanceIsQueried(ledger, Whose(command, seen));
  }

  // ----- what a commit moves unseen -----

  /** What a commit for customer `c` moves in the queries already asked, whose rows `asked` has. */
  function Missed(asked: seq<Ledger>, ledger: Ledger, c: nat, command: Command, seen: P.Seen): int
    requires P.Decide(command, seen).Some?
  {
    var rows := NewRows(command, seen, |ledger.payments|);
    if Whose(command, seen) != c then 0
    else if |asked| == 0 then 0
    else if |asked| == 1 then BilledPart(command, seen) - CashOff(rows, OpenInvoices(asked[0], c))
    else if |asked| == 2 then BilledPart(command, seen) - CashPart(command, seen)
    else if |asked| == 3 then Move(command, seen) - CashFrom(rows, LivePayments(asked[2], c))
    else Move(command, seen)
  }

  /** The cash on invoices the first query did not return. */
  function CashOff(rows: seq<Allocation>, open: set<nat>): int {
    RowSum(rows, (row: Allocation) => row.invoice !in open)
  }

  /** Another customer's rows are about none of `c`'s invoices and payments. */
  lemma {:induction false} ForeignRows(before: Ledger, ledger: Ledger, command: Command, seen: P.Seen, c: nat)
    requires Stands(ledger, command, seen) && Grows(before, ledger) && Whose(command, seen) != c
    ensures CashOn(NewRows(command, seen, |ledger.payments|), OpenInvoices(before, c)) == 0
    ensures CashFrom(NewRows(command, seen, |ledger.payments|), LivePayments(before, c)) == 0
  {
    var rows := NewRows(command, seen, |ledger.payments|);
    forall k | 0 <= k < |rows|
      ensures rows[k].invoice !in OpenInvoices(before, c) && rows[k].payment !in LivePayments(before, c)
    {
      NewRowIsOpen(ledger, command, seen, |ledger.payments|, k);
      NewRowIsFiled(ledger, command, seen, k);
    }
    RowSumNone(rows, (row: Allocation) => row.invoice in OpenInvoices(before, c));
    RowSumNone(rows, (row: Allocation) => row.payment in LivePayments(before, c));
  }

  lemma {:induction false} CashLater(before: Ledger, ledger: Ledger, command: Command, seen: P.Seen, c: nat)
    requires P.Decide(command, seen).Some?
    ensures var rows, after := NewRows(command, seen, |ledger.payments|), Written(ledger, command, seen);
            && Invoiced(before, after, c) == Invoiced(before, ledger, c) - CashOn(rows, OpenInvoices(before, c))
            && OnAccount(before, after, c) == OnAccount(before, ledger, c) - CashFrom(rows, LivePayments(before, c))
  {
    var rows := NewRows(command, seen, |ledger.payments|);
    RowsAdded(ledger, command, seen);
    RowSumConcat(ledger.allocations, rows, (row: Allocation) => row.invoice in OpenInvoices(before, c));
    RowSumConcat(ledger.allocations, rows, (row: Allocation) => row.payment in LivePayments(before, c));
  }

  lemma {:induction false} CashOnOrOff(ledger: Ledger, command: Command, seen: P.Seen, q: nat, open: set<nat>)
    requires Stands(ledger, command, seen)
    ensures var rows := NewRows(command, seen, q); CashOn(rows, open) + CashOff(rows, open) == CashPart(command, seen)
  {
    NewRowsSum(ledger, command, seen, q);
    RowSumWithout(NewRows(command, seen, q), (row: Allocation) => true,
                  (row: Allocation) => row.invoice in open, (row: Allocation) => row.invoice !in open);
  }

  /** How what customer `c` is invoiced moves, in rows that two queries see alike. */
  lemma {:induction false} InvoicedNow(ledger: Ledger, command: Command, seen: P.Seen, c: nat)
    requires Stands(ledger, command, seen)
    ensures var after := Written(ledger, command, seen);
            Invoiced(after, after, c)
            == Invoiced(ledger, ledger, c) + (if Whose(command, seen) == c then BilledPart(command, seen) - CashPart(command, seen) else 0)
  {
    InvoicedMoves(ledger, ledger, command, seen, c);
    NothingRenumbered(ledger, command, seen, c);
  }

  /** A commit sets the balance apart from the estimate by what it moves unseen. */
  lemma {:induction false} CommitMisses(asked: seq<Ledger>, ledger: Ledger, command: Command, seen: P.Seen, c: nat)
    requires |asked| <= 4 && Stands(ledger, command, seen) && forall k :: 0 <= k < |asked| ==> Grows(asked[k], ledger)
    ensures var after := Written(ledger, command, seen);
            Balance(after, c) - Estimate(asked, after, c)
            == Balance(ledger, c) - Estimate(asked, ledger, c) + Missed(asked, ledger, c, command, seen)
  {
    var after := Written(ledger, command, seen);
    WrittenIsValid(ledger, command, seen);
    BalanceIsQueried(ledger, c);
    BalanceIsQueried(after, c);
    if |asked| == 1 {
      InvoicedNow(ledger, command, seen, c);
      CashLater(asked[0], ledger, command, seen, c);
      CashOnOrOff(ledger, command, seen, |ledger.payments|, OpenInvoices(asked[0], c));
      if Whose(command, seen) != c {
        ForeignRows(asked[0], ledger, command, seen, c);
      }
    } else if |asked| == 2 {
      InvoicedNow(ledger, command, seen, c);
    } else if |asked| >= 3 {
      BalanceMoves(ledger, command, seen, c);
      CashLater(asked[2], ledger, command, seen, c);
      if Whose(command, seen) != c {
        ForeignRows(asked[2], ledger, command, seen, c);
      }
    }
  }

  // ----- the machine -----

  /** The invoice transactions, the stored balances, and the committed rows the queries of each recomputation have seen. */
  datatype Books = Books(s: P.System, stored: map<nat, int>, asked: map<P.TxnId, seq<Ledger>>)

  datatype Step = Do(action: P.Action) | Query(t: P.TxnId)

  const START := Books(P.START, map[], map[])

  function StoredOf(b: Books, c: nat): int {
    if c in b.stored then b.stored[c] else 0
  }

  ghost predicate IsCurrent(b: Books, c: nat) {
    StoredOf(b, c) == Balance(b.s.ledger, c)
  }

  predicate Decides(s: P.System, t: P.TxnId) {
    t in s.active && P.Decide(s.active[t].request, s.active[t].seen).Some?
  }

  /** The customer whose balance `t` stores. */
  function CustomerOf(s: P.System, t: P.TxnId): nat
    requires Decides(s, t)
  {
    Whose(s.active[t].request, s.active[t].seen)
  }

  function AskedBy(b: Books, t: P.TxnId): seq<Ledger> {
    if t in b.asked then b.asked[t] else []
  }

  /** The four queries come one at a time, once the reads are done and before the commit. */
  predicate CanStep(b: Books, step: Step) {
    match step
    case Do(a) =>
      && P.Enabled(b.s, a)
      && (a.Commit? ==> |AskedBy(b, a.t)| == 4) && (a.Begin? || a.Lock? || a.Read? ==> a.t !in b.asked)
    case Query(t) => Decides(b.s, t) && |AskedBy(b, t)| < 4
  }

  function Stepped(b: Books, step: Step): Books
    requires CanStep(b, step)
  {
    match step
    case Query(t) => b.(asked := b.asked[t := AskedBy(b, t) + [b.s.ledger]])
    case Do(Commit(t)) =>
      var txn, c := b.s.active[t], CustomerOf(b.s, t);
      Books(P.Next(b.s, P.Commit(t)), b.stored[c := FigureOf(b.asked[t], txn.request, txn.seen, c)], b.asked - {t})
    case Do(Abort(t)) => b.(s := P.Next(b.s, P.Abort(t)), asked := b.asked - {t})
    case Do(a) => b.(s := P.Next(b.s, a))
  }

  ghost predicate IsRun(states: seq<Books>, steps: seq<Step>) {
    && |states| == |steps| + 1 && states[0] == START
    && forall k {:trigger steps[k]} :: 0 <= k < |steps| ==>
         CanStep(states[k], steps[k]) && states[k + 1] == Stepped(states[k], steps[k])
  }

  // ----- what every run keeps -----

  /** What the queries saw was committed one after the other, and what the transaction had read was current throughout. */
  ghost predicate IsHistory(asked: seq<Ledger>, ledger: Ledger, txn: P.Txn) {
    && (forall k :: 0 <= k < |asked| ==> Stands(asked[k], txn.request, txn.seen) && Grows(asked[k], ledger))
    && (forall j, k :: 0 <= j < k < |asked| ==> Grows(asked[j], asked[k]))
  }

  ghost predicate AskedOk(b: Books, t: P.TxnId)
    requires t in b.asked
  {
    Decides(b.s, t) && |b.asked[t]| <= 4 && IsHistory(b.asked[t], b.s.ledger, b.s.active[t])
  }

  ghost predicate BooksOk(b: Books) {
    P.Inv2PL(b.s) && forall t {:trigger AskedOk(b, t)} :: t in b.asked ==> AskedOk(b, t)
  }

  /** A transaction that can commit goes ahead on the rows committed by then. */
  lemma {:induction false} CommittedStands(s: P.System, t: P.TxnId)
    requires P.Inv2PL(s) && Decides(s, t)
    ensures Stands(s.ledger, s.active[t].request, s.active[t].seen)
  {
    assert P.IsSound(s, t);
    ReachableIsValid(s.history);
  }

  lemma {:induction false} HistoryGoesOn(asked: seq<Ledger>, ledger: Ledger, after: Ledger, txn: P.Txn)
    requires IsHistory(asked, ledger, txn) && Grows(ledger, after)
    ensures IsHistory(asked, after, txn)
  {
  }

  lemma {:induction false} OneMoreQuery(asked: seq<Ledger>, ledger: Ledger, txn: P.Txn)
    requires IsHistory(asked, ledger, txn) && Stands(ledger, txn.request, txn.seen)
    ensures IsHistory(asked + [ledger], ledger, txn)
  {
  }

  lemma {:induction false} ActionKeepsAsked(b: Books, a: P.Action, t: P.TxnId)
    requires BooksOk(b) && CanStep(b, Do(a)) && t in Stepped(b, Do(a)).asked
    ensures AskedOk(Stepped(b, Do(a)), t)
  {
    assert AskedOk(b, t);
    match a {
      case Commit(u) =>
        var txn := b.s.active[u];
        CommittedStands(b.s, u);
        CommitGrows(b.s.ledger, txn.request, txn.seen);
        HistoryGoesOn(b.asked[t], b.s.ledger, Written(b.s.ledger, txn.request, txn.seen), b.s.active[t]);
      case _ =>
    }
  }

  lemma {:induction false} QueryKeepsAsked(b: Books, t: P.TxnId, u: P.TxnId)
    requires BooksOk(b) && CanStep(b, Query(t)) && u in Stepped(b, Query(t)).asked
    ensures AskedOk(Stepped(b, Query(t)), u)
  {
    if u == t {
      assert t in b.asked ==> AskedOk(b, t);
      CommittedStands(b.s, t);
      OneMoreQuery(AskedBy(b, t), b.s.ledger, b.s.active[t]);
    } else {
      assert AskedOk(b, u);
    }
  }

  lemma {:induction false} StepKeepsOk(b: Books, step: Step)
    requires BooksOk(b) && CanStep(b, step)
    ensures BooksOk(Stepped(b, step))
  {
    match step {
      case Do(a) =>
        P.StepKeeps(b.s, a);
        forall t | t in Stepped(b, step).asked
          ensures AskedOk(Stepped(b, step), t)
        {
          ActionKeepsAsked(b, a, t);
        }
      case Query(t) =>
        forall u | u in Stepped(b, step).asked
          ensures AskedOk(Stepped(b, step), u)
        {
          QueryKeepsAsked(b, t, u);
        }
    }
  }

  lemma {:induction false} StartIsOk()
    ensures BooksOk(START)
  {
  }

  lemma {:induction false} RunsAreOk(states: seq<Books>, steps: seq<Step>, k: nat)
    requires IsRun(states, steps) && k <= |steps|
    ensures BooksOk(states[k])
  {
    if k == 0 {
      StartIsOk();
    } else {
      RunsAreOk(states, steps, k - 1);
      var step := steps[k - 1];
      StepKeepsOk(states[k - 1], step);
    }
  }

  // ----- when the stored balance is right -----

  /** How far the balance is from what the queries of `t` come to, if it has asked any. */
  function Off(b: Books, t: P.TxnId, c: nat): int {
    if t in b.asked then Balance(b.s.ledger, c) - Estimate(b.asked[t], b.s.ledger, c) else 0
  }

  /** What a step commits unseen by the queries `t` has asked. */
  function MissedAt(b: Books, step: Step, t: P.TxnId, c: nat): int
    requires CanStep(b, step)
  {
    match step
    case Do(Commit(u)) =>
      if t in b.asked then Missed(b.asked[t], b.s.ledger, c, b.s.active[u].request, b.s.active[u].seen) else 0
    case _ => 0
  }

  /** What the commits before step `k` moved unseen, since the first query of `t`. */
  ghost function MissedBy(states: seq<Books>, steps: seq<Step>, k: nat, t: P.TxnId, c: nat): int
    requires IsRun(states, steps) && k <= |steps|
  {
    if k == 0 || t !in states[k].asked then 0
    else
      var step := steps[k - 1];
      MissedBy(states, steps, k - 1, t, c) + MissedAt(states[k - 1], step, t, c)
  }

  lemma {:induction false} OffAtFirst(b: Books, t: P.TxnId, c: nat)
    requires BooksOk(b) && CanStep(b, Query(t)) && t !in b.asked
    ensures Off(Stepped(b, Query(t)), t, c) == 0
  {
    CommittedStands(b.s, t);
    BalanceIsQueried(b.s.ledger, c);
  }

  lemma {:induction false} AskedGrows(b: Books, t: P.TxnId)
    requires BooksOk(b) && t in b.asked
    ensures |b.asked[t]| <= 4 && forall k :: 0 <= k < |b.asked[t]| ==> Grows(b.asked[t][k], b.s.ledger)
  {
    assert AskedOk(b, t);
  }

  lemma {:induction false} CommitLeaves(b: Books, u: P.TxnId)
    requires BooksOk(b) && CanStep(b, Do(P.Commit(u)))
    ensures var txn, after := b.s.active[u], Stepped(b, Do(P.Commit(u)));
            && Stands(b.s.ledger, txn.request, txn.seen)
            && after.s.ledger == Written(b.s.ledger, txn.request, txn.seen) && after.asked == b.asked - {u}
  {
    CommittedStands(b.s, u);
  }

  lemma {:induction false} OffAtCommit(b: Books, u: P.TxnId, t: P.TxnId, c: nat)
    requires BooksOk(b) && CanStep(b, Do(P.Commit(u))) && t in b.asked && t != u
    ensures Off(Stepped(b, Do(P.Commit(u))), t, c)
         == Off(b, t, c) + Missed(b.asked[t], b.s.ledger, c, b.s.active[u].request, b.s.active[u].seen)
  {
    AskedGrows(b, t);
    CommitLeaves(b, u);
    CommitMisses(b.asked[t], b.s.ledger, b.s.active[u].request, b.s.active[u].seen, c);
  }

  lemma {:induction false} StepMovesOff(b: Books, step: Step, t: P.TxnId, c: nat)
    requires BooksOk(b) && CanStep(b, step) && t in Stepped(b, step).asked
    ensures Off(Stepped(b, step), t, c) == Off(b, t, c) + MissedAt(b, step, t, c)
  {
    match step {
      case Do(Commit(u)) => OffAtCommit(b, u, t, c);
      case Query(u) =>
        if t !in b.asked {
          OffAtFirst(b, t, c);
        }
      case _ =>
    }
  }

  lemma {:induction false} MissedByOneMore(states: seq<Books>, steps: seq<Step>, k: nat, t: P.TxnId, c: nat)
    requires IsRun(states, steps) && 0 < k <= |steps|
    ensures states[k] == Stepped(states[k - 1], steps[k - 1]) && CanStep(states[k - 1], steps[k - 1])
    ensures MissedBy(states, steps, k, t, c)
         == if t in states[k].asked then MissedBy(states, steps, k - 1, t, c) + MissedAt(states[k - 1], steps[k - 1], t, c) else 0
  {
  }

  lemma {:induction false} OffMoves(before: Books, step: Step, after: Books, t: P.TxnId, c: nat)
    requires BooksOk(before) && CanStep(before, step) && after == Stepped(before, step)
    ensures Off(after, t, c) == if t in after.asked then Off(before, t, c) + MissedAt(before, step, t, c) else 0
  {
    if t in after.asked {
      StepMovesOff(before, step, t, c);
    }
  }

  lemma {:induction false} OffOneMore(states: seq<Books>, steps: seq<Step>, k: nat, t: P.TxnId, c: nat, missed: int)
    requires IsRun(states, steps) && 0 < k <= |steps| && missed == MissedBy(states, steps, k - 1, t, c)
    requires Off(states[k - 1], t, c) == missed
    ensures Off(states[k], t, c) == MissedBy(states, steps, k, t, c)
  {
    RunsAreOk(states, steps, k - 1);
    MissedByOneMore(states, steps, k, t, c);
    OffMoves(states[k - 1], steps[k - 1], states[k], t, c);
  }

  lemma {:induction false} OffIsMissed(states: seq<Books>, steps: seq<Step>, k: nat, t: P.TxnId, c: nat)
    requires IsRun(states, steps) && k <= |steps|
    ensures Off(states[k], t, c) == MissedBy(states, steps, k, t, c)
    decreases k
  {
    if k > 0 {
      OffIsMissed(states, steps, k - 1, t, c);
      OffOneMore(states, steps, k, t, c, MissedBy(states, steps, k - 1, t, c));
    }
  }

  /** A commit of `t` moves its customer's balance, and no other's. */
  lemma {:induction false} CommitMoves(b: Books, t: P.TxnId, c: nat)
    requires BooksOk(b) && CanStep(b, Do(P.Commit(t)))
    ensures Balance(Stepped(b, Do(P.Commit(t))).s.ledger, c)
         == Balance(b.s.ledger, c) + (if CustomerOf(b.s, t) == c then Move(b.s.active[t].request, b.s.active[t].seen) else 0)
  {
    CommittedStands(b.s, t);
    BalanceMoves(b.s.ledger, b.s.active[t].request, b.s.active[t].seen, c);
  }

  lemma {:induction false} FigureIsEstimate(b: Books, t: P.TxnId)
    requires BooksOk(b) && CanStep(b, Do(P.Commit(t)))
    ensures t in b.asked
    ensures var txn, c := b.s.active[t], CustomerOf(b.s, t);
            FigureOf(b.asked[t], txn.request, txn.seen, c)
            == Estimate(b.asked[t], b.s.ledger, c) + Move(txn.request, txn.seen)
  {
    assert AskedOk(b, t);
    FigureMoves(b.asked[t], b.s.active[t].request, b.s.active[t].seen, b.s.ledger);
  }

  /** A commit of `t` stores its customer's balance, but for what its queries missed, and touches no other customer's. */
  lemma {:induction false} CommitStores(b: Books, t: P.TxnId, c: nat)
    requires BooksOk(b) && CanStep(b, Do(P.Commit(t)))
    ensures var b' := Stepped(b, Do(P.Commit(t)));
            if CustomerOf(b.s, t) == c
            then StoredOf(b', c) == Balance(b'.s.ledger, c) - Off(b, t, c)
            else StoredOf(b', c) == StoredOf(b, c) && Balance(b'.s.ledger, c) == Balance(b.s.ledger, c)
  {
    CommitMoves(b, t, c);
    FigureIsEstimate(b, t);
  }

  /**
   * In every run, a committed write leaves its customer's stored balance right if
   * and only if what the commits since its first query moved in the queries asked
   * before them comes to nothing; else it is off by just that, which is also what
   * the four queries would come to now less what they came to then.
   */
  lemma {:induction false} StoredIff(states: seq<Books>, steps: seq<Step>, k: nat, t: P.TxnId)
    requires IsRun(states, steps) && k < |steps| && steps[k] == Do(P.Commit(t))
    ensures Decides(states[k].s, t) && t in states[k].asked && |states[k].asked[t]| == 4
    ensures var c := CustomerOf(states[k].s, t);
            var missed := MissedBy(states, steps, k, t, c);
            && (IsCurrent(states[k + 1], c) <==> missed == 0)
            && StoredOf(states[k + 1], c) == Balance(states[k + 1].s.ledger, c) - missed
    ensures var c, now, asked := CustomerOf(states[k].s, t), states[k].s.ledger, states[k].asked[t];
            MissedBy(states, steps, k, t, c)
            == Invoiced(now, now, c) - Invoiced(asked[0], asked[1], c) - (OnAccount(now, now, c) - OnAccount(asked[2], asked[3], c))
  {
    var c := CustomerOf(states[k].s, t);
    RunsAreOk(states, steps, k);
    OffIsMissed(states, steps, k, t, c);
    CommitStores(states[k], t, c);
    ReachableIsValid(states[k].s.history);
    BalanceIsQueried(states[k].s.ledger, c);
  }

  /**
   * An allocation of a live payment leaves the balance where it was, and still is
   * missed, if it commits after the second query and before the fourth: the
   * invoice is read as unpaid and the payment as spent.
   */
  lemma {:induction false} AllocationIsMissedIff(asked: seq<Ledger>, ledger: Ledger, c: nat, p: nat, i: nat, amount: int, seen: P.Seen)
    requires |asked| <= 4 && amount > 0
    requires P.Decide(DoAllocate(p, i, amount), seen).Some? && Whose(DoAllocate(p, i, amount), seen) == c
    requires !seen[P.Pay(p)].reversed
    requires |asked| > 0 ==> i in OpenInvoices(asked[0], c)
    requires |asked| > 2 ==> p in LivePayments(asked[2], c)
    ensures Move(DoAllocate(p, i, amount), seen) == 0
    ensures Missed(asked, ledger, c, DoAllocate(p, i, amount), seen) == if 2 <= |asked| <= 3 then -amount else 0
  {
    var row := Allocation(p, i, amount);
    assert NewRows(DoAllocate(p, i, amount), seen, |ledger.payments|) == [row];
    if |asked| == 1 {
      RowSumOne(row, (r: Allocation) => r.invoice !in OpenInvoices(asked[0], c));
    } else if |asked| == 3 {
      RowSumOne(row, (r: Allocation) => r.payment in LivePayments(asked[2], c));
    }
  }

  // ----- until the next write, and after it -----

  /** Step `k` commits a write for customer `c`. */
  predicate CommitsFor(states: seq<Books>, steps: seq<Step>, k: nat, c: nat)
    requires k < |states| && k < |steps|
  {
    match steps[k]
    case Do(Commit(t)) => Decides(states[k].s, t) && CustomerOf(states[k].s, t) == c
    case _ => false
  }

  lemma {:induction false} Undisturbed(states: seq<Books>, steps: seq<Step>, k: nat, c: nat)
    requires IsRun(states, steps) && k < |steps| && !CommitsFor(states, steps, k, c)
    ensures Balance(states[k + 1].s.ledger, c) == Balance(states[k].s.ledger, c)
    ensures StoredOf(states[k + 1], c) == StoredOf(states[k], c)
  {
    RunsAreOk(states, steps, k);
    match steps[k] {
      case Do(Commit(t)) => CommitStores(states[k], t, c);
      case _ =>
    }
  }

  /** A stored balance stays as right as it is until the next write for its customer commits. */
  lemma {:induction false} StaysUntilTheNextWrite(states: seq<Books>, steps: seq<Step>, j: nat, k: nat, c: nat)
    requires IsRun(states, steps) && j <= k <= |steps|
    requires forall i :: j <= i < k ==> !CommitsFor(states, steps, i, c)
    ensures Balance(states[k].s.ledger, c) == Balance(states[j].s.ledger, c) && StoredOf(states[k], c) == StoredOf(states[j], c)
    ensures IsCurrent(states[j], c) <==> IsCurrent(states[k], c)
    decreases k - j
  {
    if j < k {
      StaysUntilTheNextWrite(states, steps, j, k - 1, c);
      Undisturbed(states, steps, k - 1, c);
    }
  }

  lemma {:induction false} NothingMissed(states: seq<Books>, steps: seq<Step>, j: nat, k: nat, t: P.TxnId, c: nat)
    requires IsRun(states, steps) && j <= k <= |steps| && t !in states[j].asked
    requires forall i :: j <= i < k ==> !CommitsFor(states, steps, i, c)
    ensures MissedBy(states, steps, k, t, c) == 0
    decreases k - j
  {
    if j < k && t in states[k].asked {
      var step := steps[k - 1];
      NothingMissed(states, steps, j, k - 1, t, c);
      assert !CommitsFor(states, steps, k - 1, c);
    }
  }

  /**
   * It heals: a write that no other write for its customer commits during, from
   * its first query to its own commit, leaves the stored balance right, however
   * stale it was.
   */
  lemma {:induction false} HealsOnTheNextWrite(states: seq<Books>, steps: seq<Step>, j: nat, k: nat, t: P.TxnId)
    requires IsRun(states, steps) && j < k < |steps|
    requires steps[j] == Query(t) && t !in states[j].asked && steps[k] == Do(P.Commit(t))
    requires Decides(states[k].s, t)
    requires forall i :: j <= i < k ==> !CommitsFor(states, steps, i, CustomerOf(states[k].s, t))
    ensures IsCurrent(states[k + 1], CustomerOf(states[k].s, t))
  {
    NothingMissed(states, steps, j, k, t, CustomerOf(states[k].s, t));
    StoredIff(states, steps, k, t);
  }

  // ----- runs that leave it stale -----

  /** One more step of a run. */
  lemma {:induction false} Extended(states: seq<Books>, steps: seq<Step>, step: Step)
    returns (states': seq<Books>, steps': seq<Step>, b: Books)
    requires IsRun(states, steps) && CanStep(states[|steps|], step)
    ensures steps' == steps + [step] && states' == states + [b] && b == Stepped(states[|steps|], step)
    ensures IsRun(states', steps') && states'[|steps'|] == b
  {
    b := Stepped(states[|steps|], step);
    states', steps' := states + [b], steps + [step];
    forall k | 0 <= k < |steps'|
      ensures CanStep(states'[k], steps'[k]) && states'[k + 1] == Stepped(states'[k], steps'[k])
    {
      if k < |steps| {
        assert steps'[k] == steps[k];
      }
    }
  }

  /** `n` more queries of `t`, with nothing in between. */
  lemma {:induction false} Queried(states: seq<Books>, steps: seq<Step>, t: P.TxnId, n: nat)
    returns (states': seq<Books>, steps': seq<Step>, b: Books)
    requires IsRun(states, steps) && Decides(states[|steps|].s, t) && n > 0 && |AskedBy(states[|steps|], t)| + n <= 4
    ensures IsRun(states', steps') && states'[|steps'|] == b
    ensures var a := states[|steps|]; b == a.(asked := a.asked[t := AskedBy(a, t) + Times(a.s.ledger, n)])
    decreases n
  {
    var a := states[|steps|];
    if n == 1 {
      states', steps', b := Extended(states, steps, Query(t));
      assert Times(a.s.ledger, 1) == [a.s.ledger];
    } else {
      states', steps', b := Queried(states, steps, t, n - 1);
      states', steps', b := Extended(states', steps', Query(t));
      assert AskedBy(a, t) + Times(a.s.ledger, n) == AskedBy(a, t) + Times(a.s.ledger, n - 1) + [a.s.ledger];
    }
  }

  /** No transaction is under way. */
  predicate AtRest(b: Books) {
    b.s.active == map[] && b.s.locks == map[] && b.asked == map[]
  }

  lemma {:induction false} BothBegun(states: seq<Books>, steps: seq<Step>, first: Command, second: Command)
    returns (states': seq<Books>, steps': seq<Step>, b: Books)
    requires IsRun(states, steps) && AtRest(states[|steps|]) && IsRequest(first) && IsRequest(second)
    ensures IsRun(states', steps') && states'[|steps'|] == b
    ensures var a := states[|steps|];
            b == a.(s := a.s.(active := map[0 := P.Txn(first, map[]), 1 := P.Txn(second, map[])]))
  {
    states', steps', b := Extended(states, steps, Do(P.Begin(0, first)));
    states', steps', b := Extended(states', steps', Do(P.Begin(1, second)));
    assert b.s.active == map[0 := P.Txn(first, map[]), 1 := P.Txn(second, map[])];
  }

  lemma {:induction false} EstimateAtOnce(asked: seq<Ledger>, ledger: Ledger, c: nat)
    requires Valid(ledger) && forall k :: 0 <= k < |asked| ==> asked[k] == ledger
    ensures Estimate(asked, ledger, c) == Balance(ledger, c)
  {
    BalanceIsQueried(ledger, c);
  }

  /** Queries that have all seen the rows committed now are not off. */
  lemma {:induction false} NotOff(b: Books, t: P.TxnId, c: nat)
    requires BooksOk(b) && t in b.asked && forall k :: 0 <= k < |b.asked[t]| ==> b.asked[t][k] == b.s.ledger
    ensures Off(b, t, c) == 0
  {
    ReachableIsValid(b.s.history);
    EstimateAtOnce(b.asked[t], b.s.ledger, c);
  }

  lemma {:induction false} OffByCommit(b: Books, t: P.TxnId, u: P.TxnId, c: nat)
    requires BooksOk(b) && t != u && CanStep(b, Do(P.Commit(t))) && u in b.asked
    requires forall k :: 0 <= k < |b.asked[u]| ==> b.asked[u][k] == b.s.ledger
    ensures Off(Stepped(b, Do(P.Commit(t))), u, c)
         == Missed(b.asked[u], b.s.ledger, c, b.s.active[t].request, b.s.active[t].seen)
  {
    NotOff(b, u, c);
    OffAtCommit(b, t, u, c);
  }

  /** What a commit moves is missed by one that has asked everything. */
  lemma {:induction false} LostOnceAsked(b: Books, t: P.TxnId, u: P.TxnId, c: nat)
    requires BooksOk(b) && t != u && CanStep(b, Do(P.Commit(t))) && Decides(b.s, u)
    requires u in b.asked && |b.asked[u]| == 4 && forall k :: 0 <= k < 4 ==> b.asked[u][k] == b.s.ledger
    requires CustomerOf(b.s, t) == c
    ensures CanStep(Stepped(b, Do(P.Commit(t))), Do(P.Commit(u)))
    ensures Off(Stepped(b, Do(P.Commit(t))), u, c) == Move(b.s.active[t].request, b.s.active[t].seen)
  {
    OffByCommit(b, t, u, c);
  }

  /**
   * A payment and an invoice of one customer lock nothing in common: with both
   * figures computed before either commits, the payment is lost from the balance.
   */
  lemma {:induction false} StaleRun(states: seq<Books>, steps: seq<Step>, c: nat, amount: int, total: int, day: int, dueOn: Option<int>)
    returns (states': seq<Books>, steps': seq<Step>, b: Books)
    requires IsRun(states, steps) && AtRest(states[|steps|]) && amount > 0 && total >= 0
    ensures IsRun(states', steps') && states'[|steps'|] == b
    ensures StoredOf(b, c) == Balance(b.s.ledger, c) + amount
    ensures Balance(b.s.ledger, c) == Balance(states[|steps|].s.ledger, c) - amount + total
  {
    states', steps', b := BothBegun(states, steps, DoRecord(c, amount, day, []), DoIssue(c, total, day, dueOn));
    states', steps', b := Queried(states', steps', 0, 4);
    states', steps', b := Queried(states', steps', 1, 4);
    RunsAreOk(states', steps', |steps'|);
    LostOnceAsked(b, 0, 1, c);
    CommitMoves(b, 0, c);
    states', steps', b := Extended(states', steps', Do(P.Commit(0)));
    RunsAreOk(states', steps', |steps'|);
    CommitStores(b, 1, c);
    CommitMoves(b, 1, c);
    states', steps', b := Extended(states', steps', Do(P.Commit(1)));
  }

  // ----- a torn figure -----

  lemma {:induction false} LockedAndRead(states: seq<Books>, steps: seq<Step>, t: P.TxnId, r: P.Resource)
    returns (states': seq<Books>, steps': seq<Step>, b: Books)
    requires IsRun(states, steps)
    requires var a := states[|steps|]; t in a.s.active && t !in a.asked && r !in a.s.locks
    ensures IsRun(states', steps') && states'[|steps'|] == b
    ensures var a := states[|steps|];
            var txn := a.s.active[t];
            b == a.(s := a.s.(locks := a.s.locks[r := t],
                              active := a.s.active[t := txn.(seen := txn.seen[r := P.ViewOf(a.s.ledger, r)])]))
  {
    states', steps', b := Extended(states, steps, Do(P.Lock(t, r)));
    states', steps', b := Extended(states', steps', Do(P.Read(t, r)));
  }

  lemma {:induction false} AllocateGoesAhead(ledger: Ledger, p: nat, i: nat, amount: int)
    requires Allocate(ledger, p, i, amount).Ok?
    ensures P.Decide(DoAllocate(p, i, amount), P.SeenWithoutLocks(ledger, p, i)).Some?
  {
    P.RowsOfAreTheRows(ledger.allocations, p, i);
  }

  /** An invoice for `c` with two queries asked, beside an allocation of `c`'s with all four. */
  lemma {:induction false} HalfAsked(
    states: seq<Books>, steps: seq<Step>, p: nat, i: nat, amount: int, c: nat, total: int, day: int, dueOn: Option<int>)
    returns (states': seq<Books>, steps': seq<Step>, b: Books)
    requires IsRun(states, steps) && AtRest(states[|steps|]) && amount > 0 && total >= 0
    requires Allocate(states[|steps|].s.ledger, p, i, amount).Ok?
    ensures IsRun(states', steps') && states'[|steps'|] == b
    ensures var ledger := states[|steps|].s.ledger;
            && b.s.ledger == ledger
            && b.s.active == map[0 := P.Txn(DoIssue(c, total, day, dueOn), map[]),
                                 1 := P.Txn(DoAllocate(p, i, amount), P.SeenWithoutLocks(ledger, p, i))]
            && b.asked == map[0 := Times(ledger, 2), 1 := Times(ledger, 4)]
  {
    var ledger := states[|steps|].s.ledger;
    var bill, allocate := DoIssue(c, total, day, dueOn), DoAllocate(p, i, amount);
    states', steps', b := BothBegun(states, steps, bill, allocate);
    states', steps', b := LockedAndRead(states', steps', 1, P.Pay(p));
    states', steps', b := LockedAndRead(states', steps', 1, P.Inv(i));
    assert b.s.active[1].seen == P.SeenWithoutLocks(ledger, p, i);
    AllocateGoesAhead(ledger, p, i, amount);
    states', steps', b := Queried(states', steps', 0, 2);
    states', steps', b := Queried(states', steps', 1, 4);
    assert b.s.active == map[0 := P.Txn(bill, map[]), 1 := P.Txn(allocate, P.SeenWithoutLocks(ledger, p, i))];
    assert [] + Times(ledger, 2) == Times(ledger, 2) && [] + Times(ledger, 4) == Times(ledger, 4);
    assert b.asked == map[0 := Times(ledger, 2), 1 := Times(ledger, 4)];
  }

  lemma {:induction false} TornByAllocation(b: Books, p: nat, i: nat, amount: int, c: nat)
    requires BooksOk(b) && CanStep(b, Do(P.Commit(1))) && b.s.active[1].request == DoAllocate(p, i, amount)
    requires 0 in b.asked && b.asked[0] == Times(b.s.ledger, 2) && CustomerOf(b.s, 1) == c
    ensures Off(Stepped(b, Do(P.Commit(1))), 0, c) == -amount
  {
    OffByCommit(b, 1, 0, c);
  }

  /**
   * From any rows at rest that let a payment be allocated: an invoice for the same
   * customer that has asked two queries when the allocation commits, and two after
   * it, stores the balance too high by the whole amount allocated.
   */
  lemma {:induction false} TornRun(
    states: seq<Books>, steps: seq<Step>, p: nat, i: nat, amount: int, total: int, day: int, dueOn: Option<int>)
    returns (states': seq<Books>, steps': seq<Step>, b: Books)
    requires IsRun(states, steps) && AtRest(states[|steps|]) && amount > 0 && total >= 0
    requires Allocate(states[|steps|].s.ledger, p, i, amount).Ok?
    ensures IsRun(states', steps') && states'[|steps'|] == b
    ensures var c := states[|steps|].s.ledger.payments[p].customer;
            StoredOf(b, c) == Balance(b.s.ledger, c) + amount
  {
    var ledger := states[|steps|].s.ledger;
    var c := ledger.payments[p].customer;
    states', steps', b := HalfAsked(states, steps, p, i, amount, c, total, day, dueOn);
    RunsAreOk(states', steps', |steps'|);
    AllocateGoesAhead(ledger, p, i, amount);
    TornByAllocation(b, p, i, amount, c);
    states', steps', b := Extended(states', steps', Do(P.Commit(1)));
    states', steps', b := Queried(states', steps', 0, 2);
    RunsAreOk(states', steps', |steps'|);
    CommitStores(b, 0, c);
    states', steps', b := Extended(states', steps', Do(P.Commit(0)));
  }

  /** A request that locks nothing, with nothing beside it. */
  lemma {:induction false} Alone(states: seq<Books>, steps: seq<Step>, request: Command)
    returns (states': seq<Books>, steps': seq<Step>, b: Books)
    requires IsRun(states, steps) && AtRest(states[|steps|]) && IsRequest(request) && P.Decide(request, map[]).Some?
    ensures IsRun(states', steps') && states'[|steps'|] == b
    ensures AtRest(b) && b.s.ledger == Written(states[|steps|].s.ledger, request, map[])
  {
    states', steps', b := Extended(states, steps, Do(P.Begin(0, request)));
    states', steps', b := Queried(states', steps', 0, 4);
    states', steps', b := Extended(states', steps', Do(P.Commit(0)));
  }

  /** An invoice, and a payment of as much on account. */
  function OnAccountLedger(c: nat, amount: int, day: int, dueOn: Option<int>): Ledger {
    Ledger([Invoice(c, amount, 0, Issued, day, None, dueOn)], [Payment(c, amount, day, None)], [])
  }

  lemma {:induction false} CanAllocate(c: nat, amount: int, day: int, dueOn: Option<int>)
    requires amount > 0
    ensures Allocate(OnAccountLedger(c, amount, day, dueOn), 0, 0, amount).Ok?
  {
  }

  /** Such a run from the empty books: an invoice, a payment of as much on account, and its allocation while another invoice is issued. */
  lemma {:induction false} TornFromNothing(c: nat, amount: int, total: int, day: int, dueOn: Option<int>)
    returns (states: seq<Books>, steps: seq<Step>, b: Books)
    requires amount > 0 && total >= 0
    ensures IsRun(states, steps) && states[|steps|] == b
    ensures StoredOf(b, c) == Balance(b.s.ledger, c) + amount
  {
    states, steps := [START], [];
    states, steps, b := Alone(states, steps, DoIssue(c, amount, day, dueOn));
    assert b.s.ledger == Ledger(OnAccountLedger(c, amount, day, dueOn).invoices, [], []);
    states, steps, b := Alone(states, steps, DoRecord(c, amount, day, []));
    assert b.s.ledger == OnAccountLedger(c, amount, day, dueOn);
    CanAllocate(c, amount, day, dueOn);
    states, steps, b := TornRun(states, steps, 0, 0, amount, total, day, dueOn);
  }
}
