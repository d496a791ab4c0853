/**
 * The two insert-only ledgers corrected by reversal rows: bank lines
 * (src/modules/banks/bank-transactions.repository.ts) and expenses
 * (src/modules/expenses/expenses.repository.ts), sequentially and as their
 * transactions interleave under the advisory lock on the original row. The
 * reads under that lock, of the row and of its mirror, are one step: rows never
 * change, and a mirror is only added under the same lock.
 */
module ReversalLedgers {
  import opened Wrappers
  import opened Sums

  /** Rows never change; an id is a position. `linked` says a payment or expense is set on the bank line. */
  datatype Row =
    | BankLine(account: nat, amount: int, linked: bool, reversalOf: Option<nat>)
    | Expense(net: int, vat: int, gross: int, wht: int, reversalOf: Option<nat>)

  type Rows = seq<Row>

  datatype Request = ReverseBankLine(account: nat, id: nat) | ReverseExpense(id: nat)

  datatype LedgerError = NotFound | IsAReversal | IsLinked | AlreadyReversed

  /** The row that cancels `row`: every amount negated, and never linked. */
  function Mirror(row: Row, id: nat): Row {
    match row
    case BankLine(account, amount, _, _) => BankLine(account, -amount, false, Some(id))
    case Expense(net, vat, gross, wht, _) => Expense(-net, -vat, -gross, -wht, Some(id))
  }

  predicate IsReversed(rows: Rows, id: nat) {
    exists q :: 0 <= q < |rows| && rows[q].reversalOf == Some(id)
  }

  predicate Names(rows: Rows, request: Request) {
    && request.id < |rows|
    && match request
       case ReverseBankLine(account, id) => rows[id].BankLine? && rows[id].account == account
       case ReverseExpense(id) => rows[id].Expense?
  }

  /** The guards in the source's order, and the row to insert. */
  function Guarded(rows: Rows, request: Request): Result<Row, LedgerError> {
    if !Names(rows, request) then Err(NotFound)
    else
      var original := rows[request.id];
      if original.reversalOf.Some? then Err(IsAReversal)
      else if original.BankLine? && original.linked then Err(IsLinked)
      else if IsReversed(rows, request.id) then Err(AlreadyReversed)
      else Ok(Mirror(original, request.id))
  }

  /** What `record` inserts: no reversal, and an expense whose legs add up. */
  predicate IsRecordable(row: Row) {
    row.reversalOf.None? && (row.Expense? ==> row.net + row.vat == row.gross)
  }

  class Ledger {
    var rows: Rows

    constructor ()
      ensures rows == []
    {
      rows := [];
    }

    method Record(row: Row)
      requires IsRecordable(row)
      modifies this
      ensures rows == old(rows) + [row]
    {
      rows := rows + [row];
    }

    /** `reverse`: the row it points at stays as it is. */
    method Reverse(request: Request) returns (error: Option<LedgerError>)
      modifies this
      ensures var guarded := Guarded(old(rows), request);
              if guarded.Ok? then error == None && rows == old(rows) + [guarded.value]
              else error == Some(guarded.error) && rows == old(rows)
    {
      if !Names(rows, request) {
        return Some(NotFound);
      }
      var original := rows[request.id];
      if original.reversalOf.Some? {
        return Some(IsAReversal);
      }
      if original.BankLine? && original.linked {
        return Some(IsLinked);
      }
      var q, found := 0, false;
      while q < |rows| && !found
        invariant 0 <= q <= |rows| && rows == old(rows)
        invariant found <==> exists k :: 0 <= k < q && rows[k].reversalOf == Some(request.id)
      {
        found := rows[q].reversalOf == Some(request.id);
        q := q + 1;
      }
      if found {
        return Some(AlreadyReversed);
      }
      rows := rows + [Mirror(original, request.id)];
      return None;
    }
  }

  // ----- interleavings -----

  type TxnId = nat

  /** A reversing transaction: `passed` is the row its guards let it insert. */
  datatype Txn = Txn(request: Request, passed: Option<Row>)

  datatype System = System(rows: Rows, holder: map<nat, TxnId>, open: map<TxnId, Txn>)

  datatype Action =
    | Insert(row: Row)
    | Begin(t: TxnId, request: Request)
    | Lock(t: TxnId)
    | Check(t: TxnId)
    | Commit(t: TxnId)
    | Abort(t: TxnId)

  const START := System([], map[], map[])

  predicate Holds(s: System, t: TxnId) {
    t in s.open && s.open[t].request.id in s.holder && s.holder[s.open[t].request.id] == t
  }

  predicate Enabled(s: System, a: Action) {
    match a
    case Insert(row) => IsRecordable(row)
    case Begin(t, _) => t !in s.open
    case Lock(t) => t in s.open && s.open[t].request.id !in s.holder
    case Check(t) => Holds(s, t)
    case Commit(t) => Holds(s, t) && s.open[t].passed.Some?
    case Abort(t) => t in s.open
  }

  function Released(holder: map<nat, TxnId>, t: TxnId): map<nat, TxnId> {
    map id | id in holder && holder[id] != t :: holder[id]
  }

  function Next(s: System, a: Action): System
    requires Enabled(s, a)
  {
    match a
    case Insert(row) => s.(rows := s.rows + [row])
    case Begin(t, request) => s.(open := s.open[t := Txn(request, None)])
    case Lock(t) => s.(holder := s.holder[s.open[t].request.id := t])
    case Check(t) =>
      var guarded := Guarded(s.rows, s.open[t].request);
      s.(open := s.open[t := s.open[t].(passed := if guarded.Ok? then Some(guarded.value) else None)])
    case Commit(t) => System(s.rows + [s.open[t].passed.value], Released(s.holder, t), s.open - {t})
    case Abort(t) => s.(holder := Released(s.holder, t), open := s.open - {t})
  }

  /** Every mirror cancels an unlinked row before it that is no mirror itself, and no row has two. */
  ghost predicate RowsOk(rows: Rows) {
    && (forall q :: 0 <= q < |rows| && rows[q].reversalOf.Some? ==>
          var p := rows[q].reversalOf.value;
          p < q && rows[p].reversalOf.None? && rows[q] == Mirror(rows[p], p) && (rows[p].BankLine? ==> !rows[p].linked))
    && (forall q, r :: 0 <= q < r < |rows| && rows[q].reversalOf.Some? ==> rows[q].reversalOf != rows[r].reversalOf)
    && (forall q :: 0 <= q < |rows| && rows[q].Expense? ==> rows[q].net + rows[q].vat == rows[q].gross)
  }

  ghost predicate Inv(s: System) {
    && RowsOk(s.rows)
    && (forall t :: t in s.open && s.open[t].passed.Some? ==>
          Holds(s, t) && Guarded(s.rows, s.open[t].request) == Ok(s.open[t].passed.value))
  }

  lemma {:induction false} MirrorKeepsRows(rows: Rows, request: Request)
    requires RowsOk(rows) && Guarded(rows, request).Ok?
    ensures RowsOk(rows + [Guarded(rows, request).value])
  {
  }

  /** A row pointing elsewhere leaves a guard that passed passing. */
  lemma {:induction false} StillPasses(rows: Rows, row: Row, request: Request)
    requires Guarded(rows, request).Ok? && row.reversalOf != Some(request.id)
    ensures Guarded(rows + [row], request) == Guarded(rows, request)
  {
  }

  lemma {:induction false} StepKeeps(s: System, a: Action)
    requires Inv(s) && Enabled(s, a)
    ensures Inv(Next(s, a))
  {
    var s' := Next(s, a);
    match a {
      case Insert(row) =>
        forall t | t in s.open && s.open[t].passed.Some?
          ensures Guarded(s'.rows, s.open[t].request) == Ok(s.open[t].passed.value)
        {
          StillPasses(s.rows, row, s.open[t].request);
        }
      case Commit(t) =>
        var request := s.open[t].request;
        MirrorKeepsRows(s.rows, request);
        forall u | u in s'.open && s'.open[u].passed.Some?
          ensures Holds(s', u) && Guarded(s'.rows, s'.open[u].request) == Ok(s'.open[u].passed.value)
        {
          assert s.holder[s.open[u].request.id] == u;
          StillPasses(s.rows, s.open[t].passed.value, s.open[u].request);
        }
      case _ =>
    }
  }

  ghost predicate IsRun(states: seq<System>, actions: seq<Action>) {
    && |states| == |actions| + 1 && states[0] == START
    && forall k :: 0 <= k < |actions| ==> Enabled(states[k], actions[k]) && states[k + 1] == Next(states[k], actions[k])
  }

  /**
   * In every interleaving each row has at most one mirror, no mirror is
   * reversed, no reversed bank line is linked, and the legs of every expense
   * row, mirrors included, add up.
   */
  lemma {:induction false} RunsKeepRows(states: seq<System>, actions: seq<Action>)
    requires IsRun(states, actions)
    ensures Inv(states[|actions|]) && RowsOk(states[|actions|].rows)
    decreases |actions|
  {
    if actions != [] {
      var n := |actions| - 1;
      assert IsRun(states[..n + 1], actions[..n]);
      RunsKeepRows(states[..n + 1], actions[..n]);
      StepKeeps(states[n], actions[n]);
    }
  }

  /** A reversal on its own passes its guards exactly as told, and then adds its row. */
  lemma {:induction false} OneGoesThrough(s: System, t: TxnId, request: Request)
    requires t !in s.open && request.id !in s.holder && forall id :: id in s.holder ==> s.holder[id] != t
    ensures Enabled(s, Begin(t, request)) && Enabled(Next(s, Begin(t, request)), Lock(t))
    ensures var locked := Next(Next(s, Begin(t, request)), Lock(t));
            && Enabled(locked, Check(t))
            && (Enabled(Next(locked, Check(t)), Commit(t)) <==> Guarded(s.rows, request).Ok?)
            && (Guarded(s.rows, request).Ok? ==>
                  Next(Next(locked, Check(t)), Commit(t)) == s.(rows := s.rows + [Guarded(s.rows, request).value]))
            && Enabled(locked, Abort(t)) && Next(locked, Abort(t)) == s
  {
    var locked := Next(Next(s, Begin(t, request)), Lock(t));
    assert Released(locked.holder, t) == s.holder;
    assert locked.open - {t} == s.open;
    var checked := Next(locked, Check(t));
    assert checked.open - {t} == s.open;
  }

  // ----- the totals -----

  /** What a report adds up: one account's balance, or one money column of the expenses. */
  datatype Measure = Balance(account: nat) | Net | Vat | Gross | Wht

  function Part(row: Row, m: Measure): int {
    match (row, m)
    case (BankLine(account, amount, _, _), Balance(a)) => if account == a then amount else 0
    case (Expense(net, _, _, _, _), Net) => net
    case (Expense(_, vat, _, _, _), Vat) => vat
    case (Expense(_, _, gross, _, _), Gross) => gross
    case (Expense(_, _, _, wht, _), Wht) => wht
    case _ => 0
  }

  /** A live row is neither a mirror nor mirrored. */
  predicate IsLive(rows: Rows, k: nat) {
    k < |rows| && rows[k].reversalOf.None? && !IsReversed(rows, k)
  }

  function AllTerm(rows: Rows, m: Measure): nat -> int {
    (k: nat) => if k < |rows| then Part(rows[k], m) else 0
  }

  function LiveTerm(rows: Rows, m: Measure): nat -> int {
    (k: nat) => if IsLive(rows, k) then Part(rows[k], m) else 0
  }

  function AllTotal(rows: Rows, m: Measure): int {
    Sum(|rows|, AllTerm(rows, m))
  }

  function LiveTotal(rows: Rows, m: Measure): int {
    Sum(|rows|, LiveTerm(rows, m))
  }

  lemma {:induction false} LiveAfter(rows: Rows, row: Row, k: nat)
    requires k < |rows|
    ensures IsLive(rows + [row], k) <==> IsLive(rows, k) && row.reversalOf != Some(k)
  {
    var more := rows + [row];
    if IsReversed(rows, k) {
      var q :| 0 <= q < |rows| && rows[q].reversalOf == Some(k);
      assert more[q].reversalOf == Some(k);
    }
    if row.reversalOf == Some(k) {
      assert more[|rows|].reversalOf == Some(k);
    }
  }

  lemma {:induction false} PrefixIsOk(rows: Rows)
    requires RowsOk(rows) && rows != []
    ensures RowsOk(rows[..|rows| - 1])
  {
  }

  /** The last row changes both totals alike: it adds itself, or it cancels the row it mirrors. */
  lemma {:induction false} LastRowMovesBoth(rows: Rows, row: Row, m: Measure)
    requires RowsOk(rows + [row])
    ensures LiveTotal(rows + [row], m) - LiveTotal(rows, m) == Part(row, m)
  {
    var more, n := rows + [row], |rows|;
    var before, after := LiveTerm(rows, m), LiveTerm(more, m);
    forall k: nat | k < n ensures IsLive(more, k) <==> IsLive(rows, k) && row.reversalOf != Some(k) {
      LiveAfter(rows, row, k);
    }
    assert more[n] == row;
    if row.reversalOf.None? {
      assert !IsReversed(more, n);
      SumSame(n, before, after);
    } else {
      var p := row.reversalOf.value;
      assert more[p] == rows[p];
      assert !IsReversed(rows, p) by {
        forall q | 0 <= q < n ensures rows[q].reversalOf != Some(p) {
          assert more[q] == rows[q];
        }
      }
      SumChange(n, before, after, p);
      assert Part(row, m) == -Part(rows[p], m);
    }
  }

  /** Reversals cancel: every total over all rows is the total over the live ones. */
  lemma {:induction false} AllIsLive(rows: Rows, m: Measure)
    requires RowsOk(rows)
    ensures AllTotal(rows, m) == LiveTotal(rows, m)
  {
    if rows != [] {
      var front, last := rows[..|rows| - 1], rows[|rows| - 1];
      PrefixIsOk(rows);
      AllIsLive(front, m);
      assert rows == front + [last];
      LastRowMovesBoth(front, last, m);
      SumSame(|front|, AllTerm(front, m), AllTerm(rows, m));
    }
  }

  /** In every interleaving, then, balances and expense totals are those of the live rows. */
  lemma {:induction false} TotalsAreLive(states: seq<System>, actions: seq<Action>, m: Measure)
    requires IsRun(states, actions)
    ensures AllTotal(states[|actions|].rows, m) == LiveTotal(states[|actions|].rows, m)
  {
    RunsKeepRows(states, actions);
    AllIsLive(states[|actions|].rows, m);
  }

  /** Without the lock two guards pass from the same rows, and inserting both mirrors cancels one row twice. */
  lemma {:induction false} WithoutTheLock(rows: Rows, request: Request, m: Measure)
    requires RowsOk(rows) && Guarded(rows, request).Ok?
    ensures var twice := rows + [Guarded(rows, request).value] + [Guarded(rows, request).value];
            && !RowsOk(twice)
            && AllTotal(twice, m) == AllTotal(rows, m) - 2 * Part(rows[request.id], m)
  {
    var mirror, n := Guarded(rows, request).value, |rows|;
    var once, twice := rows + [mirror], rows + [mirror] + [mirror];
    assert twice[n].reversalOf == twice[n + 1].reversalOf;
    SumSame(n, AllTerm(rows, m), AllTerm(once, m));
    SumSame(n + 1, AllTerm(once, m), AllTerm(twice, m));
    assert Part(mirror, m) == -Part(rows[request.id], m);
  }

  // ----- what is reversed, and by which row -----

  /** The first thing that stands in the way of a reversal, if any. */
  lemma {:induction false} RefusedFor(rows: Rows, request: Request)
    ensures var id := request.id;
            var guarded := Guarded(rows, request);
            if id >= |rows| || (if request.ReverseBankLine? then !rows[id].BankLine? || rows[id].account != request.account else !rows[id].Expense?)
            then guarded == Err(NotFound)
            else if rows[id].reversalOf != None then guarded == Err(IsAReversal)
            else if rows[id].BankLine? && rows[id].linked then guarded == Err(IsLinked)
            else if exists q :: 0 <= q < |rows| && rows[q].reversalOf == Some(id) then guarded == Err(AlreadyReversed)
            else guarded.Ok?
  {
  }

  /** The row added: of the same account or columns, every amount with the other sign, pointing at the original. */
  lemma {:induction false} ReversedBy(rows: Rows, request: Request)
    requires Guarded(rows, request).Ok?
    ensures var row, original := Guarded(rows, request).value, rows[request.id];
            && row.reversalOf == Some(request.id)
            && (original.BankLine? ==> row.BankLine? && row.account == original.account && row.amount == -original.amount && !row.linked)
            && (original.Expense? ==>
                  && row.Expense? && row.net == -original.net && row.vat == -original.vat
                  && row.gross == -original.gross && row.wht == -original.wht)
  {
  }

  /** What each total adds up. */
  lemma {:induction false} PartsAre(row: Row, account: nat)
    ensures Part(row, Balance(account)) == if row.BankLine? && row.account == account then row.amount else 0
    ensures row.Expense? ==> Part(row, Net) == row.net && Part(row, Vat) == row.vat && Part(row, Gross) == row.gross && Part(row, Wht) == row.wht
    ensures row.BankLine? ==> Part(row, Net) == Part(row, Vat) == Part(row, Gross) == Part(row, Wht) == 0
  {
  }
}
