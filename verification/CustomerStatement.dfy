/**
 * The customer statement: source rows from invoices and payments, sorted and
 * run through with a balance, and its agreement with the stored balance.
 */
module CustomerStatement {
  import opened Sums
  import opened Receivables
  import opened ReceivablesInvariant
  import opened CustomerBalance

  datatype Kind = InvoiceRow | PaymentRow | WithholdingRow

  datatype Source = Source(kind: Kind, date: int, id: nat, amount: int)

  datatype Line = Line(kind: Kind, date: int, id: nat, debit: int, credit: int, balance: int)

  datatype Statement = Statement(opening: int, closing: int, lines: seq<Line>)

  function KindRank(kind: Kind): nat {
    match kind
    case InvoiceRow => 0
    case PaymentRow => 1
    case WithholdingRow => 2
  }

  /** The sort's comparison: date, then kind, then id. */
  predicate Before(a: Source, b: Source) {
    if a.date != b.date then a.date < b.date
    else if a.kind != b.kind then KindRank(a.kind) < KindRank(b.kind)
    else a.id <= b.id
  }

  function Inserted(row: Source, rows: seq<Source>): seq<Source> {
    if rows == [] then [row]
    else if Before(row, rows[0]) then [row] + rows
    else [rows[0]] + Inserted(row, rows[1..])
  }

  function Sorted(rows: seq<Source>): seq<Source> {
    if rows == [] then [] else Inserted(rows[0], Sorted(rows[1..]))
  }

  predicate IsSorted(rows: seq<Source>) {
    forall j, k :: 0 <= j < k < |rows| ==> Before(rows[j], rows[k])
  }

  /** signedContribution: an invoice raises the balance, a payment or a withholding lowers it. */
  function Contribution(row: Source): int {
    if row.kind == InvoiceRow then row.amount else -row.amount
  }

  /** The contributions of the rows dated `lo` to `hi - 1`. */
  function Between(rows: seq<Source>, lo: int, hi: int): int {
    if rows == [] then 0
    else (if lo <= rows[0].date < hi then Contribution(rows[0]) else 0) + Between(rows[1..], lo, hi)
  }

  function UpTo(rows: seq<Source>, hi: int): int {
    if rows == [] then 0
    else (if rows[0].date < hi then Contribution(rows[0]) else 0) + UpTo(rows[1..], hi)
  }

  function LineFor(row: Source, balance: int): Line {
    var isDebit := row.kind == InvoiceRow || row.amount < 0;
    var magnitude := if row.amount < 0 then -row.amount else row.amount;
    Line(row.kind, row.date, row.id, if isDebit then magnitude else 0, if isDebit then 0 else magnitude, balance)
  }

  /** The lines of the rows in range, each with the balance after it. */
  function LinesFrom(rows: seq<Source>, lo: int, hi: int, balance: int): seq<Line> {
    if rows == [] then []
    else if lo <= rows[0].date < hi then
      var next := balance + Contribution(rows[0]);
      [LineFor(rows[0], next)] + LinesFrom(rows[1..], lo, hi, next)
    else LinesFrom(rows[1..], lo, hi, balance)
  }

  /** buildStatement for the days `from` to `to`, both included. */
  function StatementOf(from: int, to: int, rows: seq<Source>): Statement {
    var sorted := Sorted(rows);
    var opening := UpTo(sorted, from);
    Statement(opening, opening + Between(sorted, from, to + 1), LinesFrom(sorted, from, to + 1, opening))
  }

  /** The source's filters and loops over the sorted copy. */
  method BuildStatement(from: int, to: int, rows: seq<Source>) returns (s: Statement)
    ensures s == StatementOf(from, to, rows)
  {
    var sorted := Sorted(rows);
    var opening := 0;
    var i := 0;
    while i < |sorted|
      invariant 0 <= i <= |sorted|
      invariant UpTo(sorted, from) == opening + UpTo(sorted[i..], from)
    {
      assert sorted[i..][1..] == sorted[i + 1..];
      if sorted[i].date < from {
        opening := opening + Contribution(sorted[i]);
      }
      i := i + 1;
    }
    var balance := opening;
    var lines: seq<Line> := [];
    i := 0;
    while i < |sorted|
      invariant 0 <= i <= |sorted|
      invariant opening + Between(sorted, from, to + 1) == balance + Between(sorted[i..], from, to + 1)
      invariant LinesFrom(sorted, from, to + 1, opening) == lines + LinesFrom(sorted[i..], from, to + 1, balance)
    {
      assert sorted[i..][1..] == sorted[i + 1..];
      if from <= sorted[i].date <= to {
        balance := balance + Contribution(sorted[i]);
        lines := lines + [LineFor(sorted[i], balance)];
      }
      i := i + 1;
    }
    s := Statement(opening, balance, lines);
  }

  // ----- what sorting keeps -----

  lemma {:induction false} InsertedSums(row: Source, rows: seq<Source>, lo: int, hi: int)
    ensures UpTo(Inserted(row, rows), hi) == UpTo([row] + rows, hi)
    ensures Between(Inserted(row, rows), lo, hi) == Between([row] + rows, lo, hi)
  {
    if rows != [] && !Before(row, rows[0]) {
      InsertedSums(row, rows[1..], lo, hi);
      assert ([rows[0]] + Inserted(row, rows[1..]))[1..] == Inserted(row, rows[1..]);
      assert ([row] + rows[1..])[1..] == rows[1..] && ([row] + rows)[1..] == rows;
    } else if rows != [] {
      assert Inserted(row, rows) == [row] + rows;
    } else {
      assert [row] + rows == [row];
    }
  }

  lemma {:induction false} SortedSums(rows: seq<Source>, lo: int, hi: int)
    ensures UpTo(Sorted(rows), hi) == UpTo(rows, hi)
    ensures Between(Sorted(rows), lo, hi) == Between(rows, lo, hi)
  {
    if rows != [] {
      SortedSums(rows[1..], lo, hi);
      InsertedSums(rows[0], Sorted(rows[1..]), lo, hi);
      assert ([rows[0]] + Sorted(rows[1..]))[1..] == Sorted(rows[1..]);
    }
  }

  lemma {:induction false} InsertedRows(row: Source, rows: seq<Source>)
    ensures multiset(Inserted(row, rows)) == multiset(rows) + multiset{row}
  {
    if rows != [] {
      assert rows == [rows[0]] + rows[1..];
      if !Before(row, rows[0]) {
        InsertedRows(row, rows[1..]);
      }
    }
  }

  lemma {:induction false} InsertedIsAfter(first: Source, row: Source, rows: seq<Source>)
    requires Before(first, row) && forall k :: 0 <= k < |rows| ==> Before(first, rows[k])
    ensures forall k :: 0 <= k < |Inserted(row, rows)| ==> Before(first, Inserted(row, rows)[k])
  {
    if rows != [] && !Before(row, rows[0]) {
      InsertedIsAfter(first, row, rows[1..]);
    }
  }

  lemma {:induction false} SortedFrom(first: Source, tail: seq<Source>)
    requires IsSorted(tail) && forall k :: 0 <= k < |tail| ==> Before(first, tail[k])
    ensures IsSorted([first] + tail)
  {
  }

  lemma {:induction false} InsertedIsSorted(row: Source, rows: seq<Source>)
    requires IsSorted(rows)
    ensures IsSorted(Inserted(row, rows))
  {
    if rows != [] && !Before(row, rows[0]) {
      assert Before(rows[0], row);
      InsertedIsSorted(row, rows[1..]);
      InsertedIsAfter(rows[0], row, rows[1..]);
      SortedFrom(rows[0], Inserted(row, rows[1..]));
    }
  }

  /** The statement's lines come in order, and none is lost or added. */
  lemma {:induction false} SortedIsSorted(rows: seq<Source>)
    ensures IsSorted(Sorted(rows)) && multiset(Sorted(rows)) == multiset(rows)
  {
    if rows != [] {
      SortedIsSorted(rows[1..]);
      InsertedIsSorted(rows[0], Sorted(rows[1..]));
      InsertedRows(rows[0], Sorted(rows[1..]));
      assert rows == [rows[0]] + rows[1..];
    }
  }

  lemma {:induction false} UpToSplits(rows: seq<Source>, lo: int, hi: int)
    requires lo <= hi
    ensures UpTo(rows, lo) + Between(rows, lo, hi) == UpTo(rows, hi)
  {
    if rows != [] {
      UpToSplits(rows[1..], lo, hi);
    }
  }

  /** The closing balance is everything dated up to the last day, whatever the order of the rows. */
  lemma {:induction false} ClosingIsUpTo(from: int, to: int, rows: seq<Source>)
    requires from <= to + 1
    ensures StatementOf(from, to, rows).closing == UpTo(rows, to + 1)
    ensures StatementOf(from, to, rows).opening == UpTo(rows, from)
  {
    SortedSums(rows, from, from);
    SortedSums(rows, from, to + 1);
    UpToSplits(Sorted(rows), from, to + 1);
  }

  /** Adjacent periods chain: one closes where the next opens. */
  lemma {:induction false} PeriodsChain(from: int, to: int, to': int, rows: seq<Source>)
    requires from <= to + 1
    ensures StatementOf(from, to, rows).closing == StatementOf(to + 1, to', rows).opening
  {
    ClosingIsUpTo(from, to, rows);
    SortedSums(rows, to + 1, to + 1);
  }

  function Debits(lines: seq<Line>): int {
    if lines == [] then 0 else lines[0].debit + Debits(lines[1..])
  }

  function Credits(lines: seq<Line>): int {
    if lines == [] then 0 else lines[0].credit + Credits(lines[1..])
  }

  /** The lines take a balance to another: by their columns, and by the figure on the last of them. */
  predicate LeadTo(lines: seq<Line>, opening: int, closing: int) {
    && opening + Debits(lines) - Credits(lines) == closing
    && closing == if lines == [] then opening else lines[|lines| - 1].balance
  }

  lemma {:induction false} OneMoreLine(line: Line, tail: seq<Line>, opening: int, closing: int)
    requires line.balance == opening + line.debit - line.credit && LeadTo(tail, line.balance, closing)
    ensures LeadTo([line] + tail, opening, closing)
  {
    assert ([line] + tail)[1..] == tail;
  }

  lemma {:induction false} LinesBalance(rows: seq<Source>, lo: int, hi: int, balance: int)
    requires forall k :: 0 <= k < |rows| && rows[k].kind == InvoiceRow ==> rows[k].amount >= 0
    ensures LeadTo(LinesFrom(rows, lo, hi, balance), balance, balance + Between(rows, lo, hi))
  {
    if rows != [] {
      if lo <= rows[0].date < hi {
        var next := balance + Contribution(rows[0]);
        LinesBalance(rows[1..], lo, hi, next);
        OneMoreLine(LineFor(rows[0], next), LinesFrom(rows[1..], lo, hi, next), balance, balance + Between(rows, lo, hi));
      } else {
        LinesBalance(rows[1..], lo, hi, balance);
      }
    }
  }

  /** Both columns carry magnitudes. */
  lemma {:induction false} ColumnsAreMagnitudes(rows: seq<Source>, lo: int, hi: int, balance: int)
    ensures var lines := LinesFrom(rows, lo, hi, balance);
            forall line <- lines :: line.debit >= 0 && line.credit >= 0
  {
    if rows != [] {
      var next := if lo <= rows[0].date < hi then balance + Contribution(rows[0]) else balance;
      ColumnsAreMagnitudes(rows[1..], lo, hi, next);
    }
  }

  /** The columns add up: opening + debits − credits is closing, which is the last line's balance. */
  lemma {:induction false} ColumnsAddUp(from: int, to: int, rows: seq<Source>)
    requires forall k :: 0 <= k < |rows| && rows[k].kind == InvoiceRow ==> rows[k].amount >= 0
    ensures var s := StatementOf(from, to, rows);
            && s.closing == s.opening + Debits(s.lines) - Credits(s.lines)
            && s.closing == (if s.lines == [] then s.opening else s.lines[|s.lines| - 1].balance)
            && forall line <- s.lines :: line.debit >= 0 && line.credit >= 0
  {
    SortedIsSorted(rows);
    var sorted := Sorted(rows);
    forall k | 0 <= k < |sorted| && sorted[k].kind == InvoiceRow
      ensures sorted[k].amount >= 0
    {
      assert sorted[k] in multiset(sorted);
      assert sorted[k] in rows;
    }
    LinesBalance(sorted, from, to + 1, UpTo(sorted, from));
    ColumnsAreMagnitudes(sorted, from, to + 1, UpTo(sorted, from));
  }

  // ----- the lines are the rows -----

  /** A line says of its row what it is, in the column it belongs in, and the balance it leaves. */
  predicate LineSays(line: Line, row: Source, before: int) {
    && line.kind == row.kind && line.date == row.date && line.id == row.id
    && (if row.kind == InvoiceRow || row.amount < 0
        then line.debit == (if row.amount < 0 then -row.amount else row.amount) && line.credit == 0
        else line.debit == 0 && line.credit == row.amount)
    && line.balance == before + (if row.kind == InvoiceRow then row.amount else -row.amount)
  }

  predicate NthSays(lines: seq<Line>, rows: seq<Source>, opening: int, k: nat)
    requires k < |lines| == |rows|
  {
    LineSays(lines[k], rows[k], if k == 0 then opening else lines[k - 1].balance)
  }

  predicate LinesSay(lines: seq<Line>, rows: seq<Source>, opening: int) {
    |lines| == |rows| && forall k :: 0 <= k < |lines| ==> NthSays(lines, rows, opening, k)
  }

  /** The rows dated from `lo` to `hi - 1`. */
  function DatedIn(rows: seq<Source>, lo: int, hi: int): seq<Source> {
    if rows == [] then []
    else (if lo <= rows[0].date < hi then [rows[0]] else []) + DatedIn(rows[1..], lo, hi)
  }

  lemma {:induction false} DatedInAre(rows: seq<Source>, lo: int, hi: int, row: Source)
    ensures multiset(DatedIn(rows, lo, hi))[row] == if lo <= row.date < hi then multiset(rows)[row] else 0
  {
    if rows != [] {
      DatedInAre(rows[1..], lo, hi, row);
      assert rows == [rows[0]] + rows[1..];
    }
  }

  lemma {:induction false} DatedInIsAfter(first: Source, rows: seq<Source>, lo: int, hi: int)
    requires forall k :: 0 <= k < |rows| ==> Before(first, rows[k])
    ensures forall k :: 0 <= k < |DatedIn(rows, lo, hi)| ==> Before(first, DatedIn(rows, lo, hi)[k])
  {
    if rows != [] {
      DatedInIsAfter(first, rows[1..], lo, hi);
    }
  }

  lemma {:induction false} DatedInIsSorted(rows: seq<Source>, lo: int, hi: int)
    requires IsSorted(rows)
    ensures IsSorted(DatedIn(rows, lo, hi))
  {
    if rows != [] {
      var rest := rows[1..];
      assert forall k :: 0 <= k < |rest| ==> rest[k] == rows[k + 1];
      DatedInIsSorted(rest, lo, hi);
      DatedInIsAfter(rows[0], rest, lo, hi);
      SortedFrom(rows[0], DatedIn(rest, lo, hi));
      assert [] + DatedIn(rest, lo, hi) == DatedIn(rest, lo, hi);
    }
  }

  lemma {:induction false} LineForSays(row: Source, opening: int)
    ensures LineSays(LineFor(row, opening + Contribution(row)), row, opening)
  {
  }

  lemma {:induction false} OneMoreSays(line: Line, row: Source, lines: seq<Line>, rows: seq<Source>, opening: int)
    requires LineSays(line, row, opening) && LinesSay(lines, rows, line.balance)
    ensures LinesSay([line] + lines, [row] + rows, opening)
  {
    var all := [line] + lines;
    forall k | 0 <= k < |all|
      ensures NthSays(all, [row] + rows, opening, k)
    {
      assert k > 0 ==> NthSays(lines, rows, line.balance, k - 1);
    }
  }

  lemma {:induction false} LinesFromSay(rows: seq<Source>, lo: int, hi: int, balance: int)
    ensures LinesSay(LinesFrom(rows, lo, hi, balance), DatedIn(rows, lo, hi), balance)
  {
    if rows != [] {
      var row, rest := rows[0], rows[1..];
      if lo <= row.date < hi {
        var next := balance + Contribution(row);
        LinesFromSay(rest, lo, hi, next);
        LineForSays(row, balance);
        OneMoreSays(LineFor(row, next), row, LinesFrom(rest, lo, hi, next), DatedIn(rest, lo, hi), balance);
      } else {
        LinesFromSay(rest, lo, hi, balance);
        assert [] + DatedIn(rest, lo, hi) == DatedIn(rest, lo, hi);
      }
    }
  }

  lemma {:induction false} SortedDatedIn(rows: seq<Source>, lo: int, hi: int)
    ensures forall row: Source :: multiset(DatedIn(Sorted(rows), lo, hi))[row] == if lo <= row.date < hi then multiset(rows)[row] else 0
    ensures IsSorted(DatedIn(Sorted(rows), lo, hi))
  {
    SortedIsSorted(rows);
    forall row: Source
      ensures multiset(DatedIn(Sorted(rows), lo, hi))[row] == if lo <= row.date < hi then multiset(rows)[row] else 0
    {
      DatedInAre(Sorted(rows), lo, hi, row);
    }
    DatedInIsSorted(Sorted(rows), lo, hi);
  }

  /** By date; on one date invoices, then payments, then withholdings; and of one kind by id. */
  predicate IsInOrder(a: Line, b: Line) {
    a.date < b.date
    || (a.date == b.date
        && (a.kind == b.kind ==> a.id <= b.id)
        && (b.kind == InvoiceRow ==> a.kind == InvoiceRow)
        && (b.kind == PaymentRow ==> a.kind != WithholdingRow))
  }

  lemma {:induction false} LinesAreInOrder(lines: seq<Line>, rows: seq<Source>, opening: int, j: nat, k: nat)
    requires LinesSay(lines, rows, opening) && IsSorted(rows) && j < k < |lines|
    ensures IsInOrder(lines[j], lines[k])
  {
    assert NthSays(lines, rows, opening, j) && NthSays(lines, rows, opening, k);
  }

  /**
   * A statement's lines are the rows dated from `from` to `to`, one for one and
   * in order: each says its own row's kind, date, id and amount, and the balance
   * the rows up to it leave.
   */
  lemma {:induction false} LinesAreTheRows(from: int, to: int, rows: seq<Source>) returns (picked: seq<Source>)
    ensures forall row: Source :: multiset(picked)[row] == if from <= row.date <= to then multiset(rows)[row] else 0
    ensures IsSorted(picked)
    ensures LinesSay(StatementOf(from, to, rows).lines, picked, StatementOf(from, to, rows).opening)
    ensures var lines := StatementOf(from, to, rows).lines;
            forall j, k :: 0 <= j < k < |lines| ==> IsInOrder(lines[j], lines[k])
  {
    picked := DatedIn(Sorted(rows), from, to + 1);
    SortedDatedIn(rows, from, to + 1);
    LinesFromSay(Sorted(rows), from, to + 1, UpTo(Sorted(rows), from));
    var Statement(opening, _, lines) := StatementOf(from, to, rows);
    forall j, k | 0 <= j < k < |lines|
      ensures IsInOrder(lines[j], lines[k])
    {
      LinesAreInOrder(lines, picked, opening, j, k);
    }
  }

  // ----- the rows of one customer -----

  function InvoiceRows(ledger: Ledger, c: nat, n: nat): seq<Source>
    requires n <= |ledger.invoices|
  {
    if n == 0 then []
    else
      var invoice := ledger.invoices[n - 1];
      InvoiceRows(ledger, c, n - 1)
      + (if invoice.customer == c && invoice.status != Void
         then [Source(InvoiceRow, invoice.issuedOn, n - 1, invoice.total)] else [])
  }

  function WithholdingRows(ledger: Ledger, c: nat, n: nat): seq<Source>
    requires n <= |ledger.invoices|
  {
    if n == 0 then []
    else
      var invoice := ledger.invoices[n - 1];
      var date := if invoice.whtOn.Some? then invoice.whtOn.value else invoice.issuedOn;
      WithholdingRows(ledger, c, n - 1)
      + (if invoice.customer == c && invoice.status != Void && invoice.wht > 0
         then [Source(WithholdingRow, date, n - 1, invoice.wht)] else [])
  }

  function PaymentRows(ledger: Ledger, c: nat, n: nat): seq<Source>
    requires n <= |ledger.payments|
  {
    if n == 0 then []
    else
      var payment := ledger.payments[n - 1];
      PaymentRows(ledger, c, n - 1)
      + (if payment.customer == c then [Source(PaymentRow, payment.receivedOn, n - 1, payment.amount)] else [])
  }

  function SourceRows(ledger: Ledger, c: nat): seq<Source> {
    InvoiceRows(ledger, c, |ledger.invoices|)
    + WithholdingRows(ledger, c, |ledger.invoices|)
    + PaymentRows(ledger, c, |ledger.payments|)
  }

  /** What a statement is about: the customer's invoices and payments, and what was withheld, each on its own date. */
  lemma {:induction false} SourceRowsAre(ledger: Ledger, c: nat, row: Source)
    ensures row in SourceRows(ledger, c) <==>
            if row.kind == PaymentRow then
              && row.id < |ledger.payments| && ledger.payments[row.id].customer == c
              && row.date == ledger.payments[row.id].receivedOn && row.amount == ledger.payments[row.id].amount
            else
              && row.id < |ledger.invoices|
              && var invoice := ledger.invoices[row.id];
                 && invoice.customer == c && invoice.status != Void
                 && if row.kind == InvoiceRow then row.date == invoice.issuedOn && row.amount == invoice.total
                    else row.amount == invoice.wht > 0 && row.date == (if invoice.whtOn.Some? then invoice.whtOn.value else invoice.issuedOn)
  {
    InvoiceRowsAre(ledger, c, |ledger.invoices|, row);
    WithholdingRowsAre(ledger, c, |ledger.invoices|, row);
    PaymentRowsAre(ledger, c, |ledger.payments|, row);
  }

  lemma {:induction false} InvoiceRowsAre(ledger: Ledger, c: nat, n: nat, row: Source)
    requires n <= |ledger.invoices|
    ensures row in InvoiceRows(ledger, c, n) <==>
              && row.kind == InvoiceRow && row.id < n && ledger.invoices[row.id].customer == c && ledger.invoices[row.id].status != Void
              && row.date == ledger.invoices[row.id].issuedOn && row.amount == ledger.invoices[row.id].total
  {
    if n > 0 {
      InvoiceRowsAre(ledger, c, n - 1, row);
    }
  }

  lemma {:induction false} WithholdingRowsAre(ledger: Ledger, c: nat, n: nat, row: Source)
    requires n <= |ledger.invoices|
    ensures row in WithholdingRows(ledger, c, n) <==>
              && row.kind == WithholdingRow && row.id < n
              && var invoice := ledger.invoices[row.id];
                 && invoice.customer == c && invoice.status != Void && row.amount == invoice.wht > 0
                 && row.date == (if invoice.whtOn.Some? then invoice.whtOn.value else invoice.issuedOn)
  {
    if n > 0 {
      WithholdingRowsAre(ledger, c, n - 1, row);
    }
  }

  lemma {:induction false} PaymentRowsAre(ledger: Ledger, c: nat, n: nat, row: Source)
    requires n <= |ledger.payments|
    ensures row in PaymentRows(ledger, c, n) <==>
              && row.kind == PaymentRow && row.id < n && ledger.payments[row.id].customer == c
              && row.date == ledger.payments[row.id].receivedOn && row.amount == ledger.payments[row.id].amount
  {
    if n > 0 {
      PaymentRowsAre(ledger, c, n - 1, row);
    }
  }

  // ----- the statement against the balance -----

  lemma {:induction false} UpToConcat(a: seq<Source>, b: seq<Source>, hi: int)
    ensures UpTo(a + b, hi) == UpTo(a, hi) + UpTo(b, hi)
  {
    if a == [] {
      assert a + b == b;
    } else {
      assert (a + b)[1..] == a[1..] + b;
      UpToConcat(a[1..], b, hi);
    }
  }

  lemma {:induction false} UpToOne(row: Source, hi: int)
    requires row.date < hi
    ensures UpTo([row], hi) == Contribution(row)
  {
    assert [row][1..] == [];
  }

  function Billed(ledger: Ledger, c: nat, i: nat): int {
    if i < |ledger.invoices| && ledger.invoices[i].customer == c && ledger.invoices[i].status != Void
    then ledger.invoices[i].total - ledger.invoices[i].wht else 0
  }

  function Received(ledger: Ledger, c: nat, p: nat): int {
    if p < |ledger.payments| && ledger.payments[p].customer == c then ledger.payments[p].amount else 0
  }

  lemma {:induction false} WithholdingsAreKept(ledger: Ledger)
    requires Valid(ledger)
    ensures forall k :: 0 <= k < |ledger.invoices| ==> ledger.invoices[k].wht >= 0
  {
    forall k | 0 <= k < |ledger.invoices|
      ensures ledger.invoices[k].wht >= 0
    {
      assert InvoiceOk(ledger, k);
    }
  }

  /** The contributions of the first `n` invoices, dated before `hi`. */
  function InvoiceColumns(ledger: Ledger, c: nat, n: nat, hi: int): int {
    if n <= |ledger.invoices| then UpTo(InvoiceRows(ledger, c, n), hi) + UpTo(WithholdingRows(ledger, c, n), hi) else 0
  }

  lemma {:induction false} NoColumns(ledger: Ledger, c: nat, hi: int)
    ensures InvoiceColumns(ledger, c, 0, hi) == 0
  {
  }

  lemma {:induction false} OneInvoiceColumn(ledger: Ledger, c: nat, i: nat, hi: int)
    requires i < |ledger.invoices| && ledger.invoices[i].wht >= 0 && ledger.invoices[i].issuedOn < hi
    requires ledger.invoices[i].whtOn.Some? ==> ledger.invoices[i].whtOn.value < hi
    ensures InvoiceColumns(ledger, c, i + 1, hi) == InvoiceColumns(ledger, c, i, hi) + Billed(ledger, c, i)
  {
    InvoiceRowSums(ledger, c, i, hi);
    WithholdingRowSums(ledger, c, i, hi);
  }

  lemma {:induction false} InvoiceRowsSum(ledger: Ledger, c: nat, hi: int)
    requires forall k :: 0 <= k < |ledger.invoices| ==> ledger.invoices[k].wht >= 0 && ledger.invoices[k].issuedOn < hi
    requires forall k :: 0 <= k < |ledger.invoices| && ledger.invoices[k].whtOn.Some? ==> ledger.invoices[k].whtOn.value < hi
    ensures InvoiceColumns(ledger, c, |ledger.invoices|, hi) == Sum(|ledger.invoices|, (i: nat) => Billed(ledger, c, i))
  {
    var columns := (n: nat) => InvoiceColumns(ledger, c, n, hi);
    forall k: nat | k < |ledger.invoices|
      ensures columns(k + 1) == columns(k) + Billed(ledger, c, k)
    {
      OneInvoiceColumn(ledger, c, k, hi);
    }
    NoColumns(ledger, c, hi);
    Telescopes(|ledger.invoices|, columns, (i: nat) => Billed(ledger, c, i));
  }

  /** One invoice adds its total to the one column, if it is the customer's and not VOID. */
  lemma {:induction false} InvoiceRowSums(ledger: Ledger, c: nat, i: nat, hi: int)
    requires i < |ledger.invoices| && ledger.invoices[i].issuedOn < hi
    ensures var invoice := ledger.invoices[i];
            UpTo(InvoiceRows(ledger, c, i + 1), hi)
            == UpTo(InvoiceRows(ledger, c, i), hi)
               + (if invoice.customer == c && invoice.status != Void then invoice.total else 0)
  {
    var debit := Source(InvoiceRow, ledger.invoices[i].issuedOn, i, ledger.invoices[i].total);
    UpToConcat(InvoiceRows(ledger, c, i), [debit], hi);
    UpToOne(debit, hi);
    assert InvoiceRows(ledger, c, i) + [] == InvoiceRows(ledger, c, i);
  }

  /** And takes its withholding off the other. */
  lemma {:induction false} WithholdingRowSums(ledger: Ledger, c: nat, i: nat, hi: int)
    requires i < |ledger.invoices| && ledger.invoices[i].wht >= 0 && ledger.invoices[i].issuedOn < hi
    requires ledger.invoices[i].whtOn.Some? ==> ledger.invoices[i].whtOn.value < hi
    ensures var invoice := ledger.invoices[i];
            UpTo(WithholdingRows(ledger, c, i + 1), hi)
            == UpTo(WithholdingRows(ledger, c, i), hi)
               - (if invoice.customer == c && invoice.status != Void then invoice.wht else 0)
  {
    var invoice := ledger.invoices[i];
    var date := if invoice.whtOn.Some? then invoice.whtOn.value else invoice.issuedOn;
    var credit := Source(WithholdingRow, date, i, invoice.wht);
    UpToConcat(WithholdingRows(ledger, c, i), [credit], hi);
    UpToOne(credit, hi);
    assert WithholdingRows(ledger, c, i) + [] == WithholdingRows(ledger, c, i);
  }

  lemma {:induction false} PaymentRowsSum(ledger: Ledger, c: nat, n: nat, hi: int)
    requires n <= |ledger.payments|
    requires forall k :: 0 <= k < n ==> ledger.payments[k].receivedOn < hi
    ensures UpTo(PaymentRows(ledger, c, n), hi) == -Sum(n, (p: nat) => Received(ledger, c, p))
  {
    if n > 0 {
      PaymentRowsSum(ledger, c, n - 1, hi);
      var payment := ledger.payments[n - 1];
      var credit := Source(PaymentRow, payment.receivedOn, n - 1, payment.amount);
      UpToConcat(PaymentRows(ledger, c, n - 1), [credit], hi);
      UpToOne(credit, hi);
      assert PaymentRows(ledger, c, n - 1) + [] == PaymentRows(ledger, c, n - 1);
    }
  }

  // ----- the allocations of one customer, grouped both ways -----

  /** The rows of customer `c`, told by the invoice or by the payment alike. */
  function OfCustomer(ledger: Ledger, c: nat): Allocation -> bool {
    (row: Allocation) => row.invoice < |ledger.invoices| && ledger.invoices[row.invoice].customer == c
  }

  function InvoiceShare(ledger: Ledger, rows: seq<Allocation>, c: nat, i: nat): int {
    if i < |ledger.invoices| && ledger.invoices[i].customer == c then InvoiceSum(rows, i) else 0
  }

  function PaymentShare(ledger: Ledger, rows: seq<Allocation>, c: nat, p: nat): int {
    if p < |ledger.payments| && ledger.payments[p].customer == c then PaymentSum(rows, p) else 0
  }

  lemma {:induction false} GroupedByInvoice(ledger: Ledger, rows: seq<Allocation>, c: nat)
    requires forall k :: 0 <= k < |rows| ==> rows[k].invoice < |ledger.invoices|
    ensures RowSum(rows, OfCustomer(ledger, c)) == Sum(|ledger.invoices|, (i: nat) => InvoiceShare(ledger, rows, c, i))
  {
    var after := (i: nat) => InvoiceShare(ledger, rows, c, i);
    if rows == [] {
      SumZero(|ledger.invoices|, after);
    } else {
      var front, last := rows[..|rows| - 1], rows[|rows| - 1];
      var before := (i: nat) => InvoiceShare(ledger, front, c, i);
      GroupedByInvoice(ledger, front, c);
      SumChange(|ledger.invoices|, before, after, last.invoice);
    }
  }

  lemma {:induction false} GroupedByPayment(ledger: Ledger, rows: seq<Allocation>, c: nat)
    requires forall k :: 0 <= k < |rows| ==>
               && rows[k].payment < |ledger.payments| && rows[k].invoice < |ledger.invoices|
               && ledger.invoices[rows[k].invoice].customer == ledger.payments[rows[k].payment].customer
    ensures RowSum(rows, OfCustomer(ledger, c)) == Sum(|ledger.payments|, (p: nat) => PaymentShare(ledger, rows, c, p))
  {
    var after := (p: nat) => PaymentShare(ledger, rows, c, p);
    if rows == [] {
      SumZero(|ledger.payments|, after);
    } else {
      var front, last := rows[..|rows| - 1], rows[|rows| - 1];
      var before := (p: nat) => PaymentShare(ledger, front, c, p);
      GroupedByPayment(ledger, front, c);
      SumChange(|ledger.payments|, before, after, last.payment);
    }
  }

  /** What dead payments (reversed, or reversals) still have allocated to customer `c`'s invoices. */
  function Stranded(ledger: Ledger, c: nat, p: nat): int {
    if p < |ledger.payments| && ledger.payments[p].customer == c && !IsLive(ledger, p)
    then PaymentSum(ledger.allocations, p) else 0
  }

  function StrandedCash(ledger: Ledger, c: nat): int {
    Sum(|ledger.payments|, (p: nat) => Stranded(ledger, c, p))
  }

  /** Reversed pairs cancel, so all payments sum to the live ones. */
  lemma {:induction false} ReceivedIsLive(ledger: Ledger, c: nat)
    requires Valid(ledger)
    ensures Sum(|ledger.payments|, (p: nat) => Received(ledger, c, p))
         == Sum(|ledger.payments|, (p: nat) => if p < |ledger.payments| && IsLive(ledger, p) then Received(ledger, c, p) else 0)
  {
    var received := (p: nat) => Received(ledger, c, p);
    SumByPair(ledger.payments, received);
    SumSame(|ledger.payments|, PairTerms(ledger.payments, received),
            (p: nat) => if p < |ledger.payments| && IsLive(ledger, p) then Received(ledger, c, p) else 0);
  }

  lemma {:induction false} BalanceInTotals(ledger: Ledger, c: nat)
    requires Valid(ledger)
    ensures Balance(ledger, c)
         == Sum(|ledger.invoices|, (i: nat) => Billed(ledger, c, i))
            - Sum(|ledger.payments|, (p: nat) => Received(ledger, c, p))
            - StrandedCash(ledger, c)
  {
    var rows, n, m := ledger.allocations, |ledger.invoices|, |ledger.payments|;
    var outstanding, billed, share := (i: nat) => Outstanding(ledger, c, i), (i: nat) => Billed(ledger, c, i), (i: nat) => InvoiceShare(ledger, rows, c, i);
    forall i: nat | i < n
      ensures billed(i) == outstanding(i) + share(i)
    {
      assert InvoiceOk(ledger, i);
    }
    SumPlus(n, outstanding, share, billed);
    GroupedByInvoice(ledger, rows, c);
    GroupedByPayment(ledger, rows, c);
    var live := (p: nat) => if p < |ledger.payments| && IsLive(ledger, p) then Received(ledger, c, p) else 0;
    var unapplied, stranded, paid := (p: nat) => Unapplied(ledger, c, p), (p: nat) => Stranded(ledger, c, p), (p: nat) => PaymentShare(ledger, rows, c, p);
    var mixed := (p: nat) => unapplied(p) + paid(p);
    SumPlus(m, unapplied, paid, mixed);
    SumPlus(m, live, stranded, mixed);
    ReceivedIsLive(ledger, c);
  }

  predicate AllDatedBy(ledger: Ledger, to: int) {
    && (forall i :: 0 <= i < |ledger.invoices| ==> ledger.invoices[i].issuedOn <= to)
    && (forall i :: 0 <= i < |ledger.invoices| && ledger.invoices[i].whtOn.Some? ==> ledger.invoices[i].whtOn.value <= to)
    && (forall p :: 0 <= p < |ledger.payments| ==> ledger.payments[p].receivedOn <= to)
  }

  /**
   * The all-time statement closes above the recomputed balance by exactly the
   * cash that reversed payments still have allocated.
   */
  lemma {:induction false} StatementAgainstBalance(ledger: Ledger, c: nat, from: int, to: int)
    requires Valid(ledger) && AllDatedBy(ledger, to) && from <= to + 1
    ensures StatementOf(from, to, SourceRows(ledger, c)).closing == Balance(ledger, c) + StrandedCash(ledger, c)
  {
    var a, b, d := InvoiceRows(ledger, c, |ledger.invoices|), WithholdingRows(ledger, c, |ledger.invoices|), PaymentRows(ledger, c, |ledger.payments|);
    ClosingIsUpTo(from, to, SourceRows(ledger, c));
    UpToConcat(a + b, d, to + 1);
    UpToConcat(a, b, to + 1);
    WithholdingsAreKept(ledger);
    InvoiceRowsSum(ledger, c, to + 1);
    PaymentRowsSum(ledger, c, |ledger.payments|, to + 1);
    BalanceInTotals(ledger, c);
  }
}
