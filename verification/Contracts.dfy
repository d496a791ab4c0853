/**
 * The contract lifecycle and the payment schedule it carries:
 * src/modules/contracts/contracts.repository.ts, contract-instalments.repository.ts
 * and contract-handover.repository.ts, each transaction atomic.
 */
module Contracts {
  import opened Wrappers
  import opened Instalments

  datatype ContractStatus = Draft | Signed | Completed | Cancelled

  datatype InstalmentStatus = Pending | Invoiced

  datatype Instalment = Instalment(
    sequence: nat,
    caption: string,
    dueDate: Option<int>,
    amount: int,
    status: InstalmentStatus,
    invoice: Option<nat>)

  /** `clauses` stands for the negotiable text and terms a draft may edit. */
  datatype Contract = Contract(
    proforma: nat,
    customer: nat,
    value: int,
    clauses: string,
    status: ContractStatus,
    signedAt: Option<int>,
    handedOver: Option<int>,
    schedule: seq<Instalment>)

  /** What issuing reads off the proforma. */
  datatype Proforma = Proforma(issued: bool, customer: nat, total: int, terms: seq<PercentTerm>)

  /** The rows of other tables: proformas, and the customer each invoice bills. */
  datatype Office = Office(proformas: map<nat, Proforma>, invoiceCustomer: map<nat, nat>)

  datatype InstalmentInput = InstalmentInput(caption: string, dueDate: Option<int>, amount: int)

  datatype Command =
    | IssueFromProforma(proforma: nat)
    | UpdateDraft(id: nat, clauses: string)
    | Sign(id: nat, day: int)
    | Cancel(id: nat)
    | Handover(id: nat, day: int)
    | ReplaceSchedule(id: nat, lines: seq<InstalmentInput>)
    | MarkInvoiced(id: nat, at: nat, invoice: nat)

  datatype ContractError =
    | NotFound
    | NotIssued
    | AlreadyContracted
    | WrongStatus
    | DoesNotAddUp
    | OtherCustomer
    | LinkedElsewhere
    | NotPending

  type Book = seq<Contract>

  type Outcome = Result<Book, ContractError>

  function Rows(lines: seq<InstalmentInput>): (rows: seq<Instalment>)
    ensures |rows| == |lines|
  {
    seq(|lines|, k requires 0 <= k < |lines| =>
      Instalment(k + 1, lines[k].caption, lines[k].dueDate, lines[k].amount, Pending, None))
  }

  function Undated(lines: seq<ScheduleLine>): (inputs: seq<InstalmentInput>)
    ensures |inputs| == |lines|
  {
    seq(|lines|, k requires 0 <= k < |lines| => InstalmentInput(lines[k].caption, None, lines[k].amount))
  }

  function Lines(inputs: seq<InstalmentInput>): (lines: seq<ScheduleLine>)
    ensures |lines| == |inputs|
  {
    seq(|inputs|, k requires 0 <= k < |inputs| => ScheduleLine(inputs[k].caption, inputs[k].amount))
  }

  predicate HasContract(book: Book, proforma: nat) {
    exists k :: 0 <= k < |book| && book[k].proforma == proforma
  }

  function Issued(office: Office, book: Book, proforma: nat): Outcome {
    if proforma !in office.proformas then Err(NotFound)
    else
      var p := office.proformas[proforma];
      if !p.issued then Err(NotIssued)
      else if HasContract(book, proforma) then Err(AlreadyContracted)
      else
        var schedule := FromPercents(p.terms, p.total);
        var rows := if schedule.Some? then Rows(Undated(schedule.value)) else [];
        Ok(book + [Contract(proforma, p.customer, p.total, "", Draft, None, None, rows)])
  }

  /** A compare-and-swap on the status: changes the row, or says why no row matched. */
  function Swap(book: Book, id: nat, allowed: set<ContractStatus>, changed: Contract -> Contract): Outcome {
    if id >= |book| then Err(NotFound)
    else if book[id].status !in allowed then Err(WrongStatus)
    else Ok(book[id := changed(book[id])])
  }

  function Rescheduled(book: Book, id: nat, lines: seq<InstalmentInput>): Outcome {
    if id >= |book| then Err(NotFound)
    else if book[id].status != Draft then Err(WrongStatus)
    else if !MaySave(Lines(lines), book[id].value) then Err(DoesNotAddUp)
    else Ok(book[id := book[id].(schedule := Rows(lines))])
  }

  predicate LinksInvoice(book: Book, id: nat, at: nat, invoice: nat) {
    id < |book| && at < |book[id].schedule| && book[id].schedule[at].invoice == Some(invoice)
  }

  /** The invoice is on another instalment, of this contract or another. */
  predicate IsLinkedElsewhere(book: Book, id: nat, at: nat, invoice: nat) {
    exists i, k :: 0 <= i < |book| && 0 <= k < |book[i].schedule| && (i != id || k != at) && LinksInvoice(book, i, k, invoice)
  }

  function InvoicedAt(office: Office, book: Book, id: nat, at: nat, invoice: nat): Outcome {
    if id >= |book| || at >= |book[id].schedule| then Err(NotFound)
    else
      var c := book[id];
      if c.status != Signed && c.status != Completed then Err(WrongStatus)
      else if invoice !in office.invoiceCustomer then Err(NotFound)
      else if office.invoiceCustomer[invoice] != c.customer then Err(OtherCustomer)
      else if IsLinkedElsewhere(book, id, at, invoice) then Err(LinkedElsewhere)
      else if c.schedule[at].status != Pending then Err(NotPending)
      else
        var row := c.schedule[at].(status := Invoiced, invoice := Some(invoice));
        Ok(book[id := c.(schedule := c.schedule[at := row])])
  }

  function Execute(office: Office, book: Book, c: Command): Outcome {
    match c
    case IssueFromProforma(proforma) => Issued(office, book, proforma)
    case UpdateDraft(id, clauses) => Swap(book, id, {Draft}, (x: Contract) => x.(clauses := clauses))
    case Sign(id, day) => Swap(book, id, {Draft}, (x: Contract) => x.(status := Signed, signedAt := Some(day)))
    case Cancel(id) => Swap(book, id, {Draft, Signed}, (x: Contract) => x.(status := Cancelled))
    case Handover(id, day) => Swap(book, id, {Signed}, (x: Contract) => x.(status := Completed, handedOver := Some(day)))
    case ReplaceSchedule(id, lines) => Rescheduled(book, id, lines)
    case MarkInvoiced(id, at, invoice) => InvoicedAt(office, book, id, at, invoice)
  }

  function After(office: Office, book: Book, c: Command): Book {
    var r := Execute(office, book, c);
    if r.Ok? then r.value else book
  }

  function RunAll(office: Office, commands: seq<Command>): Book {
    if commands == [] then []
    else After(office, RunAll(office, commands[..|commands| - 1]), commands[|commands| - 1])
  }

  // ----- the repositories -----

  class ContractsRepository {
    var book: Book
    const office: Office

    constructor (office: Office)
      ensures book == [] && this.office == office
    {
      book := [];
      this.office := office;
    }

    method Issue(proforma: nat) returns (error: Option<ContractError>)
      modifies this
      ensures book == After(office, old(book), IssueFromProforma(proforma))
      ensures error == ErrorOf(Execute(office, old(book), IssueFromProforma(proforma)))
    {
      if proforma !in office.proformas {
        return Some(NotFound);
      }
      var p := office.proformas[proforma];
      if !p.issued {
        return Some(NotIssued);
      }
      if HasContract(book, proforma) {
        return Some(AlreadyContracted);
      }
      var row := Contract(proforma, p.customer, p.total, "", Draft, None, None, []);
      var schedule := InstalmentsFromPercents(p.terms, p.total);
      if schedule.Some? {
        row := row.(schedule := Rows(Undated(schedule.value)));
      }
      book := book + [row];
      return None;
    }

    method ReplaceTheSchedule(id: nat, lines: seq<InstalmentInput>) returns (error: Option<ContractError>)
      modifies this
      ensures book == After(office, old(book), ReplaceSchedule(id, lines))
      ensures error == ErrorOf(Execute(office, old(book), ReplaceSchedule(id, lines)))
    {
      if id >= |book| {
        return Some(NotFound);
      }
      if book[id].status != Draft {
        return Some(WrongStatus);
      }
      if |lines| != 0 {
        var total, k := 0, 0;
        while k < |lines|
          invariant 0 <= k <= |lines| && total == Total(Lines(lines)[..k])
        {
          assert Lines(lines)[..k + 1][..k] == Lines(lines)[..k];
          total := total + lines[k].amount;
          k := k + 1;
        }
        assert Lines(lines)[..|lines|] == Lines(lines);
        if total != book[id].value {
          return Some(DoesNotAddUp);
        }
      }
      book := book[id := book[id].(schedule := [])];
      book := book[id := book[id].(schedule := Rows(lines))];
      return None;
    }

    method RecordInvoiced(id: nat, at: nat, invoice: nat) returns (error: Option<ContractError>)
      modifies this
      ensures book == After(office, old(book), MarkInvoiced(id, at, invoice))
      ensures error == ErrorOf(Execute(office, old(book), MarkInvoiced(id, at, invoice)))
    {
      if id >= |book| || at >= |book[id].schedule| {
        return Some(NotFound);
      }
      var contract := book[id];
      if contract.status != Signed && contract.status != Completed {
        return Some(WrongStatus);
      }
      if invoice !in office.invoiceCustomer {
        return Some(NotFound);
      }
      if office.invoiceCustomer[invoice] != contract.customer {
        return Some(OtherCustomer);
      }
      if IsLinkedElsewhere(book, id, at, invoice) {
        return Some(LinkedElsewhere);
      }
      if contract.schedule[at].status != Pending {
        return Some(NotPending);
      }
      var row := contract.schedule[at].(status := Invoiced, invoice := Some(invoice));
      book := book[id := contract.(schedule := contract.schedule[at := row])];
      return None;
    }

    method EditDraft(id: nat, clauses: string) returns (error: Option<ContractError>)
      modifies this
      ensures book == After(office, old(book), UpdateDraft(id, clauses))
      ensures error == ErrorOf(Execute(office, old(book), UpdateDraft(id, clauses)))
    {
      if id < |book| && book[id].status == Draft {
        book := book[id := book[id].(clauses := clauses)];
        return None;
      }
      return Some(if id < |book| then WrongStatus else NotFound);
    }

    method SignContract(id: nat, day: int) returns (error: Option<ContractError>)
      modifies this
      ensures book == After(office, old(book), Sign(id, day))
      ensures error == ErrorOf(Execute(office, old(book), Sign(id, day)))
    {
      if id < |book| && book[id].status == Draft {
        book := book[id := book[id].(status := Signed, signedAt := Some(day))];
        return None;
      }
      return Some(if id < |book| then WrongStatus else NotFound);
    }

    method CancelContract(id: nat) returns (error: Option<ContractError>)
      modifies this
      ensures book == After(office, old(book), Cancel(id))
      ensures error == ErrorOf(Execute(office, old(book), Cancel(id)))
    {
      if id < |book| && (book[id].status == Draft || book[id].status == Signed) {
        book := book[id := book[id].(status := Cancelled)];
        return None;
      }
      return Some(if id < |book| then WrongStatus else NotFound);
    }

    method RecordHandover(id: nat, day: int) returns (error: Option<ContractError>)
      modifies this
      ensures book == After(office, old(book), Handover(id, day))
      ensures error == ErrorOf(Execute(office, old(book), Handover(id, day)))
    {
      if id < |book| && book[id].status == Signed {
        book := book[id := book[id].(status := Completed, handedOver := Some(day))];
        return None;
      }
      return Some(if id < |book| then WrongStatus else NotFound);
    }
  }

  // ----- what every run keeps -----

  function PlanOf(schedule: seq<Instalment>): (lines: seq<InstalmentInput>)
    ensures |lines| == |schedule|
  {
    seq(|schedule|, k requires 0 <= k < |schedule| =>
      InstalmentInput(schedule[k].caption, schedule[k].dueDate, schedule[k].amount))
  }

  predicate ContractOk(c: Contract) {
    && MaySave(Lines(PlanOf(c.schedule)), c.value)
    && (forall k :: 0 <= k < |c.schedule| ==>
          && c.schedule[k].sequence == k + 1
          && (c.schedule[k].status == Invoiced <==> c.schedule[k].invoice.Some?)
          && (c.status == Draft ==> c.schedule[k].status == Pending))
    && (c.status == Draft ==> c.signedAt.None?)
    && (c.status == Signed || c.status == Completed ==> c.signedAt.Some?)
    && (c.handedOver.Some? <==> c.status == Completed)
  }

  ghost predicate Valid(office: Office, book: Book) {
    && (forall i :: 0 <= i < |book| ==> ContractOk(book[i]))
    && (forall i, j :: 0 <= i < j < |book| ==> book[i].proforma != book[j].proforma)
    && LinksOk(office, book)
  }

  /** No invoice is on two instalments, and each bills its contract's customer. */
  ghost predicate LinksOk(office: Office, book: Book) {
    && (forall i: nat, k: nat, j: nat, l: nat, invoice: nat ::
          (LinksInvoice(book, i, k, invoice) && LinksInvoice(book, j, l, invoice)) ==> i == j && k == l)
    && (forall i: nat, k: nat, invoice: nat :: LinksInvoice(book, i, k, invoice) ==>
          invoice in office.invoiceCustomer && office.invoiceCustomer[invoice] == book[i].customer)
  }

  lemma {:induction false} NoNewLinks(office: Office, book: Book, after: Book)
    requires LinksOk(office, book) && |book| <= |after|
    requires forall i :: 0 <= i < |book| ==> after[i].customer == book[i].customer
    requires forall i: nat, k: nat, invoice: nat :: LinksInvoice(after, i, k, invoice) ==> LinksInvoice(book, i, k, invoice)
    ensures LinksOk(office, after)
  {
  }

  lemma {:induction false} RowsAreOk(c: Contract, lines: seq<InstalmentInput>)
    requires c.schedule == Rows(lines) && MaySave(Lines(lines), c.value)
    requires c.status == Draft && c.signedAt.None? && c.handedOver.None?
    ensures ContractOk(c)
  {
    assert PlanOf(c.schedule) == lines;
  }

  /** The schedule a new contract starts with: empty, or adding up to its value. */
  lemma {:induction false} IssuedScheduleSaves(terms: seq<PercentTerm>, value: int)
    ensures FromPercents(terms, value).Some? ==> MaySave(Lines(Undated(FromPercents(terms, value).value)), value)
  {
    var schedule := FromPercents(terms, value);
    if schedule.Some? {
      ScheduleAddsUp(terms, value, Largest(terms), 0);
      assert Lines(Undated(schedule.value)) == schedule.value;
    }
  }

  lemma {:induction false} IssueKeepsValid(office: Office, book: Book, proforma: nat)
    requires Valid(office, book) && Issued(office, book, proforma).Ok?
    ensures Valid(office, Issued(office, book, proforma).value)
  {
    var p, after := office.proformas[proforma], Issued(office, book, proforma).value;
    var c := after[|book|];
    IssuedScheduleSaves(p.terms, p.total);
    assert Rows([]) == [];
    RowsAreOk(c, if FromPercents(p.terms, p.total).Some? then Undated(FromPercents(p.terms, p.total).value) else []);
    assert forall k :: 0 <= k < |c.schedule| ==> c.schedule[k].invoice.None?;
    forall i: nat, k: nat, invoice: nat | LinksInvoice(after, i, k, invoice) ensures LinksInvoice(book, i, k, invoice) {
    }
    NoNewLinks(office, book, after);
  }

  lemma {:induction false} ReplaceKeepsValid(office: Office, book: Book, id: nat, lines: seq<InstalmentInput>)
    requires Valid(office, book) && Rescheduled(book, id, lines).Ok?
    ensures Valid(office, Rescheduled(book, id, lines).value)
  {
    var after := Rescheduled(book, id, lines).value;
    RowsAreOk(after[id], lines);
    assert forall k :: 0 <= k < |after[id].schedule| ==> after[id].schedule[k].invoice.None?;
    forall i: nat, k: nat, invoice: nat | LinksInvoice(after, i, k, invoice) ensures LinksInvoice(book, i, k, invoice) {
    }
    NoNewLinks(office, book, after);
  }

  lemma {:induction false} InvoicingKeepsValid(office: Office, book: Book, id: nat, at: nat, invoice: nat)
    requires Valid(office, book) && InvoicedAt(office, book, id, at, invoice).Ok?
    ensures Valid(office, InvoicedAt(office, book, id, at, invoice).value)
  {
    var c, after := book[id], InvoicedAt(office, book, id, at, invoice).value;
    var row := c.schedule[at].(status := Invoiced, invoice := Some(invoice));
    assert PlanOf(c.schedule[at := row]) == PlanOf(c.schedule);
    forall i: nat, k: nat, other: nat | LinksInvoice(after, i, k, other)
      ensures (i == id && k == at && other == invoice)
           || ((i != id || k != at) && LinksInvoice(book, i, k, other) && other != invoice)
    {
      if i != id || k != at {
        assert LinksInvoice(book, i, k, other);
      }
    }
  }

  lemma {:induction false} ChangedRowKeepsValid(office: Office, book: Book, id: nat, row: Contract)
    requires Valid(office, book) && id < |book| && ContractOk(row) && row.schedule == book[id].schedule
    requires row.proforma == book[id].proforma && row.customer == book[id].customer
    ensures Valid(office, book[id := row])
  {
    var after := book[id := row];
    forall i: nat, k: nat, invoice: nat | LinksInvoice(after, i, k, invoice) ensures LinksInvoice(book, i, k, invoice) {
    }
    NoNewLinks(office, book, after);
  }

  lemma {:induction false} SwapKeepsValid(office: Office, book: Book, c: Command)
    requires Valid(office, book) && Execute(office, book, c).Ok?
    requires c.UpdateDraft? || c.Sign? || c.Cancel? || c.Handover?
    ensures Valid(office, Execute(office, book, c).value)
  {
    var row := Execute(office, book, c).value[c.id];
    assert ContractOk(book[c.id]);
    ChangedRowKeepsValid(office, book, c.id, row);
  }

  lemma {:induction false} StepKeepsValid(office: Office, book: Book, c: Command)
    requires Valid(office, book)
    ensures Valid(office, After(office, book, c))
  {
    if Execute(office, book, c).Ok? {
      match c {
        case IssueFromProforma(proforma) => IssueKeepsValid(office, book, proforma);
        case ReplaceSchedule(id, lines) => ReplaceKeepsValid(office, book, id, lines);
        case MarkInvoiced(id, at, invoice) => InvoicingKeepsValid(office, book, id, at, invoice);
        case _ => SwapKeepsValid(office, book, c);
      }
    }
  }

  /**
   * In every run each schedule is empty or adds up to its contract's value with
   * sequence 1 to n, a DRAFT has nothing invoiced, and no invoice is on two
   * instalments or on a contract of another customer.
   */
  lemma {:induction false} RunsKeepSchedules(office: Office, commands: seq<Command>)
    ensures Valid(office, RunAll(office, commands))
  {
    if commands != [] {
      RunsKeepSchedules(office, commands[..|commands| - 1]);
      StepKeepsValid(office, RunAll(office, commands[..|commands| - 1]), commands[|commands| - 1]);
    }
  }

  // ----- what signing freezes -----

  /** Statuses only move forward: COMPLETED and CANCELLED are final. */
  predicate MayBecome(before: ContractStatus, after: ContractStatus) {
    before == after || before == Draft || (before == Signed && after != Draft)
  }

  /** What one later state may not have changed about a contract. */
  predicate Keeps(before: Contract, after: Contract) {
    && before.proforma == after.proforma && before.customer == after.customer && before.value == after.value
    && MayBecome(before.status, after.status)
    && (before.signedAt.Some? ==> after.signedAt == before.signedAt)
    && (before.handedOver.Some? ==> after.handedOver == before.handedOver)
    && (before.status != Draft ==> after.clauses == before.clauses && PlanOf(after.schedule) == PlanOf(before.schedule))
    && (forall k :: 0 <= k < |before.schedule| && before.schedule[k].invoice.Some? ==>
          k < |after.schedule| && after.schedule[k].invoice == before.schedule[k].invoice)
  }

  lemma {:induction false} StepKeepsContract(office: Office, book: Book, c: Command, id: nat)
    requires Valid(office, book) && id < |book|
    ensures id < |After(office, book, c)| && Keeps(book[id], After(office, book, c)[id])
  {
    if Execute(office, book, c).Ok? && c.MarkInvoiced? && c.id == id {
      var schedule := book[id].schedule;
      var row := schedule[c.at].(status := Invoiced, invoice := Some(c.invoice));
      assert PlanOf(schedule[c.at := row]) == PlanOf(schedule);
    }
  }

  /**
   * Once a contract is no longer a draft its wording, amounts and dates never
   * change again, whatever runs after; what was signed, handed over or invoiced
   * stays so.
   */
  lemma {:induction false} SignedIsFrozen(office: Office, before: seq<Command>, more: seq<Command>, id: nat)
    requires id < |RunAll(office, before)|
    ensures id < |RunAll(office, before + more)|
    ensures Keeps(RunAll(office, before)[id], RunAll(office, before + more)[id])
    decreases |more|
  {
    if more == [] {
      assert before + more == before;
    } else {
      var fewer := more[..|more| - 1];
      assert (before + more)[..|before + more| - 1] == before + fewer;
      SignedIsFrozen(office, before, fewer, id);
      RunsKeepSchedules(office, before + fewer);
      StepKeepsContract(office, RunAll(office, before + fewer), more[|more| - 1], id);
    }
  }

  /** A proforma contracted once is refused for good, even if that contract is cancelled. */
  lemma {:induction false} NoSecondContract(office: Office, before: seq<Command>, more: seq<Command>, id: nat)
    requires id < |RunAll(office, before)|
    ensures Issued(office, RunAll(office, before + more), RunAll(office, before)[id].proforma).Err?
  {
    SignedIsFrozen(office, before, more, id);
    assert HasContract(RunAll(office, before + more), RunAll(office, before)[id].proforma);
  }

  // ----- what is accepted, and what it changes -----

  /** Which requests go ahead, told from the rows alone. */
  lemma {:induction false} AcceptedIff(office: Office, book: Book, c: Command)
    ensures Execute(office, book, c).Ok? <==>
            match c
            case IssueFromProforma(proforma) =>
              && proforma in office.proformas && office.proformas[proforma].issued
              && forall k :: 0 <= k < |book| ==> book[k].proforma != proforma
            case UpdateDraft(id, _) => id < |book| && book[id].status == Draft
            case Sign(id, _) => id < |book| && book[id].status == Draft
            case Cancel(id) => id < |book| && (book[id].status == Draft || book[id].status == Signed)
            case Handover(id, _) => id < |book| && book[id].status == Signed
            case ReplaceSchedule(id, lines) =>
              id < |book| && book[id].status == Draft && (lines == [] || AmountSum(Lines(lines)) == book[id].value)
            case MarkInvoiced(id, at, invoice) =>
              && id < |book| && at < |book[id].schedule| && (book[id].status == Signed || book[id].status == Completed)
              && invoice in office.invoiceCustomer && office.invoiceCustomer[invoice] == book[id].customer
              && book[id].schedule[at].status == Pending
              && forall i: nat, k: nat :: i < |book| && k < |book[i].schedule| && (i != id || k != at) ==>
                   book[i].schedule[k].invoice != Some(invoice)
  {
    match c {
      case ReplaceSchedule(id, lines) => TotalsAreSums([], Lines(lines));
      case MarkInvoiced(id, at, invoice) =>
        if id < |book| && at < |book[id].schedule| {
          LinkedElsewhereIff(book, id, at, invoice);
        }
      case _ =>
    }
  }

  /** What a refusal says: the first thing in the way. */
  lemma {:induction false} RefusedAs(office: Office, book: Book, c: Command)
    requires Execute(office, book, c).Err?
    ensures var error := Execute(office, book, c).error;
            match c
            case IssueFromProforma(proforma) =>
              error == if proforma !in office.proformas then NotFound
                       else if !office.proformas[proforma].issued then NotIssued
                       else AlreadyContracted
            case ReplaceSchedule(id, _) =>
              error == if id >= |book| then NotFound else if book[id].status != Draft then WrongStatus else DoesNotAddUp
            case MarkInvoiced(id, at, invoice) =>
              error == if id >= |book| || at >= |book[id].schedule| then NotFound
                       else if book[id].status == Draft || book[id].status == Cancelled then WrongStatus
                       else if invoice !in office.invoiceCustomer then NotFound
                       else if office.invoiceCustomer[invoice] != book[id].customer then OtherCustomer
                       else if forall i: nat, k: nat :: i < |book| && k < |book[i].schedule| && (i != id || k != at) ==>
                                 book[i].schedule[k].invoice != Some(invoice)
                            then NotPending
                       else LinkedElsewhere
            case _ => error == if c.id >= |book| then NotFound else WrongStatus
  {
    match c {
      case MarkInvoiced(id, at, invoice) => LinkedElsewhereIff(book, id, at, invoice);
      case _ =>
    }
  }

  lemma {:induction false} LinkedElsewhereIff(book: Book, id: nat, at: nat, invoice: nat)
    ensures IsLinkedElsewhere(book, id, at, invoice)
       <==> !(forall i: nat, k: nat :: i < |book| && k < |book[i].schedule| && (i != id || k != at) ==>
                book[i].schedule[k].invoice != Some(invoice))
  {
    if i: nat, k: nat :| i < |book| && k < |book[i].schedule| && (i != id || k != at) && book[i].schedule[k].invoice == Some(invoice) {
      assert LinksInvoice(book, i, k, invoice);
    }
    if IsLinkedElsewhere(book, id, at, invoice) {
      var i, k :| 0 <= i < |book| && 0 <= k < |book[i].schedule| && (i != id || k != at) && LinksInvoice(book, i, k, invoice);
      assert book[i].schedule[k].invoice == Some(invoice);
    }
  }

  /** A row as a new schedule has it. */
  predicate IsNewRow(row: Instalment, k: nat, caption: string, dueDate: Option<int>, amount: int) {
    && row.sequence == k + 1 && row.caption == caption && row.dueDate == dueDate && row.amount == amount
    && row.status == Pending && row.invoice == None
  }

  predicate AreNewRows(schedule: seq<Instalment>, lines: seq<ScheduleLine>) {
    && |schedule| == |lines|
    && forall k :: 0 <= k < |lines| ==> IsNewRow(schedule[k], k, lines[k].caption, None, lines[k].amount)
  }

  /** A draft of the proforma's, with an instalment for every term exactly if the terms make 100%. */
  ghost predicate IsDraftOf(c: Contract, proforma: nat, p: Proforma) {
    && c.proforma == proforma && c.customer == p.customer && c.value == p.total
    && c.status == Draft && c.signedAt == None && c.handedOver == None
    && if p.terms == [] || PercentSum(p.terms) != 10000 then c.schedule == []
       else exists lines, at :: Schedules(lines, p.terms, p.total, at) && AreNewRows(c.schedule, lines)
  }

  lemma {:induction false} NewScheduleIs(terms: seq<PercentTerm>, value: int)
    ensures var schedule := FromPercents(terms, value);
            if terms == [] || PercentSum(terms) != 10000 then schedule.None?
            else schedule.Some? && exists lines, at ::
                   Schedules(lines, terms, value, at) && AreNewRows(Rows(Undated(schedule.value)), lines)
  {
    SchedulesIff(terms, value);
    if FromPercents(terms, value).Some? {
      var lines := FromPercents(terms, value).value;
      var at :| Schedules(lines, terms, value, at);
      assert AreNewRows(Rows(Undated(lines)), lines);
    }
  }

  /** A new contract is a draft of its proforma, after all the others. */
  lemma {:induction false} NewDraft(office: Office, book: Book, proforma: nat)
    requires Execute(office, book, IssueFromProforma(proforma)).Ok?
    ensures var after := After(office, book, IssueFromProforma(proforma));
            && |after| == |book| + 1 && after[..|book|] == book
            && IsDraftOf(after[|book|], proforma, office.proformas[proforma])
  {
    NewScheduleIs(office.proformas[proforma].terms, office.proformas[proforma].total);
  }

  /** Every other request changes the one contract it names, and of that no more than it says. */
  lemma {:induction false} ChangesOne(office: Office, book: Book, c: Command)
    requires Execute(office, book, c).Ok? && !c.IssueFromProforma?
    ensures var after, was := After(office, book, c), book[c.id];
            && |after| == |book| && (forall k :: 0 <= k < |book| && k != c.id ==> after[k] == book[k])
            && var now := after[c.id];
               && now.proforma == was.proforma && now.customer == was.customer && now.value == was.value
               && now.clauses == (if c.UpdateDraft? then c.clauses else was.clauses)
               && now.status == (if c.Sign? then Signed else if c.Cancel? then Cancelled else if c.Handover? then Completed else was.status)
               && now.signedAt == (if c.Sign? then Some(c.day) else was.signedAt)
               && now.handedOver == (if c.Handover? then Some(c.day) else was.handedOver)
               && |now.schedule| == (if c.ReplaceSchedule? then |c.lines| else |was.schedule|)
               && forall k :: 0 <= k < |now.schedule| ==>
                    if c.ReplaceSchedule? then IsNewRow(now.schedule[k], k, c.lines[k].caption, c.lines[k].dueDate, c.lines[k].amount)
                    else if c.MarkInvoiced? && k == c.at then
                      now.schedule[k] == was.schedule[k].(status := Invoiced, invoice := Some(c.invoice))
                    else now.schedule[k] == was.schedule[k]
  {
  }
}
