/**
 * Which requests the ledger accepts, and what an accepted one changes, told from
 * the rows: the invoices, the payments and the sums of their allocations.
 */
module ReceivablesRequests {
  import opened Wrappers
  import opened Receivables
  import opened ReceivablesInvariant
  import opened ReceivablesBook
  import opened BalanceQueries
  import P = InvoiceProtocol

  // ----- one allocation -----

  /** Invoice `i` can take `part` from customer `c`: it is theirs, not VOID, and has that much left. */
  predicate CanTake(ledger: Ledger, c: nat, i: nat, part: int) {
    && i < |ledger.invoices| && ledger.invoices[i].status != Void && ledger.invoices[i].customer == c
    && InvoiceSum(ledger.allocations, i) + ledger.invoices[i].wht + part <= ledger.invoices[i].total
  }

  /** A payment can give an invoice only once, and no more in all than it brought. */
  predicate CanGive(ledger: Ledger, p: nat, i: nat, part: int)
    requires p < |ledger.payments|
  {
    && PaymentSum(ledger.allocations, p) + part <= ledger.payments[p].amount
    && forall k :: 0 <= k < |ledger.allocations| ==> ledger.allocations[k].payment != p || ledger.allocations[k].invoice != i
  }

  lemma {:induction false} AllocateIff(ledger: Ledger, p: nat, i: nat, amount: int)
    ensures Allocate(ledger, p, i, amount).Ok?
       <==> p < |ledger.payments| && CanTake(ledger, ledger.payments[p].customer, i, amount) && CanGive(ledger, p, i, amount)
  {
  }

  // ----- a payment with its allocations -----

  /** A new payment of `amount` can be split so: each part fits its invoice, no invoice twice, and no more in all than it brings. */
  ghost predicate CanSplit(ledger: Ledger, c: nat, amount: int, splits: seq<(nat, int)>) {
    forall k :: 0 <= k < |splits| ==> CanPlace(ledger, c, amount, splits, k)
  }

  predicate CanPlace(ledger: Ledger, c: nat, amount: int, splits: seq<(nat, int)>, k: nat)
    requires k < |splits|
  {
    && CanTake(ledger, c, splits[k].0, splits[k].1) && P.SplitSum(splits[..k + 1]) <= amount
    && forall j :: 0 <= j < k ==> splits[j].0 != splits[k].0
  }

  /** What each of the invoices and payments shows now. */
  function Views(ledger: Ledger): P.Seen {
    (map i: nat | i < |ledger.invoices| :: P.Inv(i) := P.ViewOf(ledger, P.Inv(i)))
    + (map p: nat | p < |ledger.payments| :: P.Pay(p) := P.ViewOf(ledger, P.Pay(p)))
  }

  lemma {:induction false} SplitSumOneMore(splits: seq<(nat, int)>, k: nat)
    requires k < |splits|
    ensures P.SplitSum(splits[..k + 1]) == P.SplitSum(splits[..k]) + splits[k].1
  {
    assert splits[..k + 1][..k] == splits[..k];
  }

  lemma {:induction false} CanPlaceIff(ledger: Ledger, c: nat, amount: int, splits: seq<(nat, int)>, k: nat)
    requires k < |splits|
    ensures CanPlace(ledger, c, amount, splits, k) <==> P.SplitGoesAhead(c, amount, splits, Views(ledger), k)
  {
    SplitSumOneMore(splits, k);
  }

  lemma {:induction false} ViewsAreCurrent(ledger: Ledger)
    ensures P.Current(Views(ledger), ledger)
  {
  }

  /** Where the first parts are placed, an accepted next one could have been placed by itself. */
  lemma {:induction false} NextCanBePlaced(ledger: Ledger, payment: Payment, splits: seq<(nat, int)>, n: nat)
    requires Valid(ledger) && n < |splits|
    requires forall k :: 0 <= k < n ==> CanPlace(ledger, payment.customer, payment.amount, splits, k)
    requires GuardAndInsert(P.Placed(ledger, payment, splits[..n], P.StatusesWith(splits[..n], Views(ledger))),
               |ledger.payments|, splits[n].0, splits[n].1).Ok?
    ensures CanPlace(ledger, payment.customer, payment.amount, splits, n)
  {
    var q, i := |ledger.payments|, splits[n].0;
    var before := P.Placed(ledger, payment, splits[..n], P.StatusesWith(splits[..n], Views(ledger)));
    var more := P.RowsFor(splits[..n], q);
    forall j | 0 <= j < n
      ensures splits[j].0 != i
    {
      assert before.allocations[|ledger.allocations| + j] == more[j];
    }
    P.PlacedSums(ledger, splits[..n], i);
    P.StatusesWithAt(splits[..n], Views(ledger), i);
    SplitSumOneMore(splits, n);
  }

  /** The ledger once the first `n` parts are placed. */
  function PlacedFirst(ledger: Ledger, payment: Payment, splits: seq<(nat, int)>, n: nat): Ledger
    requires n <= |splits|
  {
    P.Placed(ledger, payment, splits[..n], P.StatusesWith(splits[..n], Views(ledger)))
  }

  /** And the rest is accepted on top. */
  ghost predicate RestIsAccepted(ledger: Ledger, payment: Payment, splits: seq<(nat, int)>, n: nat) {
    && n <= |splits|
    && (forall k :: 0 <= k < n ==> CanPlace(ledger, payment.customer, payment.amount, splits, k))
    && AllocateAll(PlacedFirst(ledger, payment, splits, n), |ledger.payments|, splits[n..]).Ok?
  }

  lemma {:induction false} NextIsPlaced(ledger: Ledger, payment: Payment, splits: seq<(nat, int)>, n: nat)
    requires Valid(ledger) && n < |splits| && RestIsAccepted(ledger, payment, splits, n)
    ensures RestIsAccepted(ledger, payment, splits, n + 1)
  {
    NextCanBePlaced(ledger, payment, splits, n);
    CanPlaceIff(ledger, payment.customer, payment.amount, splits, n);
    ViewsAreCurrent(ledger);
    P.SplitPlaced(ledger, payment, splits, Views(ledger), n);
    assert splits[n..][1..] == splits[n + 1..];
  }

  lemma {:induction false} AllCanBePlaced(ledger: Ledger, payment: Payment, splits: seq<(nat, int)>, n: nat)
    requires Valid(ledger) && RestIsAccepted(ledger, payment, splits, n)
    ensures CanSplit(ledger, payment.customer, payment.amount, splits)
    decreases |splits| - n
  {
    if n < |splits| {
      NextIsPlaced(ledger, payment, splits, n);
      AllCanBePlaced(ledger, payment, splits, n + 1);
    }
  }

  /** A payment is recorded exactly if it can be split as asked. */
  lemma {:induction false} RecordIff(ledger: Ledger, c: nat, amount: int, day: int, splits: seq<(nat, int)>)
    requires Valid(ledger)
    ensures Record(ledger, c, amount, day, splits).Ok? <==> CanSplit(ledger, c, amount, splits)
  {
    var payment := Payment(c, amount, day, None);
    if CanSplit(ledger, c, amount, splits) {
      forall k | 0 <= k < |splits|
        ensures P.SplitGoesAhead(c, amount, splits, Views(ledger), k)
      {
        CanPlaceIff(ledger, c, amount, splits, k);
      }
      ViewsAreCurrent(ledger);
      P.RecordDecided(ledger, c, amount, day, splits, Views(ledger));
    }
    if Record(ledger, c, amount, day, splits).Ok? {
      var start := PlacedFirst(ledger, payment, splits, 0);
      assert start.invoices == ledger.invoices && start.allocations == ledger.allocations;
      assert start == WithPayment(ledger, payment) && splits[0..] == splits;
      AllCanBePlaced(ledger, payment, splits, 0);
    }
  }

  // ----- every request -----

  /** Which requests are accepted. */
  lemma {:induction false} AcceptedIff(ledger: Ledger, command: Command)
    requires Valid(ledger)
    ensures Execute(ledger, command).Ok? <==>
            match command
            case DoIssue(_, _, _, _) => true
            case DoRecord(c, amount, _, splits) => CanSplit(ledger, c, amount, splits)
            case DoAllocate(p, i, amount) =>
              p < |ledger.payments| && CanTake(ledger, ledger.payments[p].customer, i, amount) && CanGive(ledger, p, i, amount)
            case DoReverse(p, _) =>
              && p < |ledger.payments| && ledger.payments[p].reversalOf.None?
              && forall q :: 0 <= q < |ledger.payments| ==> ledger.payments[q].reversalOf != Some(p)
            case DoWithhold(i, amount, _) =>
              && i < |ledger.invoices| && ledger.invoices[i].status != Void
              && InvoiceSum(ledger.allocations, i) + amount <= ledger.invoices[i].total
            case DoVoid(i) =>
              && i < |ledger.invoices| && ledger.invoices[i].status == Issued
              && ledger.invoices[i].wht == 0 && InvoiceSum(ledger.allocations, i) == 0
  {
    match command {
      case DoRecord(c, amount, day, splits) => RecordIff(ledger, c, amount, day, splits);
      case DoAllocate(p, i, amount) => AllocateIff(ledger, p, i, amount);
      case DoReverse(p, _) => assert RowsOk(ledger);
      case DoWithhold(_, _, _) =>
      case DoVoid(i) =>
        if i < |ledger.invoices| {
          assert InvoiceOk(ledger, i);
        }
      case _ =>
    }
  }

  /** What a refusal says: the first thing in the way. */
  lemma {:induction false} RefusedAs(ledger: Ledger, command: Command)
    requires Valid(ledger) && Execute(ledger, command).Err?
    ensures var error := Execute(ledger, command).error;
            match command
            case DoAllocate(p, i, amount) => error == WhyNot(ledger, p, i, amount)
            case DoRecord(_, _, _, _) => true
            case DoReverse(p, _) =>
              error == if p >= |ledger.payments| then NotFound
                       else if ledger.payments[p].reversalOf != None then IsAReversal
                       else AlreadyReversed
            case DoWithhold(i, _, _) =>
              error == if i >= |ledger.invoices| then NotFound
                       else if ledger.invoices[i].status == Void then InvoiceIsVoid
                       else ExceedsInvoice
            case DoVoid(i) => error == if i >= |ledger.invoices| then NotFound else NotVoidable
            case DoIssue(_, _, _, _) => false
  {
  }

  function WhyNot(ledger: Ledger, p: nat, i: nat, amount: int): LedgerError {
    if p >= |ledger.payments| || i >= |ledger.invoices| then NotFound
    else if ledger.invoices[i].status == Void then InvoiceIsVoid
    else if ledger.invoices[i].customer != ledger.payments[p].customer then OtherCustomer
    else if InvoiceSum(ledger.allocations, i) + ledger.invoices[i].wht + amount > ledger.invoices[i].total then ExceedsInvoice
    else if PaymentSum(ledger.allocations, p) + amount > ledger.payments[p].amount then ExceedsPayment
    else AlreadyAllocated
  }

  /** The first parts are placed one after the other, and the rest is asked for on top. */
  lemma {:induction false} FirstArePlaced(ledger: Ledger, payment: Payment, splits: seq<(nat, int)>, n: nat)
    requires Valid(ledger) && n <= |splits|
    requires forall k :: 0 <= k < n ==> CanPlace(ledger, payment.customer, payment.amount, splits, k)
    ensures AllocateAll(PlacedFirst(ledger, payment, splits, 0), |ledger.payments|, splits)
         == AllocateAll(PlacedFirst(ledger, payment, splits, n), |ledger.payments|, splits[n..])
  {
    if n == 0 {
      assert splits[0..] == splits;
    } else {
      FirstArePlaced(ledger, payment, splits, n - 1);
      CanPlaceIff(ledger, payment.customer, payment.amount, splits, n - 1);
      ViewsAreCurrent(ledger);
      P.SplitPlaced(ledger, payment, splits, Views(ledger), n - 1);
      assert splits[n - 1..][1..] == splits[n..];
    }
  }

  /** A payment is refused for the first part that cannot be placed, and as that part is. */
  lemma {:induction false} RecordRefusedAs(ledger: Ledger, payment: Payment, splits: seq<(nat, int)>, n: nat)
    requires Valid(ledger) && n < |splits| && payment.reversalOf == None
    requires forall k :: 0 <= k < n ==> CanPlace(ledger, payment.customer, payment.amount, splits, k) && splits[k].0 != splits[n].0
    requires !CanPlace(ledger, payment.customer, payment.amount, splits, n)
    ensures var (i, part) := splits[n];
            Record(ledger, payment.customer, payment.amount, payment.receivedOn, splits) == Err(
              if i >= |ledger.invoices| then NotFound
              else if ledger.invoices[i].status == Void then InvoiceIsVoid
              else if ledger.invoices[i].customer != payment.customer then OtherCustomer
              else if InvoiceSum(ledger.allocations, i) + ledger.invoices[i].wht + part > ledger.invoices[i].total then ExceedsInvoice
              else ExceedsPayment)
  {
    var i, before := splits[n].0, PlacedFirst(ledger, payment, splits, n);
    var start := PlacedFirst(ledger, payment, splits, 0);
    assert start.invoices == ledger.invoices && start.allocations == ledger.allocations;
    assert start == WithPayment(ledger, payment);
    FirstArePlaced(ledger, payment, splits, n);
    assert splits[n..][0] == splits[n];
    P.PlacedSums(ledger, splits[..n], i);
    P.StatusesWithAt(splits[..n], Views(ledger), i);
    SplitSumOneMore(splits, n);
  }

  /** Every invoice is the one it was, but for its status. */
  ghost predicate OnlyStatusesDiffer(before: seq<Invoice>, after: seq<Invoice>) {
    && |after| == |before|
    && forall k :: 0 <= k < |before| ==> after[k] == before[k].(status := after[k].status)
  }

  lemma {:induction false} AllocateAllAdds(ledger: Ledger, p: nat, splits: seq<(nat, int)>)
    requires p < |ledger.payments| && AllocateAll(ledger, p, splits).Ok?
    ensures AllocateAll(ledger, p, splits).value.allocations == ledger.allocations + P.RowsFor(splits, p)
    decreases |splits|
  {
    if splits != [] {
      AllocateAllAdds(GuardAndInsert(ledger, p, splits[0].0, splits[0].1).value, p, splits[1..]);
      assert P.RowsFor(splits, p) == [Allocation(p, splits[0].0, splits[0].1)] + P.RowsFor(splits[1..], p);
    }
  }

  lemma {:induction false} RecordAdds(ledger: Ledger, c: nat, amount: int, day: int, splits: seq<(nat, int)>)
    requires Record(ledger, c, amount, day, splits).Ok?
    ensures var after := Record(ledger, c, amount, day, splits).value;
            && OnlyStatusesDiffer(ledger.invoices, after.invoices)
            && after.payments == ledger.payments + [Payment(c, amount, day, None)]
            && after.allocations == ledger.allocations + P.RowsFor(splits, |ledger.payments|)
  {
    var paid := WithPayment(ledger, Payment(c, amount, day, None));
    AllocateAllTouches(paid, |ledger.payments|, splits);
    AllocateAllAdds(paid, |ledger.payments|, splits);
  }

  /** The rows of payment `p`, in order, once more under `q` with the other sign. */
  predicate TakesBack(rows: seq<Allocation>, after: seq<Allocation>, p: nat, q: nat) {
    var mine := P.RowsOf(rows, p);
    && |after| == |rows| + |mine| && after[..|rows|] == rows
    && forall k :: 0 <= k < |mine| ==> after[|rows| + k] == Allocation(q, mine[k].invoice, -mine[k].amount)
  }

  lemma {:induction false} ReverseAdds(ledger: Ledger, p: nat, day: int)
    requires Reverse(ledger, p, day).Ok?
    ensures var after := Reverse(ledger, p, day).value;
            && OnlyStatusesDiffer(ledger.invoices, after.invoices)
            && after.payments == ledger.payments + [Payment(ledger.payments[p].customer, -ledger.payments[p].amount, day, Some(p))]
            && TakesBack(ledger.allocations, after.allocations, p, |ledger.payments|)
  {
    ReverseTouches(ledger, p, day);
    P.RowsOfNegated(ledger.allocations, p, |ledger.payments|);
    assert Reverse(ledger, p, day).value.allocations == ledger.allocations + MirroredRows(ledger.allocations, p, |ledger.payments|);
  }

  /** Nothing but invoice `i` differs. */
  predicate OnlyInvoice(before: Ledger, after: Ledger, i: nat) {
    && |after.invoices| == |before.invoices| && after.payments == before.payments && after.allocations == before.allocations
    && forall k :: 0 <= k < |before.invoices| && k != i ==> after.invoices[k] == before.invoices[k]
  }

  /** The rows a request adds and changes; statuses follow from the sums. */
  ghost predicate Changes(ledger: Ledger, command: Command, after: Ledger) {
    match command
    case DoIssue(c, total, day, dueOn) =>
      && after.invoices == ledger.invoices + [Invoice(c, total, 0, Issued, day, None, dueOn)]
      && after.payments == ledger.payments && after.allocations == ledger.allocations
    case DoRecord(c, amount, day, splits) =>
      && OnlyStatusesDiffer(ledger.invoices, after.invoices)
      && after.payments == ledger.payments + [Payment(c, amount, day, None)]
      && after.allocations == ledger.allocations
           + seq(|splits|, k requires 0 <= k < |splits| => Allocation(|ledger.payments|, splits[k].0, splits[k].1))
    case DoAllocate(p, i, amount) =>
      && OnlyStatusesDiffer(ledger.invoices, after.invoices)
      && after.payments == ledger.payments && after.allocations == ledger.allocations + [Allocation(p, i, amount)]
    case DoReverse(p, day) =>
      && p < |ledger.payments| && OnlyStatusesDiffer(ledger.invoices, after.invoices)
      && after.payments == ledger.payments + [Payment(ledger.payments[p].customer, -ledger.payments[p].amount, day, Some(p))]
      && TakesBack(ledger.allocations, after.allocations, p, |ledger.payments|)
    case DoWithhold(i, amount, day) =>
      && i < |ledger.invoices| && OnlyInvoice(ledger, after, i)
      && after.invoices[i] == ledger.invoices[i]
           .(wht := amount, whtOn := if amount == 0 then None else Some(day), status := after.invoices[i].status)
    case DoVoid(i) =>
      && i < |ledger.invoices| && OnlyInvoice(ledger, after, i) && after.invoices[i] == ledger.invoices[i].(status := Void)
  }

  /** What an accepted request changes. */
  lemma {:induction false} ChangedBy(ledger: Ledger, command: Command)
    requires Execute(ledger, command).Ok?
    ensures Changes(ledger, command, Execute(ledger, command).value)
  {
    match command {
      case DoRecord(c, amount, day, splits) => RecordAdds(ledger, c, amount, day, splits);
      case DoReverse(p, day) => ReverseAdds(ledger, p, day);
      case _ =>
    }
  }

  lemma {:induction false} ViewsShow(ledger: Ledger, r: P.Resource)
    ensures r in Views(ledger) <==> if r.Inv? then r.i < |ledger.invoices| else r.p < |ledger.payments|
    ensures r in Views(ledger) ==> Views(ledger)[r] == P.ViewOf(ledger, r)
  {
  }

  lemma {:induction false} RecordDecides(ledger: Ledger, c: nat, amount: int, day: int, splits: seq<(nat, int)>)
    requires Valid(ledger)
    ensures P.SplitsGoAhead(c, amount, splits, Views(ledger)) <==> Record(ledger, c, amount, day, splits).Ok?
  {
    RecordIff(ledger, c, amount, day, splits);
    forall k | 0 <= k < |splits|
      ensures CanPlace(ledger, c, amount, splits, k) <==> P.SplitGoesAhead(c, amount, splits, Views(ledger), k)
    {
      CanPlaceIff(ledger, c, amount, splits, k);
    }
  }

  lemma {:induction false} AllocateDecides(ledger: Ledger, p: nat, i: nat, amount: int)
    ensures P.DecideAllocate(p, i, amount, Views(ledger)).Some? <==> Allocate(ledger, p, i, amount).Ok?
  {
    ViewsShow(ledger, P.Pay(p));
    ViewsShow(ledger, P.Inv(i));
    P.RowsOfAreTheRows(ledger.allocations, p, i);
  }

  lemma {:induction false} RowSeen(ledger: Ledger, p: nat, k: nat)
    requires Valid(ledger) && p < |ledger.payments| && IsLive(ledger, p) && k < |P.RowsOf(ledger.allocations, p)|
    ensures var r := P.Inv(P.RowsOf(ledger.allocations, p)[k].invoice); r in Views(ledger) && Views(ledger)[r].InvoiceView?
  {
    var i := P.RowsOf(ledger.allocations, p)[k].invoice;
    P.RowsOfAreTheRows(ledger.allocations, p, i);
    AllocatedIsOpen(ledger, p, i);
    ViewsShow(ledger, P.Inv(i));
  }

  lemma {:induction false} ReverseDecides(ledger: Ledger, p: nat, day: int)
    requires Valid(ledger)
    ensures P.DecideReverse(p, day, Views(ledger)).Some? <==> Reverse(ledger, p, day).Ok?
  {
    var rows, seen := P.RowsOf(ledger.allocations, p), Views(ledger);
    ViewsShow(ledger, P.Pay(p));
    P.RowsOfAreTheRows(ledger.allocations, p, 0);
    if p < |ledger.payments| && IsLive(ledger, p) {
      forall k | 0 <= k < |rows|
        ensures P.Inv(rows[k].invoice) in seen && seen[P.Inv(rows[k].invoice)].InvoiceView?
      {
        RowSeen(ledger, p, k);
      }
    }
  }

  /** A transaction that sees every row as it is goes ahead exactly if the request is accepted. */
  lemma {:induction false} DecidesIff(ledger: Ledger, command: Command)
    requires Valid(ledger)
    ensures P.Decide(command, Views(ledger)).Some? <==> Execute(ledger, command).Ok?
  {
    match command {
      case DoIssue(_, _, _, _) =>
      case DoRecord(c, amount, day, splits) => RecordDecides(ledger, c, amount, day, splits);
      case DoAllocate(p, i, amount) => AllocateDecides(ledger, p, i, amount);
      case DoReverse(p, day) => ReverseDecides(ledger, p, day);
      case DoWithhold(i, _, _) => ViewsShow(ledger, P.Inv(i));
      case DoVoid(i) => ViewsShow(ledger, P.Inv(i));
    }
  }

  // ----- every sequential run is an execution -----

  /** The rows a transaction can lock: every invoice and every payment. */
  function EveryRow(ledger: Ledger): seq<P.Resource> {
    seq(|ledger.invoices|, i requires 0 <= i < |ledger.invoices| => P.Inv(i))
    + seq(|ledger.payments|, p requires 0 <= p < |ledger.payments| => P.Pay(p))
  }

  lemma {:induction false} EveryRowOnce(ledger: Ledger)
    ensures var rows := EveryRow(ledger);
            forall j, k :: 0 <= j < k < |rows| ==> rows[j] != rows[k]
    ensures (map r | r in EveryRow(ledger) :: P.ViewOf(ledger, r)) == Views(ledger)
  {
    forall r: P.Resource
      ensures r in EveryRow(ledger) <==> r in Views(ledger)
    {
      if r in Views(ledger) {
        assert EveryRow(ledger)[if r.Inv? then r.i else |ledger.invoices| + r.p] == r;
      }
    }
    forall r | r in Views(ledger)
      ensures Views(ledger)[r] == P.ViewOf(ledger, r)
    {
      ViewsShow(ledger, r);
    }
  }

  ghost predicate IsIdle(s: P.System, ledger: Ledger) {
    s.ledger == ledger && s.locks == map[] && s.active == map[]
  }

  lemma {:induction false} OneMoreAction(states: seq<P.System>, actions: seq<P.Action>, a: P.Action)
    requires P.IsExecution(states, actions) && P.Enabled(states[|actions|], a)
    ensures P.IsExecution(states + [P.Next(states[|actions|], a)], actions + [a])
  {
  }

  /** The state once `t` has locked and read the first rows. */
  function ReadFirst(s: P.System, t: nat, request: Command, rows: seq<P.Resource>): P.System {
    s.(locks := map r | r in rows :: t, active := map[t := P.Txn(request, map r | r in rows :: P.ViewOf(s.ledger, r))])
  }

  lemma {:induction false} LocksAndReads(s: P.System, t: nat, request: Command, rows: seq<P.Resource>, r: P.Resource)
    requires r !in rows
    ensures var before := ReadFirst(s, t, request, rows);
            && P.Enabled(before, P.Lock(t, r)) && P.Enabled(P.Next(before, P.Lock(t, r)), P.Read(t, r))
            && P.Next(P.Next(before, P.Lock(t, r)), P.Read(t, r)) == ReadFirst(s, t, request, rows + [r])
  {
    var before, after := ReadFirst(s, t, request, rows), ReadFirst(s, t, request, rows + [r]);
    var locked := P.Next(before, P.Lock(t, r));
    assert locked.locks == after.locks;
    assert P.Next(locked, P.Read(t, r)).active[t].seen == after.active[t].seen;
    assert P.Next(locked, P.Read(t, r)).active == after.active;
  }

  lemma {:induction false} ReadsThem(
    states: seq<P.System>, actions: seq<P.Action>, s: P.System, t: nat, request: Command, rows: seq<P.Resource>, n: nat)
    returns (states': seq<P.System>, actions': seq<P.Action>)
    requires P.IsExecution(states, actions) && n <= |rows| && states[|actions|] == ReadFirst(s, t, request, rows[..n])
    requires forall j, k :: 0 <= j < k < |rows| ==> rows[j] != rows[k]
    ensures P.IsExecution(states', actions') && states'[|actions'|] == ReadFirst(s, t, request, rows)
    decreases |rows| - n
  {
    if n == |rows| {
      assert rows[..n] == rows;
      return states, actions;
    }
    var r := rows[n];
    LocksAndReads(s, t, request, rows[..n], r);
    assert rows[..n] + [r] == rows[..n + 1];
    var before := states[|actions|];
    var locked := P.Next(before, P.Lock(t, r));
    OneMoreAction(states, actions, P.Lock(t, r));
    OneMoreAction(states + [locked], actions + [P.Lock(t, r)], P.Read(t, r));
    states', actions' := ReadsThem(states + [locked] + [P.Next(locked, P.Read(t, r))],
      actions + [P.Lock(t, r)] + [P.Read(t, r)], s, t, request, rows, n + 1);
  }

  /** An accepted request can be carried out on its own, from its first lock to its commit. */
  lemma {:induction false} OneGoesThrough(states: seq<P.System>, actions: seq<P.Action>, request: Command)
    returns (states': seq<P.System>, actions': seq<P.Action>)
    requires P.IsExecution(states, actions) && IsRequest(request)
    requires var s := states[|actions|]; Valid(s.ledger) && IsIdle(s, s.ledger) && Execute(s.ledger, request).Ok?
    ensures P.IsExecution(states', actions') && IsIdle(states'[|actions'|], Execute(states[|actions|].ledger, request).value)
  {
    var s, rows := states[|actions|], EveryRow(states[|actions|].ledger);
    var begun := P.Next(s, P.Begin(0, request));
    EveryRowOnce(s.ledger);
    OneMoreAction(states, actions, P.Begin(0, request));
    assert ReadFirst(s, 0, request, []).locks == map[];
    assert begun == ReadFirst(s, 0, request, rows[..0]);
    states', actions' := ReadsThem(states + [begun], actions + [P.Begin(0, request)], s, 0, request, rows, 0);
    var ready := states'[|actions'|];
    assert ready.active[0].seen == Views(s.ledger);
    DecidesIff(s.ledger, request);
    ViewsAreCurrent(s.ledger);
    P.Decided(s.ledger, request, Views(s.ledger));
    var done := P.Next(ready, P.Commit(0));
    assert done.locks == map[] && done.active == map[];
    OneMoreAction(states', actions', P.Commit(0));
    states', actions' := states' + [done], actions' + [P.Commit(0)];
  }

  /** Whatever requests come one after the other, some execution leaves the ledger they leave. */
  lemma {:induction false} SequenceIsAnExecution(commands: seq<Command>)
    returns (states: seq<P.System>, actions: seq<P.Action>)
    requires AreRequests(commands)
    ensures P.IsExecution(states, actions) && IsIdle(states[|actions|], RunAll(commands))
    decreases |commands|
  {
    if commands == [] {
      return [P.START], [];
    }
    var front, last := commands[..|commands| - 1], commands[|commands| - 1];
    states, actions := SequenceIsAnExecution(front);
    ReachableIsValid(front);
    if Execute(RunAll(front), last).Ok? {
      states, actions := OneGoesThrough(states, actions, last);
    }
  }
}
