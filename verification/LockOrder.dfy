/**
 * The locks the receivables transactions take and the order they take them
 * in: the row of the receipt series, the payment, the invoices, the customer.
 * `reverse` sorts its invoices; `record` takes them as the request lists them.
 * No set of transactions waits for each other as long as all receipts are
 * numbered in one fiscal year, because the series row lets one of those
 * transactions in at a time; nor if every request lists its invoices in
 * ascending order. With neither, two payments can wait for each other.
 */
module LockOrder {

  datatype Lock = InvoiceSeries(year: nat) | Series(year: nat) | Pay(p: nat) | Inv(i: nat) | Customer(c: nat)

  datatype Request =
    | Issue(series: nat, customer: nat)
    | Record(series: nat, invoices: seq<nat>, customer: nat)
    | Reverse(series: nat, payment: nat, invoices: seq<nat>, customer: nat)
    | Allocate(payment: nat, invoice: nat, customer: nat)
    | OnInvoice(invoice: nat, customer: nat)

  function InvoiceLocks(invoices: seq<nat>): (locks: seq<Lock>)
    ensures |locks| == |invoices| && forall k :: 0 <= k < |invoices| ==> locks[k] == Inv(invoices[k])
  {
    seq(|invoices|, k requires 0 <= k < |invoices| => Inv(invoices[k]))
  }

  /**
   * The locks of a request in the order it takes them. A new payment's own
   * lock is left out: no other transaction can name it yet. `OnInvoice` is a
   * void or a withholding.
   */
  function LocksOf(r: Request): seq<Lock> {
    match r
    case Issue(series, c) => [InvoiceSeries(series), Customer(c)]
    case Record(series, invoices, c) => [Series(series)] + InvoiceLocks(invoices) + [Customer(c)]
    case Reverse(series, p, invoices, c) => [Series(series), Pay(p)] + InvoiceLocks(invoices) + [Customer(c)]
    case Allocate(p, i, c) => [Pay(p), Inv(i), Customer(c)]
    case OnInvoice(i, c) => [Inv(i), Customer(c)]
  }

  /** Which locks a request takes. */
  lemma {:induction false} TakesIff(r: Request, l: Lock)
    ensures l in LocksOf(r) <==>
            match l
            case InvoiceSeries(year) => r.Issue? && year == r.series
            case Series(year) => (r.Record? || r.Reverse?) && year == r.series
            case Pay(p) => (r.Reverse? || r.Allocate?) && p == r.payment
            case Inv(i) => ((r.Record? || r.Reverse?) && i in r.invoices) || ((r.Allocate? || r.OnInvoice?) && i == r.invoice)
            case Customer(c) => c == r.customer
  {
    match r {
      case Record(series, invoices, c) => TakesBetween([Series(series)], invoices, Customer(c), l);
      case Reverse(series, p, invoices, c) => TakesBetween([Series(series), Pay(p)], invoices, Customer(c), l);
      case _ =>
    }
  }

  lemma {:induction false} TakesBetween(first: seq<Lock>, invoices: seq<nat>, last: Lock, l: Lock)
    ensures l in first + InvoiceLocks(invoices) + [last] <==> l in first || (l.Inv? && l.i in invoices) || l == last
  {
    if l.Inv? && l.i in invoices {
      var k :| 0 <= k < |invoices| && invoices[k] == l.i;
      assert InvoiceLocks(invoices)[k] == l;
    }
  }

  predicate Ascending(invoices: seq<nat>) {
    forall j, k :: 0 <= j < k < |invoices| ==> invoices[j] < invoices[k]
  }

  /** A reversal sorts the invoices it locks, each once. */
  predicate IsRequest(r: Request) {
    r.Reverse? ==> Ascending(r.invoices)
  }

  // ----- the machine -----

  type TxnId = nat

  /** A transaction: the locks it takes, and how many it has taken. */
  datatype Txn = Txn(locks: seq<Lock>, taken: nat)

  datatype System = System(owners: map<Lock, TxnId>, active: map<TxnId, Txn>)

  datatype Action = Begin(t: TxnId, request: Request) | Take(t: TxnId) | End(t: TxnId)

  predicate Wants(s: System, t: TxnId) {
    t in s.active && s.active[t].taken < |s.active[t].locks|
  }

  function NextLock(s: System, t: TxnId): Lock
    requires Wants(s, t)
  {
    s.active[t].locks[s.active[t].taken]
  }

  /** The next lock is another's. */
  predicate Blocked(s: System, t: TxnId) {
    Wants(s, t) && NextLock(s, t) in s.owners && s.owners[NextLock(s, t)] != t
  }

  /** A blocked transaction can neither go on nor end; any other can end, by a commit or a refusal. */
  predicate Enabled(s: System, a: Action) {
    match a
    case Begin(t, request) => t !in s.active && IsRequest(request)
    case Take(t) => Wants(s, t) && !Blocked(s, t)
    case End(t) => t in s.active && !Blocked(s, t)
  }

  function Next(s: System, a: Action): System
    requires Enabled(s, a)
  {
    match a
    case Begin(t, request) => s.(active := s.active[t := Txn(LocksOf(request), 0)])
    case Take(t) =>
      var txn := s.active[t];
      System(s.owners[NextLock(s, t) := t], s.active[t := txn.(taken := txn.taken + 1)])
    case End(t) => System(map l | l in s.owners && s.owners[l] != t :: s.owners[l], s.active - {t})
  }

  const START := System(map[], map[])

  ghost predicate IsExecution(states: seq<System>, actions: seq<Action>) {
    && |states| == |actions| + 1 && states[0] == START
    && forall k :: 0 <= k < |actions| ==> Enabled(states[k], actions[k]) && states[k + 1] == Next(states[k], actions[k])
  }

  predicate WaitsAmong(s: System, waiting: set<TxnId>, t: TxnId) {
    Blocked(s, t) && s.owners[NextLock(s, t)] in waiting
  }

  /** Each of the transactions waits for another of them. */
  ghost predicate Deadlocked(s: System, waiting: set<TxnId>) {
    waiting != {} && forall t {:trigger WaitsAmong(s, waiting, t)} :: t in waiting ==> WaitsAmong(s, waiting, t)
  }

  // ----- what every execution keeps -----

  /** A lock is owned by the active transaction that has taken it. */
  ghost predicate Held(s: System, l: Lock)
    requires l in s.owners
  {
    && s.owners[l] in s.active
    && var txn := s.active[s.owners[l]];
       exists k :: 0 <= k < txn.taken <= |txn.locks| && txn.locks[k] == l
  }

  ghost predicate Holds(s: System, t: TxnId)
    requires t in s.active
  {
    var txn := s.active[t];
    && txn.taken <= |txn.locks|
    && forall k :: 0 <= k < txn.taken ==> txn.locks[k] in s.owners && s.owners[txn.locks[k]] == t
  }

  ghost predicate Owned(s: System) {
    && (forall l :: l in s.owners ==> Held(s, l))
    && (forall t :: t in s.active ==> Holds(s, t))
  }

  lemma {:induction false} StepKeepsOwned(s: System, a: Action)
    requires Owned(s) && Enabled(s, a)
    ensures Owned(Next(s, a))
  {
    var s' := Next(s, a);
    forall l | l in s'.owners
      ensures Held(s', l)
    {
      HeldStays(s, a, l);
    }
    forall t | t in s'.active
      ensures Holds(s', t)
    {
      if t in s.active {
        assert Holds(s, t);
      }
    }
  }

  lemma {:induction false} HeldStays(s: System, a: Action, l: Lock)
    requires Owned(s) && Enabled(s, a) && l in Next(s, a).owners
    ensures Held(Next(s, a), l)
  {
    if a.Take? && l == NextLock(s, a.t) {
      assert Holds(s, a.t);
      assert s.active[a.t].locks[s.active[a.t].taken] == l;
    } else {
      assert Held(s, l);
      var k :| 0 <= k < s.active[s.owners[l]].taken <= |s.active[s.owners[l]].locks| && s.active[s.owners[l]].locks[k] == l;
      assert Next(s, a).active[s.owners[l]].locks[k] == l;
    }
  }

  /** The locks are those of a request that began. */
  ghost predicate Began(actions: seq<Action>, locks: seq<Lock>) {
    exists k :: 0 <= k < |actions| && IsBeginOf(actions[k], locks)
  }

  predicate IsBeginOf(a: Action, locks: seq<Lock>) {
    a.Begin? && LocksOf(a.request) == locks
  }

  lemma {:induction false} ExecutionsAreOwned(states: seq<System>, actions: seq<Action>)
    requires IsExecution(states, actions)
    ensures Owned(states[|actions|])
    ensures forall t :: t in states[|actions|].active ==> Began(actions, states[|actions|].active[t].locks)
    decreases |actions|
  {
    if actions != [] {
      var n := |actions| - 1;
      var before, after := states[n], states[n + 1];
      assert IsExecution(states[..n + 1], actions[..n]);
      ExecutionsAreOwned(states[..n + 1], actions[..n]);
      StepKeepsOwned(before, actions[n]);
      forall t | t in after.active
        ensures Began(actions, after.active[t].locks)
      {
        if t in before.active {
          var k :| 0 <= k < n && IsBeginOf(actions[..n][k], before.active[t].locks);
          assert IsBeginOf(actions[k], before.active[t].locks);
        } else {
          assert IsBeginOf(actions[n], after.active[t].locks);
        }
      }
    }
  }

  lemma {:induction false} MaxBy(ids: set<TxnId>, rank: TxnId -> int) returns (t: TxnId)
    requires ids != {}
    ensures t in ids && forall u :: u in ids ==> rank(u) <= rank(t)
    decreases |ids|
  {
    t :| t in ids;
    var others := ids - {t};
    if others != {} {
      var u := MaxBy(others, rank);
      assert forall v :: v in ids ==> v == t || v in others;
      if rank(t) < rank(u) {
        t := u;
      }
    }
  }

  function Class(l: Lock): nat {
    match l
    case InvoiceSeries(_) => 0
    case Series(_) => 0
    case Pay(_) => 1
    case Inv(_) => 2
    case Customer(_) => 3
  }

  function WaitClass(s: System, t: TxnId): nat {
    if Wants(s, t) then Class(NextLock(s, t)) else 0
  }

  ghost predicate ByClass(locks: seq<Lock>) {
    forall j, k :: 0 <= j < k < |locks| ==> Class(locks[j]) <= Class(locks[k])
  }

  lemma {:induction false} RequestsAreByClass(r: Request)
    ensures ByClass(LocksOf(r))
  {
  }

  /** Of the transactions that wait for each other, one waits for a lock of the highest class, and so do the owners of those locks. */
  lemma {:induction false} HighestClass(s: System, waiting: set<TxnId>) returns (top: nat, t: TxnId)
    requires Owned(s) && Deadlocked(s, waiting) && forall u :: u in waiting && u in s.active ==> ByClass(s.active[u].locks)
    ensures t in waiting && WaitClass(s, t) == top
    ensures forall u :: u in waiting && WaitClass(s, u) == top ==> OwnerWaitsToo(s, waiting, u)
  {
    t := MaxBy(waiting, (u: TxnId) => WaitClass(s, u));
    top := WaitClass(s, t);
    forall u | u in waiting && WaitClass(s, u) == top
      ensures OwnerWaitsToo(s, waiting, u)
    {
      assert WaitsAmong(s, waiting, u);
      var v, l := s.owners[NextLock(s, u)], NextLock(s, u);
      assert WaitsAmong(s, waiting, v);
      assert Held(s, l);
      var k :| 0 <= k < s.active[v].taken <= |s.active[v].locks| && s.active[v].locks[k] == l;
      assert Class(l) <= Class(NextLock(s, v));
    }
  }

  /** The owner of the lock waits for a lock of the same class, later in its own list. */
  ghost predicate OwnerWaitsToo(s: System, waiting: set<TxnId>, u: TxnId) {
    && Blocked(s, u)
    && var v := s.owners[NextLock(s, u)];
       && v in waiting && Wants(s, v) && WaitClass(s, v) == WaitClass(s, u)
       && exists k :: 0 <= k < s.active[v].taken && s.active[v].locks[k] == NextLock(s, u)
  }

  // ----- one fiscal year: the series row is enough -----

  predicate InYear(r: Request, year: nat) {
    r.Record? || r.Reverse? ==> r.series == year
  }

  /** Only a numbered receipt takes two locks of one class, and it takes the series row first. */
  ghost predicate OnlyAfter(locks: seq<Lock>, series: Lock) {
    forall j, k :: 0 <= j < k < |locks| && Class(locks[j]) == Class(locks[k]) ==> j > 0 && locks[0] == series
  }

  lemma {:induction false} RequestsAreNumbered(r: Request, year: nat)
    requires InYear(r, year)
    ensures OnlyAfter(LocksOf(r), Series(year))
  {
  }

  lemma {:induction false} OwnerHasTheSeries(s: System, waiting: set<TxnId>, u: TxnId, series: Lock)
    requires Owned(s) && OwnerWaitsToo(s, waiting, u)
    requires OnlyAfter(s.active[s.owners[NextLock(s, u)]].locks, series)
    ensures series in s.owners && s.owners[series] == s.owners[NextLock(s, u)]
  {
    var v := s.owners[NextLock(s, u)];
    var k :| 0 <= k < s.active[v].taken && s.active[v].locks[k] == NextLock(s, u);
    assert Holds(s, v);
    assert Class(s.active[v].locks[k]) == Class(s.active[v].locks[s.active[v].taken]);
  }

  /** With all receipts numbered in one year no transactions wait for each other, in whatever order they list their invoices. */
  lemma {:induction false} OneYearNeverDeadlocks(states: seq<System>, actions: seq<Action>, year: nat, waiting: set<TxnId>)
    requires IsExecution(states, actions)
    requires forall k :: 0 <= k < |actions| && actions[k].Begin? ==> InYear(actions[k].request, year)
    ensures !Deadlocked(states[|actions|], waiting)
  {
    var s := states[|actions|];
    ExecutionsAreOwned(states, actions);
    if Deadlocked(s, waiting) {
      forall u | u in waiting && u in s.active
        ensures ByClass(s.active[u].locks) && OnlyAfter(s.active[u].locks, Series(year))
      {
        var k :| 0 <= k < |actions| && IsBeginOf(actions[k], s.active[u].locks);
        RequestsAreByClass(actions[k].request);
        RequestsAreNumbered(actions[k].request, year);
      }
      var top, t := HighestClass(s, waiting);
      var u := s.owners[NextLock(s, t)];
      OwnerHasTheSeries(s, waiting, t, Series(year));
      OwnerHasTheSeries(s, waiting, u, Series(year));
    }
  }

  /** So while any transaction is under way, some transaction is not waiting. */
  lemma {:induction false} OneYearGoesOn(states: seq<System>, actions: seq<Action>, year: nat)
    requires IsExecution(states, actions) && states[|actions|].active != map[]
    requires forall k :: 0 <= k < |actions| && actions[k].Begin? ==> InYear(actions[k].request, year)
    ensures exists t :: t in states[|actions|].active && !Blocked(states[|actions|], t)
  {
    var s := states[|actions|];
    ExecutionsAreOwned(states, actions);
    OneYearNeverDeadlocks(states, actions, year, s.active.Keys);
    assert s.active.Keys != {};
    var t :| t in s.active.Keys && !WaitsAmong(s, s.active.Keys, t);
  }

  /** The owners once `t` has taken the first `n` of these locks. */
  function OwnersWith(owners: map<Lock, TxnId>, t: TxnId, locks: seq<Lock>, n: nat): map<Lock, TxnId>
    requires n <= |locks|
  {
    if n == 0 then owners else OwnersWith(owners, t, locks, n - 1)[locks[n - 1] := t]
  }

  function TakenFirst(s: System, t: TxnId, locks: seq<Lock>, n: nat): System
    requires n <= |locks|
  {
    System(OwnersWith(s.owners, t, locks, n), s.active[t := Txn(locks, n)])
  }

  ghost predicate IsFreeOf(owners: map<Lock, TxnId>, t: TxnId, locks: seq<Lock>) {
    forall l :: l in owners ==> owners[l] != t && l !in locks
  }

  /** Nobody else loses a lock by it, and each lock owned since is `t`'s. */
  lemma {:induction false} OwnerIs(owners: map<Lock, TxnId>, t: TxnId, locks: seq<Lock>, n: nat, l: Lock)
    requires IsFreeOf(owners, t, locks) && n <= |locks|
    ensures var with := OwnersWith(owners, t, locks, n);
            (l in owners ==> l in with && with[l] == owners[l]) && (l !in owners && l in with ==> with[l] == t)
  {
    if n > 0 {
      OwnerIs(owners, t, locks, n - 1, l);
    }
  }

  lemma {:induction false} EndsAlone(s: System, t: TxnId, locks: seq<Lock>, n: nat)
    requires t !in s.active && IsFreeOf(s.owners, t, locks) && n <= |locks|
    ensures var taken := TakenFirst(s, t, locks, n); Enabled(taken, End(t)) && Next(taken, End(t)) == s
  {
    var taken := TakenFirst(s, t, locks, n);
    assert taken.active - {t} == s.active;
    var left := map l | l in taken.owners && taken.owners[l] != t :: taken.owners[l];
    forall l
      ensures l in left <==> l in s.owners
      ensures l in left ==> left[l] == s.owners[l]
    {
      OwnerIs(s.owners, t, locks, n, l);
    }
    assert left == s.owners;
    if n < |locks| {
      OwnerIs(s.owners, t, locks, n, locks[n]);
    }
  }

  /** A transaction that nobody is in the way of takes its locks in their order, and gives them all back. */
  lemma {:induction false} OneGoesThrough(s: System, t: TxnId, request: Request, locks: seq<Lock>, n: nat)
    requires IsRequest(request) && locks == LocksOf(request) && t !in s.active && IsFreeOf(s.owners, t, locks) && n <= |locks|
    ensures Enabled(s, Begin(t, request)) && Next(s, Begin(t, request)) == TakenFirst(s, t, locks, 0)
    ensures var taken := TakenFirst(s, t, locks, n);
            && (Enabled(taken, Take(t)) <==> n < |locks|)
            && (n < |locks| ==> Next(taken, Take(t)) == TakenFirst(s, t, locks, n + 1))
            && Enabled(taken, End(t)) && Next(taken, End(t)) == s
  {
    EndsAlone(s, t, locks, n);
  }

  /** One that waits for another can do nothing. */
  lemma {:induction false} WaitingStops(s: System, t: TxnId)
    requires Blocked(s, t)
    ensures !Enabled(s, Take(t)) && !Enabled(s, End(t)) && s.owners[s.active[t].locks[s.active[t].taken]] != t
  {
  }

  // ----- ascending invoices: the order is enough -----

  predicate InOrder(r: Request) {
    r.Record? || r.Reverse? ==> Ascending(r.invoices)
  }

  function Index(l: Lock): nat {
    match l
    case InvoiceSeries(year) => year
    case Series(year) => year
    case Pay(p) => p
    case Inv(i) => i
    case Customer(c) => c
  }

  ghost predicate ByIndex(locks: seq<Lock>) {
    forall j, k :: 0 <= j < k < |locks| && Class(locks[j]) == Class(locks[k]) ==> Index(locks[j]) < Index(locks[k])
  }

  lemma {:induction false} RequestsAreByIndex(r: Request)
    requires InOrder(r)
    ensures ByIndex(LocksOf(r))
  {
  }

  lemma {:induction false} OwnerIsFurther(s: System, waiting: set<TxnId>, u: TxnId)
    requires OwnerWaitsToo(s, waiting, u) && ByIndex(s.active[s.owners[NextLock(s, u)]].locks)
    ensures Index(NextLock(s, u)) < Index(NextLock(s, s.owners[NextLock(s, u)]))
  {
    var v := s.owners[NextLock(s, u)];
    var k :| 0 <= k < s.active[v].taken && s.active[v].locks[k] == NextLock(s, u);
    assert Class(s.active[v].locks[k]) == Class(s.active[v].locks[s.active[v].taken]);
  }

  function WaitIndex(s: System, t: TxnId): nat {
    if Wants(s, t) then Index(NextLock(s, t)) else 0
  }

  /** Each owner's wait is for a later lock of the class, so one wait is for the last and its owner waits for none. */
  lemma {:induction false} NoneWaitInOrder(s: System, waiting: set<TxnId>)
    requires Owned(s) && forall u :: u in waiting && u in s.active ==> ByClass(s.active[u].locks) && ByIndex(s.active[u].locks)
    ensures !Deadlocked(s, waiting)
  {
    if Deadlocked(s, waiting) {
      var top, t := HighestClass(s, waiting);
      var rank := (u: TxnId) => if WaitClass(s, u) == top then 1 + WaitIndex(s, u) else 0;
      var last := MaxBy(waiting, rank);
      assert rank(t) > 0;
      OwnerIsFurther(s, waiting, last);
    }
  }

  /** With every request's invoices in ascending order none do either, over any years. */
  lemma {:induction false} InOrderNeverDeadlocks(states: seq<System>, actions: seq<Action>, waiting: set<TxnId>)
    requires IsExecution(states, actions)
    requires forall k :: 0 <= k < |actions| && actions[k].Begin? ==> InOrder(actions[k].request)
    ensures !Deadlocked(states[|actions|], waiting)
  {
    var s := states[|actions|];
    ExecutionsAreOwned(states, actions);
    forall u | u in waiting && u in s.active
      ensures ByClass(s.active[u].locks) && ByIndex(s.active[u].locks)
    {
      var k :| 0 <= k < |actions| && IsBeginOf(actions[k], s.active[u].locks);
      RequestsAreByClass(actions[k].request);
      RequestsAreByIndex(actions[k].request);
    }
    NoneWaitInOrder(s, waiting);
  }
}
