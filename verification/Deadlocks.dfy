/**
 * Exactly which requests can wait for each other: those whose lists of locks
 * can be cut so that no two hold one lock and each next lock is held by another.
 * For two requests that is when the first lock of each list that the other one
 * takes too is not the same; for two payments, when they are numbered in
 * different years and the first invoice each shares with the other differs.
 */
module Deadlocks {
  import opened Wrappers
  import opened LockOrder

  // ----- the condition -----

  type Requests = map<TxnId, Request>

  type Lists = map<TxnId, seq<Lock>>

  type Cut = map<TxnId, nat>

  /** The transaction takes the lock before the cut, as its `k`-th. */
  predicate Takes(locks: Lists, cut: Cut, t: TxnId, k: nat, l: Lock) {
    t in locks && t in cut && k < cut[t] <= |locks[t]| && locks[t][k] == l
  }

  predicate IsCut(locks: Lists, cut: Cut) {
    cut.Keys == locks.Keys && forall t :: t in locks ==> cut[t] < |locks[t]|
  }

  ghost predicate NoneShared(locks: Lists, cut: Cut) {
    forall t, u, j, k, l :: Takes(locks, cut, t, j, l) && Takes(locks, cut, u, k, l) ==> t == u
  }

  /** The lock after the cut is taken by another before its own. */
  ghost predicate Waits(locks: Lists, cut: Cut, t: TxnId)
    requires IsCut(locks, cut) && t in locks
  {
    exists u, k :: u != t && Takes(locks, cut, u, k, locks[t][cut[t]])
  }

  /** Every transaction has a next lock, no two hold one lock, and each next lock is held by another. */
  ghost predicate Crosses(locks: Lists, cut: Cut) {
    && locks != map[] && IsCut(locks, cut) && NoneShared(locks, cut)
    && forall t {:trigger Waits(locks, cut, t)} :: t in locks ==> Waits(locks, cut, t)
  }

  function ListsOf(requests: Requests): Lists {
    map t | t in requests :: LocksOf(requests[t])
  }

  // ----- what executions of these requests reach -----

  ghost predicate BeginsOnly(actions: seq<Action>, requests: Requests) {
    forall k :: 0 <= k < |actions| && actions[k].Begin? ==>
      actions[k].t in requests && actions[k].request == requests[actions[k].t]
  }

  ghost predicate IsRunOf(states: seq<System>, actions: seq<Action>, requests: Requests) {
    IsExecution(states, actions) && BeginsOnly(actions, requests)
  }

  ghost predicate Reaches(requests: Requests, s: System) {
    exists states, actions :: IsRunOf(states, actions, requests) && states[|actions|] == s
  }

  /** Some execution of the requests ends with each of them waiting for another. */
  ghost predicate CanDeadlock(requests: Requests) {
    exists s :: Reaches(requests, s) && Deadlocked(s, requests.Keys)
  }

  lemma {:induction false} Onward(requests: Requests, s: System, a: Action)
    requires Reaches(requests, s) && Enabled(s, a)
    requires a.Begin? ==> a.t in requests && a.request == requests[a.t]
    ensures Reaches(requests, Next(s, a))
  {
    var states, actions :| IsRunOf(states, actions, requests) && states[|actions|] == s;
    var states', actions' := states + [Next(s, a)], actions + [a];
    assert IsExecution(states', actions');
    assert IsRunOf(states', actions', requests) && states'[|actions'|] == Next(s, a);
  }

  lemma {:induction false} StepKeepsRequests(s: System, a: Action, requests: Requests)
    requires Enabled(s, a) && (a.Begin? ==> a.t in requests && a.request == requests[a.t])
    requires forall t :: t in s.active ==> t in requests && s.active[t].locks == LocksOf(requests[t])
    ensures forall t :: t in Next(s, a).active ==> t in requests && Next(s, a).active[t].locks == LocksOf(requests[t])
  {
  }

  lemma {:induction false} ActiveAreRequests(states: seq<System>, actions: seq<Action>, requests: Requests)
    requires IsRunOf(states, actions, requests)
    ensures forall t :: t in states[|actions|].active ==>
              t in requests && states[|actions|].active[t].locks == LocksOf(requests[t])
    decreases |actions|
  {
    if actions != [] {
      var n := |actions| - 1;
      assert IsExecution(states[..n + 1], actions[..n]);
      assert BeginsOnly(actions[..n], requests);
      ActiveAreRequests(states[..n + 1], actions[..n], requests);
      StepKeepsRequests(states[n], actions[n], requests);
    }
  }

  lemma {:induction false} ReachedIsOwned(requests: Requests, s: System)
    requires Reaches(requests, s)
    ensures Owned(s)
    ensures forall t :: t in s.active ==> t in requests && s.active[t].locks == LocksOf(requests[t])
  {
    var states, actions :| IsRunOf(states, actions, requests) && states[|actions|] == s;
    ExecutionsAreOwned(states, actions);
    ActiveAreRequests(states, actions, requests);
  }

  // ----- only if: what the waiting transactions hold is a cut that crosses -----

  /** The lists and the cut of some active transactions. */
  predicate AreAt(s: System, waiting: set<TxnId>, locks: Lists, cut: Cut) {
    && waiting <= s.active.Keys && locks.Keys == waiting && cut.Keys == waiting
    && forall t :: t in waiting ==> s.active[t] == Txn(locks[t], cut[t])
  }

  lemma {:induction false} TakerOwns(s: System, waiting: set<TxnId>, locks: Lists, cut: Cut, t: TxnId, k: nat, l: Lock)
    requires Owned(s) && AreAt(s, waiting, locks, cut) && Takes(locks, cut, t, k, l)
    ensures l in s.owners && s.owners[l] == t
  {
    assert Holds(s, t);
  }

  lemma {:induction false} OwnerTakes(s: System, waiting: set<TxnId>, locks: Lists, cut: Cut, l: Lock)
    requires Owned(s) && AreAt(s, waiting, locks, cut) && l in s.owners && s.owners[l] in waiting
    ensures exists k :: Takes(locks, cut, s.owners[l], k, l)
  {
    assert Held(s, l);
    var txn := s.active[s.owners[l]];
    var k :| 0 <= k < txn.taken <= |txn.locks| && txn.locks[k] == l;
    assert Takes(locks, cut, s.owners[l], k, l);
  }

  /** In any execution, whatever else is under way. */
  lemma {:induction false} WaitingCross(s: System, waiting: set<TxnId>, locks: Lists, cut: Cut)
    requires Owned(s) && Deadlocked(s, waiting) && AreAt(s, waiting, locks, cut)
    ensures Crosses(locks, cut)
  {
    forall t, u, j: nat, k: nat, l | Takes(locks, cut, t, j, l) && Takes(locks, cut, u, k, l)
      ensures t == u
    {
      TakerOwns(s, waiting, locks, cut, t, j, l);
      TakerOwns(s, waiting, locks, cut, u, k, l);
    }
    forall t | t in locks
      ensures cut[t] < |locks[t]|
    {
      assert WaitsAmong(s, waiting, t);
    }
    forall t | t in locks
      ensures Waits(locks, cut, t)
    {
      assert WaitsAmong(s, waiting, t);
      OwnerTakes(s, waiting, locks, cut, NextLock(s, t));
    }
  }

  // ----- if: every cut that crosses is reached, one transaction after the other -----

  /** The transactions in `done` at the cut, `t` with `n` locks, the others with none. */
  function Progress(cut: Cut, done: set<TxnId>, t: TxnId, n: nat): Cut {
    map u | u in cut :: if u in done then cut[u] else if u == t then n else 0
  }

  ghost predicate AreRequests(requests: Requests) {
    forall t :: t in requests ==> IsRequest(requests[t])
  }

  lemma {:induction false} BeginAll(requests: Requests, begun: set<TxnId>)
    requires AreRequests(requests) && begun <= requests.Keys
    ensures Reaches(requests, System(map[], map t | t in begun :: Txn(LocksOf(requests[t]), 0)))
    decreases |begun|
  {
    var s := System(map[], map t | t in begun :: Txn(LocksOf(requests[t]), 0));
    if begun == {} {
      assert s == START;
      var states, none: seq<Action> := [START], [];
      assert IsRunOf(states, none, requests) && states[|none|] == s;
    } else {
      var t :| t in begun;
      var before := System(map[], map u | u in begun - {t} :: Txn(LocksOf(requests[u]), 0));
      BeginAll(requests, begun - {t});
      Onward(requests, before, Begin(t, requests[t]));
      assert Next(before, Begin(t, requests[t])) == s;
    }
  }

  /** Every transaction of the lists is active, with as many locks as the cut says. */
  predicate AllAt(s: System, locks: Lists, cut: Cut) {
    s.active.Keys == locks.Keys && AreAt(s, locks.Keys, locks, cut)
  }

  lemma {:induction false} NoneYet(requests: Requests, locks: Lists, cut: Cut, t: TxnId) returns (s: System)
    requires AreRequests(requests) && locks == ListsOf(requests) && IsCut(locks, cut)
    ensures Reaches(requests, s) && AllAt(s, locks, Progress(cut, {}, t, 0))
  {
    BeginAll(requests, requests.Keys);
    s := System(map[], map u | u in requests.Keys :: Txn(LocksOf(requests[u]), 0));
  }

  lemma {:induction false} TakeOne(requests: Requests, locks: Lists, cut: Cut, before: System, done: set<TxnId>, t: TxnId, n: nat)
    returns (s: System)
    requires Reaches(requests, before) && IsCut(locks, cut) && NoneShared(locks, cut)
    requires t in locks && t !in done && n < cut[t] && AllAt(before, locks, Progress(cut, done, t, n))
    ensures Reaches(requests, s) && AllAt(s, locks, Progress(cut, done, t, n + 1))
  {
    ReachedIsOwned(requests, before);
    CanTake(locks, cut, before, done, t, n);
    Onward(requests, before, Take(t));
    s := Next(before, Take(t));
  }

  lemma {:induction false} ReachProgress(requests: Requests, locks: Lists, cut: Cut, done: set<TxnId>, t: TxnId, n: nat)
    returns (s: System)
    requires AreRequests(requests) && locks == ListsOf(requests) && IsCut(locks, cut) && NoneShared(locks, cut)
    requires done <= locks.Keys && t in locks && t !in done && n <= cut[t]
    ensures Reaches(requests, s) && AllAt(s, locks, Progress(cut, done, t, n))
    decreases |done|, n
  {
    if n > 0 {
      s := ReachProgress(requests, locks, cut, done, t, n - 1);
      s := TakeOne(requests, locks, cut, s, done, t, n - 1);
    } else if done == {} {
      s := NoneYet(requests, locks, cut, t);
    } else {
      var u :| u in done;
      s := ReachProgress(requests, locks, cut, done - {u}, u, cut[u]);
      assert Progress(cut, done - {u}, u, cut[u]) == Progress(cut, done, t, n);
    }
  }

  /** Up to the cut no two transactions want one lock, so nothing stands in the way. */
  lemma {:induction false} CanTake(locks: Lists, cut: Cut, s: System, done: set<TxnId>, t: TxnId, n: nat)
    requires IsCut(locks, cut) && NoneShared(locks, cut) && Owned(s)
    requires t in locks && t !in done && n < cut[t]
    requires AllAt(s, locks, Progress(cut, done, t, n))
    ensures Enabled(s, Take(t))
  {
    var l := NextLock(s, t);
    if l in s.owners {
      var u := s.owners[l];
      assert Held(s, l);
      var k :| 0 <= k < s.active[u].taken <= |s.active[u].locks| && s.active[u].locks[k] == l;
      assert Takes(locks, cut, u, k, l) && Takes(locks, cut, t, n, l);
    }
  }

  lemma {:induction false} CrossingIsReached(requests: Requests, locks: Lists, cut: Cut)
    requires AreRequests(requests) && locks == ListsOf(requests) && Crosses(locks, cut)
    ensures CanDeadlock(requests)
  {
    var t :| t in locks;
    var s := ReachProgress(requests, locks, cut, locks.Keys - {t}, t, cut[t]);
    assert Progress(cut, locks.Keys - {t}, t, cut[t]) == cut;
    ReachedIsOwned(requests, s);
    CrossingWaits(s, locks, cut);
    assert requests.Keys == locks.Keys;
  }

  lemma {:induction false} CrossingWaits(s: System, locks: Lists, cut: Cut)
    requires Owned(s) && AreAt(s, locks.Keys, locks, cut) && Crosses(locks, cut)
    ensures Deadlocked(s, locks.Keys)
  {
    forall u | u in locks.Keys
      ensures WaitsAmong(s, locks.Keys, u)
    {
      assert Waits(locks, cut, u);
      var v, k: nat :| v != u && Takes(locks, cut, v, k, locks[u][cut[u]]);
      TakerOwns(s, locks.Keys, locks, cut, v, k, locks[u][cut[u]]);
    }
  }

  lemma {:induction false} DeadlockCrosses(requests: Requests, locks: Lists, s: System) returns (cut: Cut)
    requires locks == ListsOf(requests) && Reaches(requests, s) && Deadlocked(s, requests.Keys)
    ensures Crosses(locks, cut)
  {
    ReachedIsOwned(requests, s);
    forall t | t in requests
      ensures t in s.active
    {
      assert WaitsAmong(s, requests.Keys, t);
    }
    cut := map t | t in requests :: s.active[t].taken;
    WaitingCross(s, requests.Keys, locks, cut);
  }

  /** Requests can all wait for each other exactly when their lists can be cut so that they cross. */
  lemma {:induction false} DeadlocksIff(requests: Requests)
    requires AreRequests(requests)
    ensures CanDeadlock(requests) <==> exists cut :: Crosses(ListsOf(requests), cut)
  {
    if CanDeadlock(requests) {
      var s :| Reaches(requests, s) && Deadlocked(s, requests.Keys);
      var cut := DeadlockCrosses(requests, ListsOf(requests), s);
    }
    if cut :| Crosses(ListsOf(requests), cut) {
      CrossingIsReached(requests, ListsOf(requests), cut);
    }
  }

  // ----- two requests -----

  predicate IsFirst(l: seq<Lock>, m: seq<Lock>, k: nat)
    requires k < |l|
  {
    l[k] in m && forall j :: 0 <= j < k ==> l[j] !in m
  }

  /** The first lock of one list that the other has too. */
  function FirstShared(l: seq<Lock>, m: seq<Lock>): Option<Lock> {
    if l == [] then None else if l[0] in m then Some(l[0]) else FirstShared(l[1..], m)
  }

  lemma {:induction false} FirstSharedAt(l: seq<Lock>, m: seq<Lock>) returns (k: nat)
    ensures FirstShared(l, m).None? ==> forall j :: 0 <= j < |l| ==> l[j] !in m
    ensures FirstShared(l, m).Some? ==> k < |l| && IsFirst(l, m, k) && FirstShared(l, m) == Some(l[k])
  {
    k := 0;
    if l != [] && l[0] !in m {
      k := FirstSharedAt(l[1..], m);
      k := k + 1;
    }
  }

  function Two(l: seq<Lock>, m: seq<Lock>): Lists {
    map[0 := l, 1 := m]
  }

  lemma {:induction false} CrossedAreOpposed(l: seq<Lock>, m: seq<Lock>, cut: Cut)
    requires Crosses(Two(l, m), cut)
    ensures FirstShared(l, m) != FirstShared(m, l)
  {
    var locks, p, q := Two(l, m), cut[0], cut[1];
    assert Waits(locks, cut, 0) && Waits(locks, cut, 1);
    var k: nat :| Takes(locks, cut, 1, k, l[p]);
    var j: nat :| Takes(locks, cut, 0, j, m[q]);
    var x := FirstSharedAt(l, m);
    var y := FirstSharedAt(m, l);
    assert l[j] in m && m[k] in l;
    assert Takes(locks, cut, 0, x, l[x]) && Takes(locks, cut, 1, y, m[y]);
  }

  /** The one goes up to the first lock the other takes of both, the other up to the first that the one then has. */
  lemma {:induction false} OpposedCross(l: seq<Lock>, m: seq<Lock>) returns (cut: Cut)
    requires FirstShared(l, m) != FirstShared(m, l)
    ensures Crosses(Two(l, m), cut)
  {
    var x := FirstSharedAt(l, m);
    var y := FirstSharedAt(m, l);
    assert FirstShared(l, m).Some? ==> m[..] == m && l[x] in m;
    assert FirstShared(m, l).Some? ==> l[..] == l && m[y] in l;
    var p := FirstSharedAt(l, [m[y]]);
    assert l[p] == m[y] && x < p;
    var q := FirstSharedAt(m, l[..p]);
    assert l[..p][x] == l[x];
    TwoCross(l, m, x, y, p, q);
    cut := map[0 := p, 1 := q];
  }

  lemma {:induction false} TwoCross(l: seq<Lock>, m: seq<Lock>, x: nat, y: nat, p: nat, q: nat)
    requires x < p < |l| && y < |m| && q < |m| && l[p] == m[y] && m[y] !in l[..p]
    requires IsFirst(m, l, y) && IsFirst(m, l[..p], q)
    ensures Crosses(Two(l, m), map[0 := p, 1 := q])
  {
    var locks, cut: Cut := Two(l, m), map[0 := p, 1 := q];
    var j :| 0 <= j < p && l[j] == m[q];
    assert y < q;
    assert Takes(locks, cut, 1, y, l[p]) && Takes(locks, cut, 0, j, m[q]);
    forall i, k | 0 <= i < p && 0 <= k < q
      ensures l[i] != m[k]
    {
      assert l[..p][i] == l[i] && m[k] !in l[..p];
    }
  }

  /** Two requests can wait for each other exactly when the first lock of each that the other takes too is not the same. */
  lemma {:induction false} PairDeadlocksIff(a: Request, b: Request)
    requires IsRequest(a) && IsRequest(b)
    ensures CanDeadlock(map[0 := a, 1 := b])
       <==> FirstShared(LocksOf(a), LocksOf(b)) != FirstShared(LocksOf(b), LocksOf(a))
  {
    var requests: Requests, l, m := map[0 := a, 1 := b], LocksOf(a), LocksOf(b);
    DeadlocksIff(requests);
    assert ListsOf(requests) == Two(l, m);
    if cut :| Crosses(Two(l, m), cut) {
      CrossedAreOpposed(l, m, cut);
    }
    if FirstShared(l, m) != FirstShared(m, l) {
      var cut := OpposedCross(l, m);
    }
  }

  // ----- two payments -----

  /** The first invoice of one list that the other has too. */
  function FirstInvoice(a: seq<nat>, b: seq<nat>): Option<nat> {
    if a == [] then None else if a[0] in b then Some(a[0]) else FirstInvoice(a[1..], b)
  }

  lemma {:induction false} FirstSharedConcat(l: seq<Lock>, more: seq<Lock>, m: seq<Lock>)
    ensures FirstShared(l + more, m) == if FirstShared(l, m).Some? then FirstShared(l, m) else FirstShared(more, m)
  {
    if l == [] {
      assert l + more == more;
    } else {
      assert (l + more)[1..] == l[1..] + more;
      FirstSharedConcat(l[1..], more, m);
    }
  }

  lemma {:induction false} SharedInvoices(invoices: seq<nat>, others: seq<nat>, m: seq<Lock>)
    requires forall i :: Inv(i) in m <==> i in others
    ensures var first := FirstInvoice(invoices, others);
            FirstShared(InvoiceLocks(invoices), m) == if first.Some? then Some(Inv(first.value)) else None
  {
    if invoices != [] {
      assert InvoiceLocks(invoices)[1..] == InvoiceLocks(invoices[1..]);
      SharedInvoices(invoices[1..], others, m);
    }
  }

  lemma {:induction false} LocksOfPayment(b: Request)
    requires b.Record?
    ensures forall i :: Inv(i) in LocksOf(b) <==> i in b.invoices
    ensures forall y :: Series(y) in LocksOf(b) <==> y == b.series
    ensures forall c :: Customer(c) in LocksOf(b) <==> c == b.customer
  {
    var locks := LocksOf(b);
    assert locks[0] == Series(b.series) && locks[|locks| - 1] == Customer(b.customer);
    forall i | i in b.invoices
      ensures Inv(i) in locks
    {
      var k :| 0 <= k < |b.invoices| && b.invoices[k] == i;
      assert locks[k + 1] == Inv(i);
    }
  }

  lemma {:induction false} SharedByPayments(a: Request, b: Request)
    requires a.Record? && b.Record?
    ensures var first := FirstInvoice(a.invoices, b.invoices);
            FirstShared(LocksOf(a), LocksOf(b))
            == if a.series == b.series then Some(Series(a.series))
               else if first.Some? then Some(Inv(first.value))
               else if a.customer == b.customer then Some(Customer(a.customer)) else None
  {
    var m := LocksOf(b);
    LocksOfPayment(b);
    SharedInvoices(a.invoices, b.invoices, m);
    FirstSharedConcat([Series(a.series)] + InvoiceLocks(a.invoices), [Customer(a.customer)], m);
    FirstSharedConcat([Series(a.series)], InvoiceLocks(a.invoices), m);
    assert FirstShared([Series(a.series)], m) == if a.series == b.series then Some(Series(a.series)) else None;
    assert FirstShared([Customer(a.customer)], m) == if a.customer == b.customer then Some(Customer(a.customer)) else None;
  }

  /**
   * Two payments can wait for each other exactly when they are numbered in
   * different years and the first invoice of each list that the other has too
   * is not the same.
   */
  lemma {:induction false} PaymentsDeadlockIff(a: Request, b: Request)
    requires a.Record? && b.Record?
    ensures CanDeadlock(map[0 := a, 1 := b])
       <==> a.series != b.series && FirstInvoice(a.invoices, b.invoices) != FirstInvoice(b.invoices, a.invoices)
  {
    PairDeadlocksIff(a, b);
    SharedByPayments(a, b);
    SharedByPayments(b, a);
    SharedInNeither(a.invoices, b.invoices);
  }

  lemma {:induction false} NotShared(a: seq<nat>, b: seq<nat>)
    ensures FirstInvoice(a, b).None? <==> forall i :: i in a ==> i !in b
  {
    if a != [] {
      NotShared(a[1..], b);
      assert forall i :: i in a <==> i == a[0] || i in a[1..];
    }
  }

  lemma {:induction false} SharedInNeither(a: seq<nat>, b: seq<nat>)
    ensures FirstInvoice(a, b).None? <==> FirstInvoice(b, a).None?
  {
    NotShared(a, b);
    NotShared(b, a);
  }

  /** Such as two payments around a fiscal year's end that list two invoices in opposite orders. */
  lemma {:induction false} TwoYearsCanDeadlock(a: Request, b: Request, i: nat, j: nat)
    requires a.Record? && b.Record? && a.series != b.series && i != j
    requires a.invoices == [i, j] && b.invoices == [j, i]
    ensures CanDeadlock(map[0 := a, 1 := b])
  {
    PaymentsDeadlockIff(a, b);
  }
}
