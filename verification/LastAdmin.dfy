/**
 * The last-admin rule of src/modules/employees/employees.repository.ts: an
 * update that touches role or activity checks, then writes, under a tenant-wide
 * lock held for the whole transaction.
 */
module LastAdmin {
  import opened Wrappers

  /** `Staff` stands for the ten other roles an employee can have. */
  datatype Role = Admin | Ceo | Staff | Customer

  datatype User = User(role: Role, isActive: bool, deleted: bool, profile: string)

  /** What an update may set; `profile` stands for every column but these two. */
  datatype Patch = Patch(role: Option<Role>, isActive: Option<bool>, profile: Option<string>)

  type Users = seq<User>

  datatype UpdateError = EmployeeNotFound | LastAdminRefused

  predicate IsAdminCapable(role: Role, isActive: bool) {
    isActive && (role == Admin || role == Ceo)
  }

  /** A user who can administer the tenant. */
  predicate IsAdmin(u: User) {
    IsAdminCapable(u.role, u.isActive) && !u.deleted
  }

  predicate HasAdmin(users: Users) {
    exists i :: 0 <= i < |users| && IsAdmin(users[i])
  }

  predicate HasAnotherAdmin(users: Users, id: nat) {
    exists i :: 0 <= i < |users| && i != id && IsAdmin(users[i])
  }

  predicate IsEmployee(users: Users, id: nat) {
    id < |users| && !users[id].deleted && users[id].role != Customer
  }

  predicate NeedsLock(patch: Patch) {
    patch.role.Some? || patch.isActive.Some?
  }

  function OrElse<T>(patched: Option<T>, current: T): T {
    if patched.Some? then patched.value else current
  }

  /** The row the UPDATE statement writes: only the columns the patch names. */
  function Patched(u: User, patch: Patch): User {
    User(OrElse(patch.role, u.role), OrElse(patch.isActive, u.isActive), u.deleted, OrElse(patch.profile, u.profile))
  }

  function Written(users: Users, id: nat, patch: Patch): Users {
    if IsEmployee(users, id) then users[id := Patched(users[id], patch)] else users
  }

  /** `assertNotLastAdmin`. */
  function Refusal(users: Users, id: nat, patch: Patch): Option<UpdateError> {
    if !IsEmployee(users, id) then Some(EmployeeNotFound)
    else
      var current := users[id];
      var was := IsAdminCapable(current.role, current.isActive);
      var willBe := IsAdminCapable(OrElse(patch.role, current.role), OrElse(patch.isActive, current.isActive));
      if !was || willBe || HasAnotherAdmin(users, id) then None else Some(LastAdminRefused)
  }

  class Employees {
    var users: Users

    constructor (users: Users)
      ensures this.users == users
    {
      this.users := users;
    }

    /** `update`, with no other transaction in between: refused exactly when it would leave no admin. */
    method Update(id: nat, patch: Patch) returns (error: Option<UpdateError>)
      modifies this
      ensures error == (if !IsEmployee(old(users), id) then Some(EmployeeNotFound)
                        else if HasAdmin(old(users)) && !HasAdmin(Written(old(users), id, patch)) then Some(LastAdminRefused)
                        else None)
      ensures users == if error.None? then Written(old(users), id, patch) else old(users)
    {
      if NeedsLock(patch) {
        error := Refusal(users, id, patch);
        RefusalIff(users, id, patch);
        if error.Some? {
          return;
        }
      } else {
        ProfileKeepsAdmins(users, id, patch);
      }
      if !IsEmployee(users, id) {
        return Some(EmployeeNotFound);
      }
      users := users[id := Patched(users[id], patch)];
      return None;
    }
  }

  /** The guard refuses exactly the writes that would take the tenant's last admin away. */
  lemma {:induction false} RefusalIff(users: Users, id: nat, patch: Patch)
    ensures Refusal(users, id, patch) == Some(LastAdminRefused)
       <==> HasAdmin(users) && !HasAdmin(Written(users, id, patch))
  {
    var after := Written(users, id, patch);
    forall i | 0 <= i < |users| && i != id ensures after[i] == users[i] {
    }
    if HasAnotherAdmin(users, id) {
      var i :| 0 <= i < |users| && i != id && IsAdmin(users[i]);
      assert IsAdmin(after[i]);
    }
    if id < |users| {
      assert IsAdmin(users[id]) ==> HasAdmin(users);
      assert IsAdmin(after[id]) ==> HasAdmin(after);
    }
  }

  lemma {:induction false} ProfileKeepsAdmins(users: Users, id: nat, patch: Patch)
    requires !NeedsLock(patch)
    ensures |Written(users, id, patch)| == |users|
    ensures forall i :: 0 <= i < |users| ==> IsAdmin(Written(users, id, patch)[i]) == IsAdmin(users[i])
    ensures HasAdmin(Written(users, id, patch)) == HasAdmin(users)
  {
    var after := Written(users, id, patch);
    if HasAdmin(users) {
      var i :| 0 <= i < |users| && IsAdmin(users[i]);
      assert IsAdmin(after[i]);
    }
    if HasAdmin(after) {
      var i :| 0 <= i < |after| && IsAdmin(after[i]);
      assert IsAdmin(users[i]);
    }
  }

  // ----- interleavings -----

  type TxnId = nat

  /** `checked` once the guard has let the transaction through. */
  datatype Txn = Txn(id: nat, patch: Patch, checked: bool)

  datatype System = System(users: Users, holder: Option<TxnId>, open: map<TxnId, Txn>)

  datatype Action =
    | Begin(t: TxnId, id: nat, patch: Patch)
    | Lock(t: TxnId)
    | Check(t: TxnId)
    | Commit(t: TxnId)
    | Abort(t: TxnId)

  /** The steps; `locked` false is the same protocol without its lock. */
  predicate Enabled(s: System, a: Action, locked: bool) {
    match a
    case Begin(t, _, _) => t !in s.open
    case Lock(t) => t in s.open && NeedsLock(s.open[t].patch) && s.holder.None?
    case Check(t) =>
      && t in s.open && NeedsLock(s.open[t].patch) && (locked ==> s.holder == Some(t))
      && Refusal(s.users, s.open[t].id, s.open[t].patch).None?
    case Commit(t) => t in s.open && (NeedsLock(s.open[t].patch) ==> s.open[t].checked)
    case Abort(t) => t in s.open
  }

  function Next(s: System, a: Action, locked: bool): System
    requires Enabled(s, a, locked)
  {
    match a
    case Begin(t, id, patch) => s.(open := s.open[t := Txn(id, patch, false)])
    case Lock(t) => s.(holder := Some(t))
    case Check(t) => s.(open := s.open[t := s.open[t].(checked := true)])
    case Commit(t) =>
      System(Written(s.users, s.open[t].id, s.open[t].patch), if s.holder == Some(t) then None else s.holder, s.open - {t})
    case Abort(t) => s.(holder := if s.holder == Some(t) then None else s.holder, open := s.open - {t})
  }

  ghost predicate IsRun(first: Users, states: seq<System>, actions: seq<Action>, locked: bool) {
    && |states| == |actions| + 1 && states[0] == System(first, None, map[])
    && forall k :: 0 <= k < |actions| ==>
         Enabled(states[k], actions[k], locked) && states[k + 1] == Next(states[k], actions[k], locked)
  }

  /** A transaction past its check holds the lock, and its write would still pass. */
  ghost predicate Inv(s: System) {
    && HasAdmin(s.users)
    && (s.holder.Some? ==> s.holder.value in s.open)
    && forall t :: t in s.open && s.open[t].checked ==>
         && NeedsLock(s.open[t].patch) && s.holder == Some(t)
         && Refusal(s.users, s.open[t].id, s.open[t].patch).None?
  }

  lemma {:induction false} RefusalSame(users: Users, id: nat, patch: Patch, other: nat, profile: Patch)
    requires !NeedsLock(profile) && Refusal(users, id, patch).None?
    ensures Refusal(Written(users, other, profile), id, patch).None?
  {
    ProfileKeepsAdmins(users, other, profile);
    if HasAnotherAdmin(users, id) {
      var i :| 0 <= i < |users| && i != id && IsAdmin(users[i]);
      assert IsAdmin(Written(users, other, profile)[i]);
    }
  }

  lemma {:induction false} StepKeeps(s: System, a: Action)
    requires Inv(s) && Enabled(s, a, true)
    ensures Inv(Next(s, a, true))
  {
    if a.Commit? {
      var txn := s.open[a.t];
      if NeedsLock(txn.patch) {
        RefusalIff(s.users, txn.id, txn.patch);
      } else {
        ProfileKeepsAdmins(s.users, txn.id, txn.patch);
        forall t | t in s.open && t != a.t && s.open[t].checked
          ensures Refusal(Written(s.users, txn.id, txn.patch), s.open[t].id, s.open[t].patch).None?
        {
          RefusalSame(s.users, s.open[t].id, s.open[t].patch, txn.id, txn.patch);
        }
      }
    }
  }

  /** A tenant that starts with an active ADMIN or CEO has one in every interleaving of updates. */
  lemma {:induction false} NeverWithoutAdmin(first: Users, states: seq<System>, actions: seq<Action>)
    requires HasAdmin(first) && IsRun(first, states, actions, true)
    ensures Inv(states[|actions|])
    ensures var users := states[|actions|].users;
            exists i :: 0 <= i < |users| && users[i].isActive && !users[i].deleted && (users[i].role == Admin || users[i].role == Ceo)
    decreases |actions|
  {
    if actions != [] {
      var n := |actions| - 1;
      assert IsRun(first, states[..n + 1], actions[..n], true);
      NeverWithoutAdmin(first, states[..n + 1], actions[..n]);
      StepKeeps(states[n], actions[n]);
    }
    var users := states[|actions|].users;
    var i :| 0 <= i < |users| && IsAdmin(users[i]);
    AdminIff(users[i]);
  }

  /** Who can administer: an ADMIN or CEO that is active and not deleted. */
  lemma {:induction false} AdminIff(u: User)
    ensures IsAdmin(u) <==> u.isActive && !u.deleted && (u.role == Admin || u.role == Ceo)
  {
  }

  /** An update writes the columns the patch names into the employee's row, and nothing else. */
  lemma {:induction false} WritesThePatch(users: Users, id: nat, patch: Patch)
    ensures var after := Written(users, id, patch);
            && |after| == |users| && (forall k :: 0 <= k < |users| && k != id ==> after[k] == users[k])
            && (id < |users| ==>
                  var was, now, written := users[id], after[id], !users[id].deleted && users[id].role != Customer;
                  && now.deleted == was.deleted
                  && now.role == (if written && patch.role.Some? then patch.role.value else was.role)
                  && now.isActive == (if written && patch.isActive.Some? then patch.isActive.value else was.isActive)
                  && now.profile == (if written && patch.profile.Some? then patch.profile.value else was.profile))
  {
  }

  /** An update on its own is written unless it is refused, and one of neither role nor activity always is. */
  lemma {:induction false} OneGoesThrough(s: System, t: TxnId, id: nat, patch: Patch)
    requires t !in s.open && s.holder == None
    ensures Enabled(s, Begin(t, id, patch), true)
    ensures var begun := Next(s, Begin(t, id, patch), true);
            if patch.role == None && patch.isActive == None then
              Enabled(begun, Commit(t), true) && Next(begun, Commit(t), true) == s.(users := Written(s.users, id, patch))
            else
              && Enabled(begun, Lock(t), true)
              && var locked := Next(begun, Lock(t), true);
                 && (Enabled(locked, Check(t), true) <==> Refusal(s.users, id, patch).None?)
                 && (Refusal(s.users, id, patch).None? ==>
                       var checked := Next(locked, Check(t), true);
                       Enabled(checked, Commit(t), true) && Next(checked, Commit(t), true) == s.(users := Written(s.users, id, patch)))
                 && !Enabled(locked, Commit(t), true)
                 && Enabled(locked, Abort(t), true) && Next(locked, Abort(t), true) == s
  {
    var begun := Next(s, Begin(t, id, patch), true);
    assert begun.open - {t} == s.open;
    if NeedsLock(patch) {
      var locked := Next(begun, Lock(t), true);
      assert locked.open - {t} == s.open;
      if Refusal(s.users, id, patch).None? {
        assert Next(locked, Check(t), true).open - {t} == s.open;
      }
    }
  }

  // ----- without the lock -----

  const DEACTIVATE := Patch(None, Some(false), None)

  function SkewedRun(): seq<Action> {
    [Begin(0, 0, DEACTIVATE), Begin(1, 1, DEACTIVATE), Check(0), Check(1), Commit(0), Commit(1)]
  }

  function StateAfter(s: System, actions: seq<Action>): Option<System>
    decreases |actions|
  {
    if actions == [] then Some(s)
    else if Enabled(s, actions[0], false) then StateAfter(Next(s, actions[0], false), actions[1..])
    else None
  }

  /** The same steps without the lock: two admins who deactivate each other leave none. */
  lemma {:induction false} WriteSkew(a: User, b: User)
    requires IsAdmin(a) && IsAdmin(b)
    ensures var after := StateAfter(System([a, b], None, map[]), SkewedRun());
            after.Some? && HasAdmin([a, b]) && !HasAdmin(after.value.users)
  {
    var users := [a, b];
    var s0 := System(users, None, map[]);
    var s1 := Next(s0, Begin(0, 0, DEACTIVATE), false);
    var s2 := Next(s1, Begin(1, 1, DEACTIVATE), false);
    assert IsAdmin(users[0]) && IsAdmin(users[1]);
    assert HasAnotherAdmin(users, 0) && HasAnotherAdmin(users, 1);
    var s3 := Next(s2, Check(0), false);
    var s4 := Next(s3, Check(1), false);
    var s5 := Next(s4, Commit(0), false);
    var s6 := Next(s5, Commit(1), false);
    assert s6.users == [a.(isActive := false), b.(isActive := false)];
    var run := SkewedRun();
    assert StateAfter(s5, run[5..]) == Some(s6) by {
      assert run[5..] == [Commit(1)] && run[5..][1..] == [];
    }
    assert run[4..][1..] == run[5..] && run[3..][1..] == run[4..] && run[2..][1..] == run[3..];
    assert run[1..][1..] == run[2..];
    assert StateAfter(s4, run[4..]) == Some(s6);
    assert StateAfter(s3, run[3..]) == Some(s6);
    assert StateAfter(s2, run[2..]) == Some(s6);
    assert StateAfter(s1, run[1..]) == Some(s6);
  }
}
