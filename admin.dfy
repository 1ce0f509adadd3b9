/** The admin's edit of a user record: profile fields, role, and the two
    balances, each balance change being recorded as a BONUS or REFUND
    entry, and the edit itself as an audit record. */
module Admin {
  import opened Records
  import opened Database

  /** The request body: each field may be absent. */
  datatype UserPatch = UserPatch(
    username: Option<string>,
    email: Option<string>,
    isActive: Option<bool>,
    role: Option<string>,
    chipBalance: Option<real>,
    walletBalance: Option<real>)

  /** JavaScript truthiness of an optional string: absent and "" are falsy. */
  predicate Given(x: Option<string>) {
    x.Some? && x.value != ""
  }

  /** The role check the save applies to a role that was set. */
  predicate RoleOk(p: UserPatch) {
    Given(p.role) ==> ParseRole(p.role.value).Some?
  }

  function Abs(x: real): real {
    if x < 0.0 then -x else x
  }

  /** The user record after the edit, as the schema setters store it: a
      given username is trimmed, a given email lower-cased, a given flag
      copied, a given (valid) role and any given balance taken over. */
  function Patched(u: User, p: UserPatch): User {
    u.(username := if Given(p.username) then Trim(p.username.value) else u.username,
       email := if Given(p.email) then Lower(p.email.value) else u.email,
       isActive := if p.isActive.Some? then p.isActive.value else u.isActive,
       role := if Given(p.role) && ParseRole(p.role.value).Some? then ParseRole(p.role.value).value else u.role,
       chipBalance := if p.chipBalance.Some? then p.chipBalance.value else u.chipBalance,
       walletBalance := if p.walletBalance.Some? then p.walletBalance.value else u.walletBalance)
  }

  function AdjustmentNote(added: bool, chips: bool): string {
    "Admin adjustment: " + (if added then "Added" else "Removed") + (if chips then " chips" else " to wallet")
  }

  /** The entry recording a balance moved by `admin` at time `at` from
      `was` to `now`: BONUS for an increase, REFUND otherwise, of the size
      of the change. */
  function Adjustment(user: UserId, was: real, now: real, chips: bool, admin: UserId, at: int): (x: Transaction)
    ensures x.userId == user && x.status == TxCompleted && x.isChipTransaction == chips
    ensures x.balanceBefore == Some(was) && x.balanceAfter == Some(now)
    ensures x.approvedBy == Some(admin) && x.approvedAt == Some(at)
    ensures x.txType == Bonus <==> now > was
    ensures x.txType == Refund <==> now <= was
    ensures x.amount >= 0.0
    ensures was + (if x.txType == Bonus then x.amount else -x.amount) == now
    ensures TransactionValid(x) <==> Abs(now - was) >= MinAmount
  {
    var diff := now - was;
    NewTransaction(user, Abs(diff), if diff > 0.0 then Bonus else Refund).(
      status := TxCompleted, description := AdjustmentNote(diff > 0.0, chips),
      balanceBefore := Some(was), balanceAfter := Some(now), isChipTransaction := chips,
      approvedBy := Some(admin), approvedAt := Some(at))
  }

  predicate ChipsChanged(u: User, p: UserPatch) {
    p.chipBalance.Some? && p.chipBalance.value != u.chipBalance
  }

  predicate WalletChanged(u: User, p: UserPatch) {
    p.walletBalance.Some? && p.walletBalance.value != u.walletBalance
  }

  /** The chip adjustment entry, if the chip balance changes. */
  function ChipEntry(target: UserId, u: User, p: UserPatch, admin: UserId, at: int): seq<Transaction> {
    if ChipsChanged(u, p) then [Adjustment(target, u.chipBalance, p.chipBalance.value, true, admin, at)] else []
  }

  /** The wallet adjustment entry, if the wallet balance changes. */
  function WalletEntry(target: UserId, u: User, p: UserPatch, admin: UserId, at: int): seq<Transaction> {
    if WalletChanged(u, p) then [Adjustment(target, u.walletBalance, p.walletBalance.value, false, admin, at)]
    else []
  }

  predicate EntriesValid(es: seq<Transaction>) {
    forall i :: 0 <= i < |es| ==> TransactionValid(es[i])
  }

  function UpdateRecord(admin: UserId, target: UserId, u: User, p: UserPatch): AdminLog {
    UserUpdate(admin, target, Snap(u), Snap(Patched(u, p)), ChipsChanged(u, p), WalletChanged(u, p))
  }

  /** Every write of the edit passes its schema: both adjustment entries,
      and the user record with its role. */
  predicate UpdateWritesValid(target: UserId, u: User, p: UserPatch, admin: UserId, at: int) {
    && EntriesValid(ChipEntry(target, u, p, admin, at))
    && EntriesValid(WalletEntry(target, u, p, admin, at))
    && UserValid(Patched(u, p))
    && RoleOk(p)
  }

  /** updateUser as one unit of work: `at` stands for the clock. Either the
      user, the adjustment entries and the audit record are all written,
      or nothing is. */
  function UpdateUser(s: State, admin: UserId, target: UserId, p: UserPatch, at: int): (o: Step<User>)
    ensures o.result.Err? ==> o.next == s
    ensures target !in s.users <==> o.result == Err(UserNotFound)
    ensures o.result.Ok? <==> target in s.users && UpdateWritesValid(target, s.users[target], p, admin, at)
    ensures o.result.Ok? ==>
              var u := s.users[target];
              && o.next.users == s.users[target := Patched(u, p)]
              && o.result.value == o.next.users[target]
              && o.next.ledger == s.ledger + ChipEntry(target, u, p, admin, at) + WalletEntry(target, u, p, admin, at)
              && o.next.logs == s.logs + [UpdateRecord(admin, target, u, p)]
              && o.next.tables == s.tables && o.next.participants == s.participants
  {
    if target !in s.users then Step(Err(UserNotFound), s)
    else
      var u := s.users[target];
      if !UpdateWritesValid(target, u, p, admin, at) then Step(Err(SchemaViolation), s)
      else
        var u' := Patched(u, p);
        Step(Ok(u'), s.(users := s.users[target := u'],
                        ledger := s.ledger + ChipEntry(target, u, p, admin, at) + WalletEntry(target, u, p, admin, at),
                        logs := s.logs + [UpdateRecord(admin, target, u, p)]))
  }

  /** updateUser as the controller performs it, without a session: the
      chip entry, then the wallet entry, then the user are written one
      after the other, and a failing write leaves the earlier ones stored. */
  function UpdateUserAsWritten(s: State, admin: UserId, target: UserId, p: UserPatch, at: int): (o: Step<User>)
    ensures o.result.Err? ==> o.next.users == s.users && o.next.logs == s.logs
    ensures o.result.Err? ==> |s.ledger| <= |o.next.ledger| && o.next.ledger[..|s.ledger|] == s.ledger
  {
    if target !in s.users then Step(Err(UserNotFound), s)
    else
      var u := s.users[target];
      var ce := ChipEntry(target, u, p, admin, at);
      if !EntriesValid(ce) then Step(Err(SchemaViolation), s)
      else
        var s1 := s.(ledger := s.ledger + ce);
        var we := WalletEntry(target, u, p, admin, at);
        if !EntriesValid(we) then Step(Err(SchemaViolation), s1)
        else
          var s2 := s1.(ledger := s1.ledger + we);
          var u' := Patched(u, p);
          if !(UserValid(u') && RoleOk(p)) then Step(Err(SchemaViolation), s2)
          else Step(Ok(u'), s2.(users := s2.users[target := u'], logs := s2.logs + [UpdateRecord(admin, target, u, p)]))
  }

  /** Where the edit succeeds, the controller and the unit of work agree. */
  lemma AsWrittenAgreesOnSuccess(s: State, admin: UserId, target: UserId, p: UserPatch, at: int)
    ensures UpdateUserAsWritten(s, admin, target, p, at).result.Ok? <==> UpdateUser(s, admin, target, p, at).result.Ok?
    ensures UpdateUser(s, admin, target, p, at).result.Ok? ==>
              UpdateUserAsWritten(s, admin, target, p, at) == UpdateUser(s, admin, target, p, at)
  {
    if target in s.users && UpdateWritesValid(target, s.users[target], p, admin, at) {
      var u := s.users[target];
      assert s.ledger + ChipEntry(target, u, p, admin, at) + WalletEntry(target, u, p, admin, at)
          == (s.ledger + ChipEntry(target, u, p, admin, at)) + WalletEntry(target, u, p, admin, at);
    }
  }

  /** Setting a balance of 10 chips to -5: the REFUND entry of 15 is stored
      before the save refuses the negative balance, so the ledger records a
      change the user's balance never underwent. The unit of work stores
      nothing. */
  lemma AsWrittenLeavesOrphanEntry()
    ensures var u := User("alice", "a@b.c", 0.0, 10.0, false, UserRole, true);
            var s := State(map[7 := u], [], [], [], []);
            var p := UserPatch(None, None, None, None, Some(-5.0), None);
            var o := UpdateUserAsWritten(s, 1, 7, p, 0);
            && o.result == Err(SchemaViolation)
            && o.next.users[7].chipBalance == 10.0
            && |o.next.ledger| == 1
            && o.next.ledger[0].txType == Refund && o.next.ledger[0].amount == 15.0
            && o.next.ledger[0].balanceAfter == Some(-5.0)
            && UpdateUser(s, 1, 7, p, 0) == Step(Err(SchemaViolation), s)
  {
    var u := User("alice", "a@b.c", 0.0, 10.0, false, UserRole, true);
    var p := UserPatch(None, None, None, None, Some(-5.0), None);
    assert !UserValid(Patched(u, p));
    assert RoleOk(p);
  }

  lemma UpdatePreservesValid(s: State, admin: UserId, target: UserId, p: UserPatch, at: int)
    requires Valid(s)
    ensures Valid(UpdateUser(s, admin, target, p, at).next)
  {
    var o := UpdateUser(s, admin, target, p, at);
    if o.result.Ok? {
      var u := s.users[target];
      var ce := ChipEntry(target, u, p, admin, at);
      var we := WalletEntry(target, u, p, admin, at);
      assert LedgerValid(s.ledger + ce + we) by {
        forall i | 0 <= i < |s.ledger + ce + we| ensures TransactionValid((s.ledger + ce + we)[i]) {
          if i >= |s.ledger| + |ce| {
            assert (s.ledger + ce + we)[i] == we[i - |s.ledger| - |ce|];
          } else if i >= |s.ledger| {
            assert (s.ledger + ce + we)[i] == ce[i - |s.ledger|];
          }
        }
      }
    }
  }

  /** Each adjustment entry reproduces the balance change it records: its
      signed amount is the new balance minus the old one. */
  lemma AdjustmentsRecordChanges(s: State, admin: UserId, target: UserId, p: UserPatch, at: int)
    requires UpdateUser(s, admin, target, p, at).result.Ok?
    ensures var o := UpdateUser(s, admin, target, p, at);
            var es := o.next.ledger[|s.ledger|..];
            var v := o.next.users[target];
            var u := s.users[target];
            && |es| == (if ChipsChanged(u, p) then 1 else 0) + (if WalletChanged(u, p) then 1 else 0)
            && (forall i :: 0 <= i < |es| ==>
                  && es[i].userId == target && es[i].approvedBy == Some(admin)
                  && es[i].balanceBefore.Some? && es[i].balanceAfter.Some?
                  && es[i].balanceBefore.value + (if es[i].txType == Bonus then es[i].amount else -es[i].amount)
                       == es[i].balanceAfter.value
                  && (es[i].isChipTransaction ==>
                        es[i].balanceBefore.value == u.chipBalance && es[i].balanceAfter.value == v.chipBalance)
                  && (!es[i].isChipTransaction ==>
                        es[i].balanceBefore.value == u.walletBalance && es[i].balanceAfter.value == v.walletBalance))
  {
    var o := UpdateUser(s, admin, target, p, at);
    var u := s.users[target];
    var ce := ChipEntry(target, u, p, admin, at);
    var we := WalletEntry(target, u, p, admin, at);
    assert o.next.ledger[|s.ledger|..] == ce + we;
  }

  /** The chips an edit creates or destroys are exactly the change of the
      target's chip balance. */
  lemma UpdateConserves(s: State, admin: UserId, target: UserId, p: UserPatch, at: int)
    ensures var o := UpdateUser(s, admin, target, p, at);
            Circulation(o.next) == Circulation(s) +
              (if o.result.Ok? then o.next.users[target].chipBalance - s.users[target].chipBalance else 0.0)
  {
    var o := UpdateUser(s, admin, target, p, at);
    if o.result.Ok? {
      SumChipsUpdate(s.users, target, Patched(s.users[target], p));
    }
  }

  /** Sending the same edit again changes no user and writes no
      adjustment entry; only a second audit record is added. */
  lemma UpdateIdempotent(s: State, admin: UserId, target: UserId, p: UserPatch, at: int, admin2: UserId, at2: int)
    requires UpdateUser(s, admin, target, p, at).result.Ok?
    ensures var s1 := UpdateUser(s, admin, target, p, at).next;
            var o := UpdateUser(s1, admin2, target, p, at2);
            && o.result.Ok?
            && o.next.users == s1.users
            && o.next.ledger == s1.ledger
            && |o.next.logs| == |s1.logs| + 1
  {
    var s1 := UpdateUser(s, admin, target, p, at).next;
    var u := s.users[target];
    var v := Patched(u, p);
    assert Patched(v, p) == v;
    assert ChipEntry(target, v, p, admin2, at2) == [] && WalletEntry(target, v, p, admin2, at2) == [];
    assert s1.ledger + [] + [] == s1.ledger;
    assert s1.users[target := v] == s1.users;
  }
}
