/** The chip wallet: buying chips, asking to sell chips back to the
    wallet, and an admin approving or rejecting that request. Each
    operation is one unit of work: Ok with every write applied, or Err and
    the state left exactly as it was. */
module Wallet {
  import opened Records
  import opened Database

  /** The request's `amount` check: absent, zero and negative are refused. */
  predicate AmountGiven(amount: Option<real>) {
    amount.Some? && amount.value > 0.0
  }

  /** `paymentMethod || 'CREDIT_CARD'`: absent and empty fall back. */
  function MethodOr(m: Option<string>): string {
    if m.Some? && m.value != "" then m.value else "CREDIT_CARD"
  }

  /** `reason || 'No reason provided'`. */
  function ReasonText(reason: Option<string>): string {
    if reason.Some? && reason.value != "" then reason.value else "No reason provided"
  }

  function PurchaseNote(): string { "Purchased chips" }

  function SellNote(): string { "Requested to convert chips to wallet" }

  function RejectNote(reason: Option<string>): string { " | Rejected: " + ReasonText(reason) }

  // ---------------------------------------------------------------------
  // Chips held: balances, open pots and chips waiting for a sale decision
  // ---------------------------------------------------------------------

  /** The chips an entry holds back: the amount of a pending sale. */
  function PendingOf(x: Transaction): real {
    if x.txType == SellChips && x.status == Pending then x.amount else 0.0
  }

  function PendingSells(ledger: seq<Transaction>): real
    decreases |ledger|
  {
    if ledger == [] then 0.0 else PendingSells(ledger[..|ledger| - 1]) + PendingOf(ledger[|ledger| - 1])
  }

  lemma PendingSellsAppend(ledger: seq<Transaction>, x: Transaction)
    ensures PendingSells(ledger + [x]) == PendingSells(ledger) + PendingOf(x)
  {
    assert (ledger + [x])[..|ledger|] == ledger;
  }

  lemma {:induction false} PendingSellsUpdate(ledger: seq<Transaction>, i: nat, x: Transaction)
    requires i < |ledger|
    ensures PendingSells(ledger[i := x]) == PendingSells(ledger) - PendingOf(ledger[i]) + PendingOf(x)
    decreases |ledger|
  {
    var n := |ledger|;
    var after := ledger[i := x];
    if i == n - 1 {
      assert after[..n - 1] == ledger[..n - 1];
    } else {
      assert after[..n - 1] == ledger[..n - 1][i := x];
      PendingSellsUpdate(ledger[..n - 1], i, x);
    }
  }

  /** Chips in circulation plus chips whose sale has been requested but not
      decided: what the players hold or may still get back. */
  ghost function Held(s: State): real {
    Circulation(s) + PendingSells(s.ledger)
  }

  // ---------------------------------------------------------------------
  // buyChips
  // ---------------------------------------------------------------------

  /** The entry a purchase of `amount` writes for `user`, whose balance was `was`. */
  function PurchaseEntry(user: UserId, amount: real, pay: PaymentMethod, paymentId: Option<string>,
                         was: real): (x: Transaction)
    ensures x.txType == BuyChips && x.status == TxCompleted && x.isChipTransaction
    ensures x.userId == user && x.amount == amount && x.paymentMethod == pay && x.paymentId == paymentId
    ensures x.balanceBefore == Some(was) && x.balanceAfter == Some(was + amount)
    ensures x.gameTableId.None? && x.approvedBy.None?
    ensures TransactionValid(x) <==> amount >= MinAmount
  {
    NewTransaction(user, amount, BuyChips).(
      status := TxCompleted, paymentMethod := pay, paymentId := paymentId, description := PurchaseNote(),
      balanceBefore := Some(was), balanceAfter := Some(was + amount))
  }

  /** The purchase is taken as paid; chips are credited one for one. The
      answer is the position of the new entry. */
  function Buy(s: State, user: UserId, amount: Option<real>, paymentMethod: Option<string>,
                    paymentId: Option<string>): (o: Step<TxId>)
    ensures o.result.Err? ==> o.next == s
    ensures !AmountGiven(amount) ==> o.result == Err(InvalidAmount)
    ensures AmountGiven(amount) && user !in s.users ==> o.result == Err(UserNotFound)
    ensures AmountGiven(amount) && user in s.users && ParsePaymentMethod(MethodOr(paymentMethod)).None? ==>
              o.result == Err(SchemaViolation)
    ensures o.result.Ok? <==>
              && AmountGiven(amount) && amount.value >= MinAmount && user in s.users
              && ParsePaymentMethod(MethodOr(paymentMethod)).Some?
              && UserValid(s.users[user].(chipBalance := s.users[user].chipBalance + amount.value))
    ensures o.result.Ok? ==>
              var a := amount.value;
              var u := s.users[user];
              && o.result.value == |s.ledger|
              && o.next.users == s.users[user := u.(chipBalance := u.chipBalance + a)]
              && |o.next.ledger| == |s.ledger| + 1 && o.next.ledger[..|s.ledger|] == s.ledger
              && var x := o.next.ledger[|s.ledger|];
              && x.txType == BuyChips && x.status == TxCompleted && x.userId == user && x.amount == a
              && x.paymentMethod == ParsePaymentMethod(MethodOr(paymentMethod)).value
              && x.paymentId == paymentId
              && x.balanceBefore == Some(u.chipBalance)
              && x.balanceAfter == Some(o.next.users[user].chipBalance)
              && o.next.tables == s.tables && o.next.participants == s.participants && o.next.logs == s.logs
  {
    if !AmountGiven(amount) then Step(Err(InvalidAmount), s)
    else if user !in s.users then Step(Err(UserNotFound), s)
    else
      var a := amount.value;
      var u := s.users[user];
      var pay := ParsePaymentMethod(MethodOr(paymentMethod));
      if pay.None? then Step(Err(SchemaViolation), s)
      else
        var entry := PurchaseEntry(user, a, pay.value, paymentId, u.chipBalance);
        var credited := u.(chipBalance := u.chipBalance + a);
        if !(TransactionValid(entry) && UserValid(credited)) then Step(Err(SchemaViolation), s)
        else Step(Ok(|s.ledger|), s.(users := s.users[user := credited], ledger := s.ledger + [entry]))
  }

  lemma BuyPreservesValid(s: State, user: UserId, amount: Option<real>, paymentMethod: Option<string>,
                          paymentId: Option<string>)
    requires Valid(s)
    ensures Valid(Buy(s, user, amount, paymentMethod, paymentId).next)
  {
  }

  /** In a valid store a purchase fails only on its amount, its user or
      its payment method. */
  lemma BuySucceeds(s: State, user: UserId, amount: Option<real>, paymentMethod: Option<string>,
                    paymentId: Option<string>)
    requires Valid(s)
    ensures Buy(s, user, amount, paymentMethod, paymentId).result.Ok? <==>
              AmountGiven(amount) && amount.value >= MinAmount && user in s.users
              && ParsePaymentMethod(MethodOr(paymentMethod)).Some?
  {
    if AmountGiven(amount) && user in s.users {
      assert UserValid(s.users[user]);
    }
  }

  /** A purchase brings exactly `amount` new chips into circulation. */
  lemma BuyConserves(s: State, user: UserId, amount: Option<real>, paymentMethod: Option<string>,
                     paymentId: Option<string>)
    ensures var o := Buy(s, user, amount, paymentMethod, paymentId);
            Held(o.next) == Held(s) + (if o.result.Ok? then amount.value else 0.0)
  {
    var o := Buy(s, user, amount, paymentMethod, paymentId);
    if o.result.Ok? {
      var u := s.users[user];
      SumChipsUpdate(s.users, user, u.(chipBalance := u.chipBalance + amount.value));
      PendingSellsAppend(s.ledger, o.next.ledger[|s.ledger|]);
      assert o.next.ledger == s.ledger + [o.next.ledger[|s.ledger|]];
    }
  }

  // ---------------------------------------------------------------------
  // sellChips
  // ---------------------------------------------------------------------

  /** The pending request a sale of `amount` writes; the chips leave the
      balance `was` at once. */
  function SellEntry(user: UserId, amount: real, was: real): (x: Transaction)
    ensures x.txType == SellChips && x.status == Pending && x.isChipTransaction
    ensures x.userId == user && x.amount == amount
    ensures x.balanceBefore == Some(was) && x.balanceAfter == Some(was - amount)
    ensures x.gameTableId.None? && x.approvedBy.None? && x.approvedAt.None?
    ensures TransactionValid(x) <==> amount >= MinAmount
  {
    NewTransaction(user, amount, SellChips).(
      description := SellNote(), balanceBefore := Some(was), balanceAfter := Some(was - amount))
  }

  function Sell(s: State, user: UserId, amount: Option<real>): (o: Step<TxId>)
    ensures o.result.Err? ==> o.next == s
    ensures !AmountGiven(amount) ==> o.result == Err(InvalidAmount)
    ensures AmountGiven(amount) && user !in s.users ==> o.result == Err(UserNotFound)
    ensures AmountGiven(amount) && user in s.users && s.users[user].chipBalance < amount.value ==>
              o.result == Err(InsufficientChips)
    ensures o.result.Ok? <==>
              && AmountGiven(amount) && amount.value >= MinAmount && user in s.users
              && s.users[user].chipBalance >= amount.value
              && UserValid(s.users[user].(chipBalance := s.users[user].chipBalance - amount.value))
    ensures o.result.Ok? ==>
              var a := amount.value;
              var u := s.users[user];
              && o.result.value == |s.ledger|
              && o.next.users == s.users[user := u.(chipBalance := u.chipBalance - a)]
              && o.next.ledger == s.ledger + [SellEntry(user, a, u.chipBalance)]
              && o.next.tables == s.tables && o.next.participants == s.participants && o.next.logs == s.logs
  {
    if !AmountGiven(amount) then Step(Err(InvalidAmount), s)
    else if user !in s.users then Step(Err(UserNotFound), s)
    else
      var a := amount.value;
      var u := s.users[user];
      if u.chipBalance < a then Step(Err(InsufficientChips), s)
      else
        var entry := SellEntry(user, a, u.chipBalance);
        var debited := u.(chipBalance := u.chipBalance - a);
        if !(TransactionValid(entry) && UserValid(debited)) then Step(Err(SchemaViolation), s)
        else Step(Ok(|s.ledger|), s.(users := s.users[user := debited], ledger := s.ledger + [entry]))
  }

  lemma SellPreservesValid(s: State, user: UserId, amount: Option<real>)
    requires Valid(s)
    ensures Valid(Sell(s, user, amount).next)
  {
  }

  /** A request to sell moves chips from the balance to the pending
      request: nothing is created or lost. */
  lemma SellConserves(s: State, user: UserId, amount: Option<real>)
    ensures Held(Sell(s, user, amount).next) == Held(s)
  {
    var o := Sell(s, user, amount);
    if o.result.Ok? {
      var u := s.users[user];
      SumChipsUpdate(s.users, user, u.(chipBalance := u.chipBalance - amount.value));
      PendingSellsAppend(s.ledger, SellEntry(user, amount.value, u.chipBalance));
    }
  }

  // ---------------------------------------------------------------------
  // approveChipSell and rejectChipSell
  // ---------------------------------------------------------------------

  /** The guards both admin decisions share, in the controller's order. */
  function Decidable(s: State, id: TxId): (r: Result<Transaction>)
    ensures id >= |s.ledger| <==> r == Err(TransactionNotFound)
    ensures r.Ok? <==>
              && id < |s.ledger| && s.ledger[id].txType == SellChips && s.ledger[id].status == Pending
              && s.ledger[id].userId in s.users
    ensures r.Ok? ==> r.value == s.ledger[id]
    ensures id < |s.ledger| && s.ledger[id].txType != SellChips ==> r == Err(NotSellRequest)
    ensures id < |s.ledger| && s.ledger[id].txType == SellChips && s.ledger[id].status != Pending ==>
              r == Err(NotPending)
  {
    if id >= |s.ledger| then Err(TransactionNotFound)
    else
      var x := s.ledger[id];
      if x.txType != SellChips then Err(NotSellRequest)
      else if x.status != Pending then Err(NotPending)
      else if x.userId !in s.users then Err(UserNotFound)
      else Ok(x)
  }

  /** `now` stands for the clock. The request is marked completed by
      `admin`, the amount is paid into the seller's wallet, and the
      decision is logged. */
  function ApproveChipSell(s: State, admin: UserId, id: TxId, now: int): (o: Step<TxId>)
    ensures o.result.Err? ==> o.next == s
    ensures Decidable(s, id).Err? ==> o.result == Err(Decidable(s, id).error)
    ensures o.result.Ok? <==>
              Decidable(s, id).Ok?
              && UserValid(s.users[s.ledger[id].userId].(walletBalance :=
                             s.users[s.ledger[id].userId].walletBalance + s.ledger[id].amount))
              && TransactionValid(s.ledger[id])
    ensures o.result.Ok? ==>
              var x := s.ledger[id];
              var u := s.users[x.userId];
              && o.result.value == id
              && o.next.ledger == s.ledger[id := x.(status := TxCompleted, approvedBy := Some(admin),
                                                    approvedAt := Some(now))]
              && o.next.users == s.users[x.userId := u.(walletBalance := u.walletBalance + x.amount)]
              && o.next.logs == s.logs + [TransactionApprove(admin, id, x.userId, x.amount, SellChips)]
              && o.next.tables == s.tables && o.next.participants == s.participants
  {
    match Decidable(s, id)
    case Err(e) => Step(Err(e), s)
    case Ok(x) =>
      var u := s.users[x.userId];
      var done := x.(status := TxCompleted, approvedBy := Some(admin), approvedAt := Some(now));
      var paid := u.(walletBalance := u.walletBalance + x.amount);
      if !(TransactionValid(done) && UserValid(paid)) then Step(Err(SchemaViolation), s)
      else
        Step(Ok(id), s.(ledger := s.ledger[id := done], users := s.users[x.userId := paid],
                        logs := s.logs + [TransactionApprove(admin, id, x.userId, x.amount, SellChips)]))
  }

  /** The request is cancelled with the reason appended to its
      description, the chips go back to the seller, and the decision is
      logged. */
  function RejectChipSell(s: State, admin: UserId, id: TxId, reason: Option<string>): (o: Step<TxId>)
    ensures o.result.Err? ==> o.next == s
    ensures Decidable(s, id).Err? ==> o.result == Err(Decidable(s, id).error)
    ensures o.result.Ok? <==>
              Decidable(s, id).Ok?
              && UserValid(s.users[s.ledger[id].userId].(chipBalance :=
                             s.users[s.ledger[id].userId].chipBalance + s.ledger[id].amount))
              && TransactionValid(s.ledger[id])
    ensures o.result.Ok? ==>
              var x := s.ledger[id];
              var u := s.users[x.userId];
              && o.result.value == id
              && o.next.ledger == s.ledger[id := x.(status := Cancelled,
                                                    description := x.description + RejectNote(reason))]
              && o.next.users == s.users[x.userId := u.(chipBalance := u.chipBalance + x.amount)]
              && o.next.logs == s.logs + [TransactionReject(admin, id, x.userId, x.amount, SellChips, reason)]
              && o.next.tables == s.tables && o.next.participants == s.participants
  {
    match Decidable(s, id)
    case Err(e) => Step(Err(e), s)
    case Ok(x) =>
      var u := s.users[x.userId];
      var cancelled := x.(status := Cancelled, description := x.description + RejectNote(reason));
      var refunded := u.(chipBalance := u.chipBalance + x.amount);
      if !(TransactionValid(cancelled) && UserValid(refunded)) then Step(Err(SchemaViolation), s)
      else
        Step(Ok(id), s.(ledger := s.ledger[id := cancelled], users := s.users[x.userId := refunded],
                        logs := s.logs + [TransactionReject(admin, id, x.userId, x.amount, SellChips, reason)]))
  }

  lemma ApprovePreservesValid(s: State, admin: UserId, id: TxId, now: int)
    requires Valid(s)
    ensures Valid(ApproveChipSell(s, admin, id, now).next)
  {
  }

  lemma RejectPreservesValid(s: State, admin: UserId, id: TxId, reason: Option<string>)
    requires Valid(s)
    ensures Valid(RejectChipSell(s, admin, id, reason).next)
  {
  }

  /** In a valid store the only failures of a decision are its guards. */
  lemma DecisionsSucceedWhenDecidable(s: State, admin: UserId, id: TxId, now: int, reason: Option<string>)
    requires Valid(s) && Decidable(s, id).Ok?
    ensures ApproveChipSell(s, admin, id, now).result == Ok(id)
    ensures RejectChipSell(s, admin, id, reason).result == Ok(id)
  {
    assert TransactionValid(s.ledger[id]);
    assert UserValid(s.users[s.ledger[id].userId]);
  }

  /** Approval turns the held chips of the request into wallet money: they
      leave the chips held, no balance of chips changes, and the seller's
      wallet grows by the same amount. */
  lemma ApproveConserves(s: State, admin: UserId, id: TxId, now: int)
    ensures var o := ApproveChipSell(s, admin, id, now);
            o.result.Ok? ==>
              && Held(o.next) == Held(s) - s.ledger[id].amount
              && SumChips(o.next.users) == SumChips(s.users)
              && var who := s.ledger[id].userId;
              o.next.users[who].walletBalance == s.users[who].walletBalance + s.ledger[id].amount
  {
    var o := ApproveChipSell(s, admin, id, now);
    if o.result.Ok? {
      var x := s.ledger[id];
      var u := s.users[x.userId];
      SumChipsUpdate(s.users, x.userId, u.(walletBalance := u.walletBalance + x.amount));
      PendingSellsUpdate(s.ledger, id, x.(status := TxCompleted, approvedBy := Some(admin), approvedAt := Some(now)));
    }
  }

  /** Rejection gives the held chips back to the seller's balance. */
  lemma RejectConserves(s: State, admin: UserId, id: TxId, reason: Option<string>)
    ensures Held(RejectChipSell(s, admin, id, reason).next) == Held(s)
  {
    var o := RejectChipSell(s, admin, id, reason);
    if o.result.Ok? {
      var x := s.ledger[id];
      var u := s.users[x.userId];
      SumChipsUpdate(s.users, x.userId, u.(chipBalance := u.chipBalance + x.amount));
      PendingSellsUpdate(s.ledger, id, x.(status := Cancelled, description := x.description + RejectNote(reason)));
    }
  }

  /** A request is decided at most once: after an approval or a
      rejection, either decision is refused as no longer pending. */
  lemma DecidedOnce(s: State, admin: UserId, id: TxId, now: int, reason: Option<string>,
                    admin2: UserId, now2: int, reason2: Option<string>)
    ensures var o := ApproveChipSell(s, admin, id, now);
            o.result.Ok? ==>
              && ApproveChipSell(o.next, admin2, id, now2).result == Err(NotPending)
              && RejectChipSell(o.next, admin2, id, reason2).result == Err(NotPending)
    ensures var o := RejectChipSell(s, admin, id, reason);
            o.result.Ok? ==>
              && ApproveChipSell(o.next, admin2, id, now2).result == Err(NotPending)
              && RejectChipSell(o.next, admin2, id, reason2).result == Err(NotPending)
  {
  }

  /** Selling and then having the request rejected gives the seller back
      exactly the user record they had; the request stays in the ledger,
      cancelled. */
  lemma SellThenRejectRestores(s: State, user: UserId, amount: Option<real>, admin: UserId, reason: Option<string>)
    requires Valid(s)
    requires Sell(s, user, amount).result.Ok?
    ensures var s1 := Sell(s, user, amount).next;
            var id := Sell(s, user, amount).result.value;
            var o := RejectChipSell(s1, admin, id, reason);
            && o.result == Ok(id)
            && o.next.users == s.users
            && o.next.ledger[id].status == Cancelled
            && o.next.ledger[..|s.ledger|] == s.ledger
  {
    var s1 := Sell(s, user, amount).next;
    var id := |s.ledger|;
    SellPreservesValid(s, user, amount);
    DecisionsSucceedWhenDecidable(s1, admin, id, 0, reason);
    var u := s.users[user];
    var a := amount.value;
    assert u.(chipBalance := u.chipBalance - a).(chipBalance := u.chipBalance - a + a) == u;
  }

  /** Selling and then having the request approved moves `amount` from the
      seller's chips to their wallet: the sum of the two is kept. */
  lemma SellThenApproveMoves(s: State, user: UserId, amount: Option<real>, admin: UserId, now: int)
    requires Valid(s)
    requires Sell(s, user, amount).result.Ok?
    ensures var s1 := Sell(s, user, amount).next;
            var id := Sell(s, user, amount).result.value;
            var o := ApproveChipSell(s1, admin, id, now);
            && o.result == Ok(id)
            && o.next.users[user].chipBalance == s.users[user].chipBalance - amount.value
            && o.next.users[user].walletBalance == s.users[user].walletBalance + amount.value
            && o.next.users[user].chipBalance + o.next.users[user].walletBalance
                 == s.users[user].chipBalance + s.users[user].walletBalance
            && o.next.ledger[id].status == TxCompleted && o.next.ledger[id].approvedBy == Some(admin)
  {
    var s1 := Sell(s, user, amount).next;
    SellPreservesValid(s, user, amount);
    DecisionsSucceedWhenDecidable(s1, admin, |s.ledger|, now, None);
  }
}
