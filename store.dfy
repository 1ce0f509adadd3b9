/** The controllers as they run against the database: a `Store` object
    whose collections the handlers update in place, record by record, in
    the order the controllers write them. Every handler is proved to leave
    the store exactly as the corresponding operation on `State` says, so
    the properties proved about those operations hold of the store. */
module Backend {
  import opened Records
  import opened Database
  import Game
  import Settlement
  import Wallet
  import Admin

  // ---------------------------------------------------------------------
  // Queries that scan the participant rows
  // ---------------------------------------------------------------------

  /** The find-one query on (userId, gameTableId): the first matching row. */
  method FindRow(ps: seq<Participant>, user: UserId, t: TableId) returns (r: Option<nat>)
    ensures r == FirstRow(ps, user, t, 0)
    ensures r.Some? <==> HasRow(ps, user, t)
  {
    var i := 0;
    while i < |ps| && !SeatOf(ps[i], user, t)
      invariant 0 <= i <= |ps|
      invariant FirstRow(ps, user, t, i) == FirstRow(ps, user, t, 0)
      decreases |ps| - i
    {
      i := i + 1;
    }
    r := if i < |ps| then Some(i) else None;
  }

  /** The duplicate check of a guess: does a row of `user` on `t` with
      guess kind `kind` exist? */
  method FindKind(ps: seq<Participant>, user: UserId, t: TableId, kind: GuessKind) returns (found: bool)
    ensures found == HasKind(ps, user, t, kind)
  {
    found := false;
    var i := 0;
    while i < |ps|
      invariant 0 <= i <= |ps|
      invariant found <==> exists j :: 0 <= j < i && SeatOf(ps[j], user, t) && ps[j].guessType == kind
    {
      if SeatOf(ps[i], user, t) && ps[i].guessType == kind {
        found := true;
      }
      i := i + 1;
    }
  }

  /** The pass of evaluateGame over the rows of the table: each row is
      pushed onto the list of the first tier it falls in. */
  method Classify(ps: seq<Participant>, t: TableId, n: int) returns (ex: seq<nat>, cl: seq<nat>, co: seq<nat>)
    ensures ex == Settlement.TierRows(ps, t, n, Settlement.ExactTier)
    ensures cl == Settlement.TierRows(ps, t, n, Settlement.CloseTier)
    ensures co == Settlement.TierRows(ps, t, n, Settlement.ConditionTier)
  {
    ex, cl, co := [], [], [];
    var i := 0;
    while i < |ps|
      invariant 0 <= i <= |ps|
      invariant ex == Settlement.Winners(ps, t, n, Settlement.ExactTier, i)
      invariant cl == Settlement.Winners(ps, t, n, Settlement.CloseTier, i)
      invariant co == Settlement.Winners(ps, t, n, Settlement.ConditionTier, i)
    {
      var tier := if ps[i].gameTableId == t then Settlement.TierOf(ps[i], n) else Settlement.NoTier;
      Settlement.WinnersNext(ps, t, n, i, tier);
      ex := ex + (if tier == Settlement.ExactTier then [i] else []);
      cl := cl + (if tier == Settlement.CloseTier then [i] else []);
      co := co + (if tier == Settlement.ConditionTier then [i] else []);
      i := i + 1;
    }
  }

  class Store {
    var users: map<UserId, User>
    var tables: seq<GameTable>
    var participants: seq<Participant>
    var ledger: seq<Transaction>
    var logs: seq<AdminLog>

    /** The collections as one value. */
    function Snapshot(): State
      reads this
    {
      State(users, tables, participants, ledger, logs)
    }

    ghost predicate Valid()
      reads this
    {
      Database.Valid(Snapshot())
    }

    /** A store holding the collections of `s`. */
    constructor (s: State)
      ensures Snapshot() == s
    {
      users, tables, participants, ledger, logs := s.users, s.tables, s.participants, s.ledger, s.logs;
    }

    // -------------------------------------------------------------------
    // gameController
    // -------------------------------------------------------------------

    method CreateGameTable(creator: UserId, entryFee: Option<real>, minPlayers: Option<int>,
                           maxPlayers: Option<int>, isPrivate: bool, commissionRate: Option<real>,
                           code: string) returns (r: Result<TableId>)
      modifies this
      ensures Step(r, Snapshot())
                == Game.CreateGameTable(old(Snapshot()), creator, entryFee, minPlayers, maxPlayers,
                                        isPrivate, commissionRate, code)
    {
      if entryFee.None? || entryFee.value <= 0.0 { return Err(InvalidEntryFee); }
      if creator !in users { return Err(UserNotFound); }
      var user := users[creator];
      var fee := entryFee.value;
      if user.chipBalance < fee { return Err(InsufficientChips); }
      var id := |tables|;
      var table := Game.OpenedTable(creator, fee, minPlayers, maxPlayers, isPrivate, commissionRate, code);
      var debited := user.(chipBalance := user.chipBalance - fee);
      var entry := GameEntry(creator, fee, EntryFee, id, user.chipBalance, debited.chipBalance, Game.EntryFeeNote());
      var row := DefaultRow(creator, id, fee);
      if !(TableValid(table) && UserValid(debited) && TransactionValid(entry) && ParticipantRowValid(row)) {
        return Err(SchemaViolation);
      }
      Open(creator, debited, table, entry, row);
      r := Ok(id);
    }

    /** The writes of a create that passed its checks, in the controller's
        order: the table, the creator's balance, the entry fee entry and
        the creator's participant row. */
    method Open(creator: UserId, debited: User, table: GameTable, entry: Transaction, row: Participant)
      modifies this
      ensures Snapshot() == old(Snapshot()).(users := old(users)[creator := debited], tables := old(tables) + [table],
                                             participants := old(participants) + [row], ledger := old(ledger) + [entry])
    {
      tables := tables + [table];
      users := users[creator := debited];
      ledger := ledger + [entry];
      participants := participants + [row];
    }

    method JoinGameTable(user: UserId, t: TableId, accessCode: Option<string>, now: int) returns (r: Result<TableId>)
      modifies this
      ensures Step(r, Snapshot()) == Game.JoinGameTable(old(Snapshot()), user, t, accessCode, now)
    {
      if t >= |tables| { return Err(TableNotFound); }
      var g := tables[t];
      if g.status != Waiting { return Err(GameNotWaiting); }
      if g.participantCount >= g.maxPlayers { return Err(TableFull); }
      if g.isPrivate && !Game.CodeAccepted(accessCode, g.accessCode) { return Err(InvalidAccessCode); }
      var seat := FindRow(participants, user, t);
      if seat.Some? { return Err(AlreadyParticipant); }
      if user !in users { return Err(UserNotFound); }
      var u := users[user];
      if u.chipBalance < g.entryFee { return Err(InsufficientChips); }
      var debited := u.(chipBalance := u.chipBalance - g.entryFee);
      var entry := GameEntry(user, g.entryFee, EntryFee, t, u.chipBalance, debited.chipBalance, Game.EntryFeeNote());
      var row := DefaultRow(user, t, g.entryFee);
      var g' := Game.Joined(g, now);
      if !(UserValid(debited) && TransactionValid(entry) && ParticipantRowValid(row) && TableValid(g')) {
        return Err(SchemaViolation);
      }
      users := users[user := debited];
      ledger := ledger + [entry];
      participants := participants + [row];
      tables := tables[t := g'];
      r := Ok(t);
    }

    method PlaceGuess(user: UserId, t: TableId, guessType: string, guessedValue: Option<int>) returns (r: Result<nat>)
      modifies this
      ensures Step(r, Snapshot()) == Game.PlaceGuess(old(Snapshot()), user, t, guessType, guessedValue)
    {
      var kind := ParseGuessKind(guessType);
      if kind.None? { return Err(InvalidGuessType); }
      if !Game.GuessValueOk(kind.value, guessedValue) { return Err(InvalidGuessValue); }
      if t >= |tables| { return Err(TableNotFound); }
      if tables[t].status != Active { return Err(GameNotActive); }
      var first := FindRow(participants, user, t);
      if first.None? { return Err(NotParticipant); }
      var taken := FindKind(participants, user, t, kind.value);
      if taken { return Err(DuplicateGuess); }
      var i := first.value;
      var p' := Game.Guessed(participants[i], kind.value, guessedValue);
      if !ParticipantSchemaValid(p') { return Err(SchemaViolation); }
      participants := participants[i := p'];
      r := Ok(i);
    }

    /** One pass of a payout loop. */
    method PayWinner(j: nat, share: real, t: TableId)
      requires Settlement.PayableRow(Snapshot(), j)
      modifies this
      ensures Snapshot() == Settlement.PayOne(old(Snapshot()), j, share, t)
    {
      var p := participants[j];
      participants := participants[j := Settlement.Won(p, share)];
      var u := users[p.userId];
      users := users[p.userId := u.(chipBalance := u.chipBalance + share)];
      ledger := ledger + [GameEntry(p.userId, share, Win, t, u.chipBalance, u.chipBalance + share,
                                    Settlement.WinNote(p.guessType))];
    }

    /** The next pass of the loop over `ws`, from the state with the
        first `k` rows paid to the state with `k + 1` paid. */
    method PayNext(ghost s0: State, ws: seq<nat>, share: real, t: TableId, k: nat)
      requires Settlement.Payable(s0, ws) && k < |ws|
      requires Snapshot() == Settlement.PayUpTo(s0, ws, share, t, k)
      modifies this
      ensures Snapshot() == Settlement.PayUpTo(s0, ws, share, t, k + 1)
    {
      Settlement.PayStep(s0, ws, share, t, k);
      PayWinner(ws[k], share, t);
    }

    /** Pays every row of `ws` `share`, in order; answers the total paid. */
    method PayTier(ws: seq<nat>, share: real, t: TableId) returns (paid: real)
      requires Settlement.Payable(Snapshot(), ws)
      modifies this
      ensures Snapshot() == Settlement.PayTier(old(Snapshot()), ws, share, t)
      ensures paid == Settlement.Times(|ws|, share)
    {
      ghost var s0 := Snapshot();
      Settlement.PayUpToZero(s0, ws, share, t);
      paid := 0.0;
      var k := 0;
      while k < |ws|
        invariant k <= |ws|
        invariant Snapshot() == Settlement.PayUpTo(s0, ws, share, t, k)
        invariant paid == Settlement.Times(k, share)
      {
        PayNext(s0, ws, share, t, k);
        paid := paid + share;
        k := k + 1;
      }
    }

    /** The three payout loops of evaluateGame, EXACT, then CLOSE, then the
        condition tier; answers the running total of the payouts. */
    method PayAll(ghost s: State, t: TableId, n: int, ex: seq<nat>, cl: seq<nat>, co: seq<nat>,
                  se: real, sc: real, sd: real) returns (paid: real)
      requires Valid() && Snapshot() == s && t < |s.tables| && Settlement.Settleable(s, t, n)
      requires ex == Settlement.TierRows(s.participants, t, n, Settlement.ExactTier)
      requires cl == Settlement.TierRows(s.participants, t, n, Settlement.CloseTier)
      requires co == Settlement.TierRows(s.participants, t, n, Settlement.ConditionTier)
      requires se == Settlement.TierShare(s, t, n, Settlement.ExactTier)
      requires sc == Settlement.TierShare(s, t, n, Settlement.CloseTier)
      requires sd == Settlement.TierShare(s, t, n, Settlement.ConditionTier)
      modifies this
      ensures Snapshot() == Settlement.Payouts(s, t, n)
      ensures paid == Settlement.Distributed(s, t, n)
    {
      Settlement.ReadyWhenValid(s, t, n);
      var paidExact := PayTier(ex, se, t);
      assert Snapshot() == Settlement.PaidExact(s, t, n);
      var paidClose := PayTier(cl, sc, t);
      assert Snapshot() == Settlement.PaidClose(s, t, n);
      var paidCondition := PayTier(co, sd, t);
      paid := paidExact + paidClose + paidCondition;
    }

    /** The last writes of a settlement: the COMMISSION entry, if any, and
        table `t`, formerly `g`, closed with the drawn number. */
    method Close(g: GameTable, t: TableId, n: int, now: int)
      requires t < |tables|
      modifies this
      ensures Snapshot() == old(Snapshot()).(tables := old(tables)[t := Settlement.Closed(g, n, now)],
                                            ledger := old(ledger) + Settlement.CommissionEntries(g, t))
    {
      var commission := Settlement.CommissionOf(g);
      if commission > 0.0 {
        ledger := ledger + [Settlement.CommissionEntry(g.createdBy, commission, t)];
      }
      tables := tables[t := Settlement.Closed(g, n, now)];
    }

    /** The writes of a settlement that passed its guards: the payouts, the
        COMMISSION entry and the closed table. */
    method Settle(t: TableId, n: int, now: int, ex: seq<nat>, cl: seq<nat>, co: seq<nat>,
                  se: real, sc: real, sd: real) returns (r: Result<Settlement.Settlement>)
      requires Valid() && 0 <= n <= 99 && t < |tables| && tables[t].status == Active
      requires Settlement.Settleable(Snapshot(), t, n)
      requires ex == Settlement.TierRows(participants, t, n, Settlement.ExactTier)
      requires cl == Settlement.TierRows(participants, t, n, Settlement.CloseTier)
      requires co == Settlement.TierRows(participants, t, n, Settlement.ConditionTier)
      requires se == Settlement.TierShare(Snapshot(), t, n, Settlement.ExactTier)
      requires sc == Settlement.TierShare(Snapshot(), t, n, Settlement.CloseTier)
      requires sd == Settlement.TierShare(Snapshot(), t, n, Settlement.ConditionTier)
      modifies this
      ensures Step(r, Snapshot()) == Settlement.Evaluate(old(Snapshot()), t, n, now)
    {
      ghost var s := Snapshot();
      var g := tables[t];
      var commission := Settlement.CommissionOf(g);
      var distributed := PayAll(s, t, n, ex, cl, co, se, sc, sd);
      Close(g, t, n, now);
      r := Ok(Settlement.Settlement(n, |ex|, |cl|, |co|, distributed, commission));
      Settlement.EvaluateCommits(s, t, n, now);
    }

    /** evaluateGame: `n` stands for the drawn number and `now` for the clock. */
    method Evaluate(t: TableId, n: int, now: int) returns (r: Result<Settlement.Settlement>)
      requires Valid() && 0 <= n <= 99
      modifies this
      ensures Step(r, Snapshot()) == Settlement.Evaluate(old(Snapshot()), t, n, now)
    {
      if t >= |tables| { return Err(TableNotFound); }
      var g := tables[t];
      if g.status != Active { return Err(GameNotActive); }
      var ex, cl, co := Classify(participants, t, n);
      if !(Settlement.UsersPresent(Snapshot(), ex) && Settlement.UsersPresent(Snapshot(), cl)
           && Settlement.UsersPresent(Snapshot(), co)) {
        return Err(UserNotFound);
      }
      var remaining := Settlement.RemainingPot(g);
      var se := Settlement.Share(remaining, Settlement.ExactFraction, |ex|);
      var sc := Settlement.Share(remaining, Settlement.CloseFraction, |cl|);
      var sd := Settlement.Share(remaining, Settlement.ConditionFraction, |co|);
      if !Settlement.AmountsValid(|ex|, se, |cl|, sc, |co|, sd, Settlement.CommissionOf(g)) {
        return Err(SchemaViolation);
      }
      r := Settle(t, n, now, ex, cl, co, se, sc, sd);
    }

    // -------------------------------------------------------------------
    // walletController
    // -------------------------------------------------------------------

    method Buy(user: UserId, amount: Option<real>, paymentMethod: Option<string>, paymentId: Option<string>)
      returns (r: Result<TxId>)
      modifies this
      ensures Step(r, Snapshot()) == Wallet.Buy(old(Snapshot()), user, amount, paymentMethod, paymentId)
    {
      if !Wallet.AmountGiven(amount) { return Err(InvalidAmount); }
      if user !in users { return Err(UserNotFound); }
      var a := amount.value;
      var u := users[user];
      var pay := ParsePaymentMethod(Wallet.MethodOr(paymentMethod));
      if pay.None? { return Err(SchemaViolation); }
      var entry := Wallet.PurchaseEntry(user, a, pay.value, paymentId, u.chipBalance);
      var credited := u.(chipBalance := u.chipBalance + a);
      if !(TransactionValid(entry) && UserValid(credited)) { return Err(SchemaViolation); }
      r := Ok(|ledger|);
      ledger := ledger + [entry];
      users := users[user := credited];
    }

    method Sell(user: UserId, amount: Option<real>) returns (r: Result<TxId>)
      modifies this
      ensures Step(r, Snapshot()) == Wallet.Sell(old(Snapshot()), user, amount)
    {
      if !Wallet.AmountGiven(amount) { return Err(InvalidAmount); }
      if user !in users { return Err(UserNotFound); }
      var a := amount.value;
      var u := users[user];
      if u.chipBalance < a { return Err(InsufficientChips); }
      var entry := Wallet.SellEntry(user, a, u.chipBalance);
      var debited := u.(chipBalance := u.chipBalance - a);
      if !(TransactionValid(entry) && UserValid(debited)) { return Err(SchemaViolation); }
      r := Ok(|ledger|);
      ledger := ledger + [entry];
      users := users[user := debited];
    }

    method ApproveChipSell(admin: UserId, id: TxId, now: int) returns (r: Result<TxId>)
      modifies this
      ensures Step(r, Snapshot()) == Wallet.ApproveChipSell(old(Snapshot()), admin, id, now)
    {
      var found := Wallet.Decidable(Snapshot(), id);
      if found.Err? { return Err(found.error); }
      var x := found.value;
      var u := users[x.userId];
      var done := x.(status := TxCompleted, approvedBy := Some(admin), approvedAt := Some(now));
      var paid := u.(walletBalance := u.walletBalance + x.amount);
      if !(TransactionValid(done) && UserValid(paid)) { return Err(SchemaViolation); }
      ledger := ledger[id := done];
      users := users[x.userId := paid];
      logs := logs + [TransactionApprove(admin, id, x.userId, x.amount, x.txType)];
      r := Ok(id);
    }

    method RejectChipSell(admin: UserId, id: TxId, reason: Option<string>) returns (r: Result<TxId>)
      modifies this
      ensures Step(r, Snapshot()) == Wallet.RejectChipSell(old(Snapshot()), admin, id, reason)
    {
      var found := Wallet.Decidable(Snapshot(), id);
      if found.Err? { return Err(found.error); }
      var x := found.value;
      var u := users[x.userId];
      var cancelled := x.(status := Cancelled, description := x.description + Wallet.RejectNote(reason));
      var refunded := u.(chipBalance := u.chipBalance + x.amount);
      if !(TransactionValid(cancelled) && UserValid(refunded)) { return Err(SchemaViolation); }
      ledger := ledger[id := cancelled];
      users := users[x.userId := refunded];
      logs := logs + [TransactionReject(admin, id, x.userId, x.amount, x.txType, reason)];
      r := Ok(id);
    }

    // -------------------------------------------------------------------
    // adminController
    // -------------------------------------------------------------------

    /** updateUser as one unit of work: nothing is written unless every
        write passes its schema. */
    method UpdateUser(admin: UserId, target: UserId, p: Admin.UserPatch, at: int) returns (r: Result<User>)
      modifies this
      ensures Step(r, Snapshot()) == Admin.UpdateUser(old(Snapshot()), admin, target, p, at)
    {
      if target !in users { return Err(UserNotFound); }
      var u := users[target];
      var ce := Admin.ChipEntry(target, u, p, admin, at);
      var we := Admin.WalletEntry(target, u, p, admin, at);
      if !(Admin.EntriesValid(ce) && Admin.EntriesValid(we) && UserValid(Admin.Patched(u, p)) && Admin.RoleOk(p)) {
        return Err(SchemaViolation);
      }
      ledger := ledger + ce;
      ledger := ledger + we;
      var u' := Admin.Patched(u, p);
      users := users[target := u'];
      logs := logs + [Admin.UpdateRecord(admin, target, u, p)];
      r := Ok(u');
    }
  }
}
