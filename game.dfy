/** Table lifecycle: creating a table, joining it and placing a guess.
    Each operation is one unit of work: it either answers Ok with every
    write applied, or answers Err and leaves the state exactly as it was. */
module Game {
  import opened Records
  import opened Database

  /** JavaScript's `x || d` on an optional number: absent and 0 are falsy. */
  function IntOr(x: Option<int>, d: int): int {
    if x.Some? && x.value != 0 then x.value else d
  }

  function RealOr(x: Option<real>, d: real): real {
    if x.Some? && x.value != 0.0 then x.value else d
  }

  /** Only `who`'s chip balance changed, and to `chips`. */
  predicate ChipsMovedTo(before: map<UserId, User>, after: map<UserId, User>, who: UserId, chips: real)
    requires who in before
  {
    after == before[who := before[who].(chipBalance := chips)]
  }

  /** `after` is `before` with exactly one entry appended, which records an
      entry fee of `fee` paid by `who` for table `table`, taking the
      balance from `was` to `was - fee`. */
  predicate EntryFeeRecorded(before: seq<Transaction>, after: seq<Transaction>, who: UserId,
                             fee: real, table: TableId, was: real)
  {
    && |after| == |before| + 1
    && after[..|before|] == before
    && var x := after[|before|];
    && x.txType == EntryFee && x.status == TxCompleted && x.isChipTransaction
    && x.userId == who && x.amount == fee && x.gameTableId == Some(table)
    && x.balanceBefore == Some(was) && x.balanceAfter == Some(was - fee)
    && x.balanceBefore.value - x.balanceAfter.value == fee
  }

  function EntryFeeNote(): string { "Entry fee for game table" }

  // ---------------------------------------------------------------------
  // createGameTable
  // ---------------------------------------------------------------------

  /** The table a successful create stores. */
  function OpenedTable(creator: UserId, fee: real, minPlayers: Option<int>, maxPlayers: Option<int>,
                       isPrivate: bool, commissionRate: Option<real>, code: string): GameTable
  {
    var t := NewTable(fee, creator).(
      minPlayers := IntOr(minPlayers, 2),
      maxPlayers := IntOr(maxPlayers, 10),
      isPrivate := isPrivate,
      accessCode := if isPrivate then Some(code) else None,
      commissionRate := RealOr(commissionRate, 5.0));
    t.(potAmount := t.potAmount + fee, participantCount := t.participantCount + 1)
  }

  /** The schema checks that the writes of a create pass: the table, the
      debited creator, the entry fee entry and the participant row. */
  predicate CreateWritesValid(creator: User, fee: real, minPlayers: Option<int>, maxPlayers: Option<int>,
                              commissionRate: Option<real>)
  {
    && IntOr(minPlayers, 2) >= 2
    && IntOr(maxPlayers, 10) <= 20
    && 0.0 <= RealOr(commissionRate, 5.0) <= 20.0
    && fee >= 1.0
    && UserValid(creator.(chipBalance := creator.chipBalance - fee))
  }

  /** `code` stands for the random access code drawn for a private table. */
  function CreateGameTable(s: State, creator: UserId, entryFee: Option<real>, minPlayers: Option<int>,
                           maxPlayers: Option<int>, isPrivate: bool, commissionRate: Option<real>,
                           code: string): (o: Step<TableId>)
    ensures o.result.Err? ==> o.next == s
    ensures entryFee.None? || entryFee.value <= 0.0 ==> o.result == Err(InvalidEntryFee)
    ensures entryFee.Some? && entryFee.value > 0.0 && creator !in s.users ==> o.result == Err(UserNotFound)
    ensures entryFee.Some? && creator in s.users && s.users[creator].chipBalance < entryFee.value ==>
              o.result.Err?
    ensures o.result.Ok? <==>
              && entryFee.Some? && entryFee.value > 0.0 && creator in s.users
              && s.users[creator].chipBalance >= entryFee.value
              && CreateWritesValid(s.users[creator], entryFee.value, minPlayers, maxPlayers, commissionRate)
    ensures o.result.Ok? ==>
              var fee := entryFee.value;
              var id := o.result.value;
              var was := s.users[creator].chipBalance;
              && id == |s.tables|
              && ChipsMovedTo(s.users, o.next.users, creator, was - fee)
              && |o.next.tables| == |s.tables| + 1 && o.next.tables[..id] == s.tables
              && var t := o.next.tables[id];
              && t.status == Waiting && t.potAmount == fee && t.participantCount == 1
              && t.entryFee == fee && t.createdBy == creator && t.commissionAmount == 0.0
              && t.minPlayers == (if minPlayers.Some? && minPlayers.value != 0 then minPlayers.value else 2)
              && t.maxPlayers == (if maxPlayers.Some? && maxPlayers.value != 0 then maxPlayers.value else 10)
              && t.commissionRate == (if commissionRate.Some? && commissionRate.value != 0.0
                                      then commissionRate.value else 5.0)
              && t.isPrivate == isPrivate
              && (isPrivate ==> t.accessCode == Some(code)) && (!isPrivate ==> t.accessCode.None?)
              && t.generatedNumber.None?
              && o.next.participants == s.participants + [DefaultRow(creator, id, fee)]
              && EntryFeeRecorded(s.ledger, o.next.ledger, creator, fee, id, was)
              && o.next.logs == s.logs
  {
    if entryFee.None? || entryFee.value <= 0.0 then Step(Err(InvalidEntryFee), s)
    else if creator !in s.users then Step(Err(UserNotFound), s)
    else if s.users[creator].chipBalance < entryFee.value then Step(Err(InsufficientChips), s)
    else
      var fee := entryFee.value;
      var user := s.users[creator];
      var id := |s.tables|;
      var table := OpenedTable(creator, fee, minPlayers, maxPlayers, isPrivate, commissionRate, code);
      var debited := user.(chipBalance := user.chipBalance - fee);
      var entry := GameEntry(creator, fee, EntryFee, id, user.chipBalance, debited.chipBalance, EntryFeeNote());
      var row := DefaultRow(creator, id, fee);
      if !(TableValid(table) && UserValid(debited) && TransactionValid(entry) && ParticipantRowValid(row)) then
        Step(Err(SchemaViolation), s)
      else
        Step(Ok(id), s.(users := s.users[creator := debited], tables := s.tables + [table],
                        participants := s.participants + [row], ledger := s.ledger + [entry]))
  }

  /** Create as the controller is written: the participant row it stores
      for the creator is an EXACT guess without a value, which the
      participant schema refuses, so the session aborts after the guards
      and the other writes have passed: no create succeeds. */
  function CreateGameTableAsWritten(s: State, creator: UserId, entryFee: Option<real>, minPlayers: Option<int>,
                                    maxPlayers: Option<int>, isPrivate: bool, commissionRate: Option<real>,
                                    code: string): (o: Step<TableId>)
    ensures o.result.Err? && o.next == s
    ensures CreateGameTable(s, creator, entryFee, minPlayers, maxPlayers, isPrivate, commissionRate, code).result.Ok? ==>
              o.result == Err(SchemaViolation)
    ensures CreateGameTable(s, creator, entryFee, minPlayers, maxPlayers, isPrivate, commissionRate, code).result.Err? ==>
              o == CreateGameTable(s, creator, entryFee, minPlayers, maxPlayers, isPrivate, commissionRate, code)
  {
    var c := CreateGameTable(s, creator, entryFee, minPlayers, maxPlayers, isPrivate, commissionRate, code);
    if c.result.Err? then c
    else if !ParticipantSchemaValid(DefaultRow(creator, |s.tables|, entryFee.value)) then Step(Err(SchemaViolation), s)
    else c
  }

  lemma CreatePreservesValid(s: State, creator: UserId, entryFee: Option<real>, minPlayers: Option<int>,
                             maxPlayers: Option<int>, isPrivate: bool, commissionRate: Option<real>, code: string)
    requires Valid(s)
    ensures Valid(CreateGameTable(s, creator, entryFee, minPlayers, maxPlayers, isPrivate, commissionRate, code).next)
  {
    var o := CreateGameTable(s, creator, entryFee, minPlayers, maxPlayers, isPrivate, commissionRate, code);
    if o.result.Ok? {
      var n := |s.tables|;
      assert OneSeatEach(o.next.participants) by {
        forall i, j | 0 <= i < j < |o.next.participants|
          ensures !SameSeat(o.next.participants[i], o.next.participants[j])
        {
          if j == |s.participants| {
            assert o.next.participants[j].gameTableId == n;
            assert o.next.participants[i] == s.participants[i];
          }
        }
      }
    }
  }

  /** Create moves the entry fee from the creator's balance into the new
      table's pot: the chips in circulation do not change. */
  lemma CreateConserves(s: State, creator: UserId, entryFee: Option<real>, minPlayers: Option<int>,
                        maxPlayers: Option<int>, isPrivate: bool, commissionRate: Option<real>, code: string)
    ensures Circulation(CreateGameTable(s, creator, entryFee, minPlayers, maxPlayers, isPrivate,
                                        commissionRate, code).next) == Circulation(s)
  {
    var o := CreateGameTable(s, creator, entryFee, minPlayers, maxPlayers, isPrivate, commissionRate, code);
    if o.result.Ok? {
      var fee := entryFee.value;
      var user := s.users[creator];
      SumChipsUpdate(s.users, creator, user.(chipBalance := user.chipBalance - fee));
      var t := OpenedTable(creator, fee, minPlayers, maxPlayers, isPrivate, commissionRate, code);
      OpenPotsAppend(s.tables, t);
    }
  }

  // ---------------------------------------------------------------------
  // joinGameTable
  // ---------------------------------------------------------------------

  /** The access code check of a private table: a missing or empty code,
      or one that differs from the stored one, is refused. */
  predicate CodeAccepted(given: Option<string>, stored: Option<string>) {
    given.Some? && given.value != "" && stored == Some(given.value)
  }

  /** The table after one more player paid `entryFee` into its pot; it
      starts once the count reaches `minPlayers`. `now` is the clock. */
  function Joined(g: GameTable, now: int): GameTable {
    var grown := g.(potAmount := g.potAmount + g.entryFee, participantCount := g.participantCount + 1);
    if grown.participantCount >= grown.minPlayers then grown.(status := Active, startTime := Some(now))
    else grown
  }

  /** The guards of join, in the order the controller applies them. */
  predicate JoinAllowed(s: State, user: UserId, t: TableId, accessCode: Option<string>) {
    && t < |s.tables|
    && s.tables[t].status == Waiting
    && s.tables[t].participantCount < s.tables[t].maxPlayers
    && (s.tables[t].isPrivate ==> CodeAccepted(accessCode, s.tables[t].accessCode))
    && !HasRow(s.participants, user, t)
    && user in s.users
    && s.users[user].chipBalance >= s.tables[t].entryFee
  }

  /** The schema checks that the writes of a join pass: the debited user,
      the entry fee entry, the participant row and the grown table. */
  predicate JoinWritesValid(u: User, g: GameTable, now: int) {
    && UserValid(u.(chipBalance := u.chipBalance - g.entryFee))
    && g.entryFee >= 1.0
    && TableValid(Joined(g, now))
  }

  function JoinGameTable(s: State, user: UserId, t: TableId, accessCode: Option<string>, now: int): (o: Step<TableId>)
    ensures o.result.Err? ==> o.next == s
    ensures o.result.Ok? <==>
              JoinAllowed(s, user, t, accessCode) && JoinWritesValid(s.users[user], s.tables[t], now)
    ensures t >= |s.tables| ==> o.result == Err(TableNotFound)
    ensures t < |s.tables| && s.tables[t].status != Waiting ==> o.result == Err(GameNotWaiting)
    ensures t < |s.tables| && s.tables[t].participantCount >= s.tables[t].maxPlayers ==> o.result.Err?
    ensures t < |s.tables| && s.tables[t].isPrivate && !CodeAccepted(accessCode, s.tables[t].accessCode) ==>
              o.result.Err?
    ensures HasRow(s.participants, user, t) ==> o.result.Err?
    ensures t < |s.tables| && user in s.users && s.users[user].chipBalance < s.tables[t].entryFee ==>
              o.result.Err?
    ensures o.result.Ok? ==> JoinAllowed(s, user, t, accessCode) && o.result.value == t
    ensures o.result.Ok? && JoinAllowed(s, user, t, accessCode) ==>
              var g := s.tables[t];
              var was := s.users[user].chipBalance;
              && ChipsMovedTo(s.users, o.next.users, user, was - g.entryFee)
              && |o.next.tables| == |s.tables|
              && (forall i :: 0 <= i < |s.tables| && i != t ==> o.next.tables[i] == s.tables[i])
              && var g' := o.next.tables[t];
              && g'.potAmount == g.potAmount + g.entryFee
              && g'.participantCount == g.participantCount + 1
              && (was - o.next.users[user].chipBalance == g'.potAmount - g.potAmount)
              && (g'.status == Active <==> g.participantCount + 1 >= g.minPlayers)
              && (g'.status == Waiting <==> g.participantCount + 1 < g.minPlayers)
              && (g'.status == Active ==> g'.startTime == Some(now))
              && (g'.status == Waiting ==> g'.startTime == g.startTime)
              && g'.entryFee == g.entryFee && g'.minPlayers == g.minPlayers && g'.maxPlayers == g.maxPlayers
              && g'.commissionRate == g.commissionRate && g'.createdBy == g.createdBy
              && g'.isPrivate == g.isPrivate && g'.accessCode == g.accessCode
              && g'.generatedNumber == g.generatedNumber
              && o.next.participants == s.participants + [DefaultRow(user, t, g.entryFee)]
              && EntryFeeRecorded(s.ledger, o.next.ledger, user, g.entryFee, t, was)
              && o.next.logs == s.logs
  {
    if t >= |s.tables| then Step(Err(TableNotFound), s)
    else
      var g := s.tables[t];
      if g.status != Waiting then Step(Err(GameNotWaiting), s)
      else if g.participantCount >= g.maxPlayers then Step(Err(TableFull), s)
      else if g.isPrivate && !CodeAccepted(accessCode, g.accessCode) then Step(Err(InvalidAccessCode), s)
      else if HasRow(s.participants, user, t) then Step(Err(AlreadyParticipant), s)
      else if user !in s.users then Step(Err(UserNotFound), s)
      else if s.users[user].chipBalance < g.entryFee then Step(Err(InsufficientChips), s)
      else
        var u := s.users[user];
        var debited := u.(chipBalance := u.chipBalance - g.entryFee);
        var entry := GameEntry(user, g.entryFee, EntryFee, t, u.chipBalance, debited.chipBalance, EntryFeeNote());
        var row := DefaultRow(user, t, g.entryFee);
        var g' := Joined(g, now);
        if !(UserValid(debited) && TransactionValid(entry) && ParticipantRowValid(row) && TableValid(g')) then
          Step(Err(SchemaViolation), s)
        else
          Step(Ok(t), s.(users := s.users[user := debited], tables := s.tables[t := g'],
                         participants := s.participants + [row], ledger := s.ledger + [entry]))
  }

  /** Join as the controller is written: like create, it stores an EXACT
      row without a value, which the participant schema refuses, so no join
      succeeds. */
  function JoinGameTableAsWritten(s: State, user: UserId, t: TableId, accessCode: Option<string>,
                                  now: int): (o: Step<TableId>)
    ensures o.result.Err? && o.next == s
    ensures JoinGameTable(s, user, t, accessCode, now).result.Ok? ==> o.result == Err(SchemaViolation)
    ensures JoinGameTable(s, user, t, accessCode, now).result.Err? ==>
              o == JoinGameTable(s, user, t, accessCode, now)
  {
    var c := JoinGameTable(s, user, t, accessCode, now);
    if c.result.Err? then c
    else if !ParticipantSchemaValid(DefaultRow(user, t, s.tables[t].entryFee)) then Step(Err(SchemaViolation), s)
    else c
  }

  lemma JoinPreservesValid(s: State, user: UserId, t: TableId, accessCode: Option<string>, now: int)
    requires Valid(s)
    ensures Valid(JoinGameTable(s, user, t, accessCode, now).next)
  {
    var o := JoinGameTable(s, user, t, accessCode, now);
    if o.result.Ok? {
      assert OneSeatEach(o.next.participants) by {
        forall i, j | 0 <= i < j < |o.next.participants|
          ensures !SameSeat(o.next.participants[i], o.next.participants[j])
        {
          if j == |s.participants| {
            assert o.next.participants[i] == s.participants[i];
            assert !SeatOf(s.participants[i], user, t);
          }
        }
      }
    }
  }

  /** The joining user's loss is the pot's gain: the chips in circulation
      do not change. */
  lemma JoinConserves(s: State, user: UserId, t: TableId, accessCode: Option<string>, now: int)
    ensures Circulation(JoinGameTable(s, user, t, accessCode, now).next) == Circulation(s)
  {
    var o := JoinGameTable(s, user, t, accessCode, now);
    if o.result.Ok? {
      var g := s.tables[t];
      var u := s.users[user];
      SumChipsUpdate(s.users, user, u.(chipBalance := u.chipBalance - g.entryFee));
      OpenPotsUpdate(s.tables, t, Joined(g, now));
    }
  }

  // ---------------------------------------------------------------------
  // placeGuess
  // ---------------------------------------------------------------------

  /** The guessed value check: EXACT and CLOSE need a value in 0..99. */
  predicate GuessValueOk(kind: GuessKind, value: Option<int>) {
    ValueRequired(kind) ==> value.Some? && 0 <= value.value <= 99
  }

  /** The caller's row after the guess: the kind, and for EXACT and CLOSE
      the value, are overwritten; everything else is kept. */
  function Guessed(p: Participant, kind: GuessKind, value: Option<int>): Participant {
    p.(guessType := kind, guessedValue := if ValueRequired(kind) then value else p.guessedValue)
  }

  /** `guessType` is the raw request field; only the six kind names pass. */
  function PlaceGuess(s: State, user: UserId, t: TableId, guessType: string, guessedValue: Option<int>): (o: Step<nat>)
    ensures o.result.Err? ==> o.next == s
    ensures ParseGuessKind(guessType).None? ==> o.result == Err(InvalidGuessType)
    ensures ParseGuessKind(guessType).Some? && !GuessValueOk(ParseGuessKind(guessType).value, guessedValue) ==>
              o.result == Err(InvalidGuessValue)
    ensures t < |s.tables| && s.tables[t].status != Active ==> o.result.Err?
    ensures !HasRow(s.participants, user, t) ==> o.result.Err?
    ensures ParseGuessKind(guessType).Some? && HasKind(s.participants, user, t, ParseGuessKind(guessType).value) ==>
              o.result.Err?
    ensures o.result.Ok? ==>
              var kind := ParseGuessKind(guessType).value;
              var i := o.result.value;
              && GuessValueOk(kind, guessedValue)
              && t < |s.tables| && s.tables[t].status == Active
              && !HasKind(s.participants, user, t, kind)
              && i < |s.participants| && SeatOf(s.participants[i], user, t)
              && (forall j :: 0 <= j < i ==> !SeatOf(s.participants[j], user, t))
              && |o.next.participants| == |s.participants|
              && (forall j :: 0 <= j < |s.participants| && j != i ==> o.next.participants[j] == s.participants[j])
              && var p, p' := s.participants[i], o.next.participants[i];
              && p'.guessType == kind
              && p'.guessedValue == (if kind == Exact || kind == Close then guessedValue else p.guessedValue)
              && p'.userId == p.userId && p'.gameTableId == p.gameTableId && p'.chipsBet == p.chipsBet
              && p'.winAmount == p.winAmount && p'.isWinner == p.isWinner
              && p'.payoutMultiplier == p.payoutMultiplier
              && o.next.users == s.users && o.next.tables == s.tables
              && o.next.ledger == s.ledger && o.next.logs == s.logs
  {
    var kind := ParseGuessKind(guessType);
    if kind.None? then Step(Err(InvalidGuessType), s)
    else if !GuessValueOk(kind.value, guessedValue) then Step(Err(InvalidGuessValue), s)
    else if t >= |s.tables| then Step(Err(TableNotFound), s)
    else if s.tables[t].status != Active then Step(Err(GameNotActive), s)
    else
      var first := FirstRow(s.participants, user, t, 0);
      if first.None? then Step(Err(NotParticipant), s)
      else if HasKind(s.participants, user, t, kind.value) then Step(Err(DuplicateGuess), s)
      else
        var i := first.value;
        var p' := Guessed(s.participants[i], kind.value, guessedValue);
        if !ParticipantSchemaValid(p') then Step(Err(SchemaViolation), s)
        else Step(Ok(i), s.(participants := s.participants[i := p']))
  }

  /** A successful guess leaves the caller's row meeting the whole
      participant schema, the conditional value requirement included. */
  lemma GuessedRowMeetsSchema(s: State, user: UserId, t: TableId, guessType: string, guessedValue: Option<int>)
    requires Valid(s)
    requires PlaceGuess(s, user, t, guessType, guessedValue).result.Ok?
    ensures var o := PlaceGuess(s, user, t, guessType, guessedValue);
            ParticipantSchemaValid(o.next.participants[o.result.value])
  {
  }

  lemma GuessPreservesValid(s: State, user: UserId, t: TableId, guessType: string, guessedValue: Option<int>)
    requires Valid(s)
    ensures Valid(PlaceGuess(s, user, t, guessType, guessedValue).next)
  {
    var o := PlaceGuess(s, user, t, guessType, guessedValue);
    if o.result.Ok? {
      var i := o.result.value;
      assert forall j :: 0 <= j < |s.participants| ==> SameSeat(o.next.participants[j], s.participants[j]);
    }
  }

  /** In a valid state every user holds one row per table, so a guess of
      the kind that row already has is refused as a duplicate. With the
      default row inserted by create and join this means that EXACT can
      never be placed by a player who has not guessed yet. */
  lemma SameKindIsDuplicate(s: State, user: UserId, t: TableId, i: nat, value: Option<int>)
    requires Valid(s) && i < |s.participants| && SeatOf(s.participants[i], user, t)
    requires GuessValueOk(s.participants[i].guessType, value)
    requires t < |s.tables| && s.tables[t].status == Active
    ensures PlaceGuess(s, user, t, KindName(s.participants[i].guessType), value)
              == Step(Err(DuplicateGuess), s)
  {
    var kind := s.participants[i].guessType;
    ParseKindName(kind);
    FirstRowIsOnlyRow(s.participants, user, t);
  }

  /** Row `i` is the default row of a player who has not guessed. */
  lemma FreshPlayerCannotGuessExact(s: State, user: UserId, t: TableId, i: nat, value: int)
    requires Valid(s) && i < |s.participants|
    requires s.participants[i] == DefaultRow(user, t, s.participants[i].chipsBet)
    requires 0 <= value <= 99
    requires t < |s.tables| && s.tables[t].status == Active
    ensures PlaceGuess(s, user, t, "EXACT", Some(value)) == Step(Err(DuplicateGuess), s)
  {
    SameKindIsDuplicate(s, user, t, i, Some(value));
  }

  /** Repeating a successful guess is refused: at most one row per
      (userId, gameTableId, guessType) results. */
  lemma RepeatedGuessIsDuplicate(s: State, user: UserId, t: TableId, guessType: string, guessedValue: Option<int>)
    requires Valid(s)
    requires PlaceGuess(s, user, t, guessType, guessedValue).result.Ok?
    ensures var s' := PlaceGuess(s, user, t, guessType, guessedValue).next;
            PlaceGuess(s', user, t, guessType, guessedValue) == Step(Err(DuplicateGuess), s')
  {
    var o := PlaceGuess(s, user, t, guessType, guessedValue);
    var i := o.result.value;
    GuessPreservesValid(s, user, t, guessType, guessedValue);
    SameKindIsDuplicate(o.next, user, t, i, guessedValue);
  }

  /** A different kind from the row's current one is accepted, so a player
      can move off the default EXACT row to any other kind. */
  lemma OtherKindIsAccepted(s: State, user: UserId, t: TableId, i: nat, kind: GuessKind, value: Option<int>)
    requires Valid(s) && i < |s.participants| && SeatOf(s.participants[i], user, t)
    requires kind != s.participants[i].guessType && GuessValueOk(kind, value)
    requires t < |s.tables| && s.tables[t].status == Active
    ensures PlaceGuess(s, user, t, KindName(kind), value).result == Ok(i)
  {
    ParseKindName(kind);
    FirstRowIsOnlyRow(s.participants, user, t);
  }
}
