/** The whole persistent state the controllers act on, the errors they
    answer with, the store invariant, and the chip total used to state
    conservation. A record's identity is its key (users) or its position
    (tables, participants, ledger entries, audit log entries). */
module Database {
  import opened Records

  datatype UserSnapshot = UserSnapshot(
    username: string, email: string, isActive: bool, role: Role,
    chipBalance: real, walletBalance: real)

  function Snap(u: User): UserSnapshot {
    UserSnapshot(u.username, u.email, u.isActive, u.role, u.chipBalance, u.walletBalance)
  }

  /** The audit records written by the admin operations in this model. */
  datatype AdminLog =
    | TransactionApprove(actor: UserId, transaction: TxId, user: UserId, amount: real, txType: TxType)
    | TransactionReject(actor: UserId, transaction: TxId, user: UserId, amount: real, txType: TxType,
                        reason: Option<string>)
    | UserUpdate(actor: UserId, target: UserId, original: UserSnapshot, updated: UserSnapshot,
                 chipBalanceChanged: bool, walletBalanceChanged: bool)

  datatype State = State(
    users: map<UserId, User>,
    tables: seq<GameTable>,
    participants: seq<Participant>,
    ledger: seq<Transaction>,
    logs: seq<AdminLog>)

  /** One constructor per distinct failure answer of the controllers. */
  datatype Error =
    | InvalidEntryFee      // create: fee missing or not positive
    | UserNotFound
    | InsufficientChips
    | TableNotFound
    | GameNotWaiting       // join: the game has already started or ended
    | TableFull
    | InvalidAccessCode
    | AlreadyParticipant
    | InvalidGuessType
    | InvalidGuessValue
    | GameNotActive
    | NotParticipant
    | DuplicateGuess
    | InvalidAmount        // wallet: amount missing or not positive
    | TransactionNotFound
    | NotSellRequest
    | NotPending
    | SchemaViolation      // a record to be written breaks its schema; the unit of work is discarded

  datatype Result<+T> = Ok(value: T) | Err(error: Error)

  /** What an operation answers, and the state it leaves behind. */
  datatype Step<+T> = Step(result: Result<T>, next: State)

  // ---------------------------------------------------------------------
  // The store invariant
  // ---------------------------------------------------------------------

  predicate SameSeat(p: Participant, q: Participant) {
    p.userId == q.userId && p.gameTableId == q.gameTableId
  }

  /** The unique (userId, gameTableId, guessType) index. */
  predicate UniqueGuessKeys(ps: seq<Participant>) {
    forall i, j :: 0 <= i < j < |ps| ==> !(SameSeat(ps[i], ps[j]) && ps[i].guessType == ps[j].guessType)
  }

  /** What the controllers keep beyond the index: a user holds at most one
      row per table, because join refuses a second one and a guess rewrites
      the existing row. */
  predicate OneSeatEach(ps: seq<Participant>) {
    forall i, j :: 0 <= i < j < |ps| ==> !SameSeat(ps[i], ps[j])
  }

  lemma OneSeatGivesUniqueKeys(ps: seq<Participant>)
    requires OneSeatEach(ps)
    ensures UniqueGuessKeys(ps)
  {
  }

  ghost predicate UsersValid(users: map<UserId, User>) {
    forall u :: u in users ==> UserValid(users[u])
  }

  ghost predicate TablesValid(tables: seq<GameTable>) {
    forall i :: 0 <= i < |tables| ==> TableValid(tables[i])
  }

  /** Rows satisfy their schema and name a table that exists. */
  ghost predicate RowsValid(ps: seq<Participant>, tableCount: nat) {
    forall i :: 0 <= i < |ps| ==> ParticipantRowValid(ps[i]) && ps[i].gameTableId < tableCount
  }

  ghost predicate LedgerValid(ledger: seq<Transaction>) {
    forall i :: 0 <= i < |ledger| ==> TransactionValid(ledger[i])
  }

  /** Every stored record satisfies its schema (rows: without the
      conditional value requirement), every row names an existing table and
      seats are unique. */
  ghost predicate Valid(s: State) {
    && UsersValid(s.users)
    && TablesValid(s.tables)
    && RowsValid(s.participants, |s.tables|)
    && OneSeatEach(s.participants)
    && LedgerValid(s.ledger)
  }

  lemma ValidAppendEntry(ledger: seq<Transaction>, x: Transaction)
    requires LedgerValid(ledger) && TransactionValid(x)
    ensures LedgerValid(ledger + [x])
  {
  }

  // ---------------------------------------------------------------------
  // Queries on participant rows
  // ---------------------------------------------------------------------

  predicate SeatOf(p: Participant, user: UserId, table: TableId) {
    p.userId == user && p.gameTableId == table
  }

  /** Some row of `user` on `table` exists (any guess kind). */
  predicate HasRow(ps: seq<Participant>, user: UserId, table: TableId) {
    exists i :: 0 <= i < |ps| && SeatOf(ps[i], user, table)
  }

  /** Some row of `user` on `table` with guess kind `kind` exists. */
  predicate HasKind(ps: seq<Participant>, user: UserId, table: TableId, kind: GuessKind) {
    exists i :: 0 <= i < |ps| && SeatOf(ps[i], user, table) && ps[i].guessType == kind
  }

  /** The first row of `user` on `table` at or after position `from`, as a
      find-one query returns it. */
  function FirstRow(ps: seq<Participant>, user: UserId, table: TableId, from: nat): (r: Option<nat>)
    requires from <= |ps|
    ensures r.Some? ==> from <= r.value < |ps| && SeatOf(ps[r.value], user, table)
    ensures r.Some? ==> forall j :: from <= j < r.value ==> !SeatOf(ps[j], user, table)
    ensures r.None? ==> forall j :: from <= j < |ps| ==> !SeatOf(ps[j], user, table)
    decreases |ps| - from
  {
    if from == |ps| then None
    else if SeatOf(ps[from], user, table) then Some(from)
    else FirstRow(ps, user, table, from + 1)
  }

  lemma FirstRowIsOnlyRow(ps: seq<Participant>, user: UserId, table: TableId)
    requires OneSeatEach(ps)
    ensures FirstRow(ps, user, table, 0).Some? <==> HasRow(ps, user, table)
    ensures FirstRow(ps, user, table, 0).Some? ==>
              var i := FirstRow(ps, user, table, 0).value;
              forall j :: 0 <= j < |ps| && SeatOf(ps[j], user, table) ==> j == i
  {
  }

  // ---------------------------------------------------------------------
  // Chips in circulation: balances plus the pots of unsettled tables
  // ---------------------------------------------------------------------

  ghost function SumChipsOver(users: map<UserId, User>, keys: set<UserId>): real
    requires keys <= users.Keys
    decreases keys
  {
    if keys == {} then 0.0
    else
      var k :| k in keys;
      users[k].chipBalance + SumChipsOver(users, keys - {k})
  }

  ghost function SumChips(users: map<UserId, User>): real {
    SumChipsOver(users, users.Keys)
  }

  /** The sum does not depend on which key is taken out first. */
  lemma {:induction false} SumChipsRemove(users: map<UserId, User>, keys: set<UserId>, k: UserId)
    requires keys <= users.Keys && k in keys
    ensures SumChipsOver(users, keys) == users[k].chipBalance + SumChipsOver(users, keys - {k})
    decreases keys
  {
    var j :| j in keys && SumChipsOver(users, keys) == users[j].chipBalance + SumChipsOver(users, keys - {j});
    if j != k {
      SumChipsRemove(users, keys - {j}, k);
      SumChipsRemove(users, keys - {k}, j);
      assert keys - {j} - {k} == keys - {k} - {j};
    }
  }

  lemma {:induction false} SumChipsAgree(a: map<UserId, User>, b: map<UserId, User>, keys: set<UserId>)
    requires keys <= a.Keys && keys <= b.Keys
    requires forall k :: k in keys ==> a[k].chipBalance == b[k].chipBalance
    ensures SumChipsOver(a, keys) == SumChipsOver(b, keys)
    decreases keys
  {
    if keys != {} {
      var k :| k in keys;
      SumChipsRemove(a, keys, k);
      SumChipsRemove(b, keys, k);
      SumChipsAgree(a, b, keys - {k});
    }
  }

  /** Changing one balance by `delta` changes the sum of balances by `delta`. */
  lemma SumChipsUpdate(users: map<UserId, User>, k: UserId, v: User)
    requires k in users
    ensures SumChips(users[k := v]) == SumChips(users) - users[k].chipBalance + v.chipBalance
  {
    var after := users[k := v];
    assert after.Keys == users.Keys;
    SumChipsRemove(users, users.Keys, k);
    SumChipsRemove(after, users.Keys, k);
    SumChipsAgree(users, after, users.Keys - {k});
  }

  function OpenPot(t: GameTable): real {
    if t.status == Completed then 0.0 else TotalPot(t)
  }

  function OpenPots(tables: seq<GameTable>): real
    decreases |tables|
  {
    if tables == [] then 0.0 else OpenPots(tables[..|tables| - 1]) + OpenPot(tables[|tables| - 1])
  }

  lemma OpenPotsAppend(tables: seq<GameTable>, t: GameTable)
    ensures OpenPots(tables + [t]) == OpenPots(tables) + OpenPot(t)
  {
    assert (tables + [t])[..|tables|] == tables;
  }

  lemma {:induction false} OpenPotsUpdate(tables: seq<GameTable>, i: nat, t: GameTable)
    requires i < |tables|
    ensures OpenPots(tables[i := t]) == OpenPots(tables) - OpenPot(tables[i]) + OpenPot(t)
    decreases |tables|
  {
    var n := |tables|;
    var after := tables[i := t];
    if i == n - 1 {
      assert after[..n - 1] == tables[..n - 1];
    } else {
      assert after[..n - 1] == tables[..n - 1][i := t];
      OpenPotsUpdate(tables[..n - 1], i, t);
    }
  }

  /** Chip balances plus the pots of tables not yet settled. */
  ghost function Circulation(s: State): real {
    SumChips(s.users) + OpenPots(s.tables)
  }
}
