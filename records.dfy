/** The four persistent record kinds (users, game tables, participants and
    ledger entries), their enumerations, their schema defaults and the
    validity rules that the storage layer enforces when a record is written. */
module Records {

  datatype Option<+T> = None | Some(value: T)

  type UserId = nat
  type TableId = nat
  type TxId = nat

  // ---------------------------------------------------------------------
  // Strings: the `trim` and `lowercase` setters of the user schema
  // ---------------------------------------------------------------------

  /** The characters JavaScript's `String.prototype.trim` removes: the white
      space characters and the line terminators of ECMAScript. */
  predicate IsSpace(c: char) {
    || c == ' ' || c == '\t' || c == '\n' || c == '\r' || c == '\U{000B}' || c == '\U{000C}'
    || c == '\U{00A0}' || c == '\U{1680}' || '\U{2000}' <= c <= '\U{200A}'
    || c == '\U{2028}' || c == '\U{2029}' || c == '\U{202F}' || c == '\U{205F}'
    || c == '\U{3000}' || c == '\U{FEFF}'
  }

  function TrimStart(s: string): (r: string)
    ensures |r| <= |s| && r == s[|s| - |r|..]
    ensures |r| == 0 || !IsSpace(r[0])
    ensures forall i :: 0 <= i < |s| - |r| ==> IsSpace(s[i])
  {
    if |s| > 0 && IsSpace(s[0]) then TrimStart(s[1..]) else s
  }

  function TrimEnd(s: string): (r: string)
    ensures |r| <= |s| && r == s[..|r|]
    ensures |r| == 0 || !IsSpace(r[|r| - 1])
    ensures forall i :: |r| <= i < |s| ==> IsSpace(s[i])
  {
    if |s| > 0 && IsSpace(s[|s| - 1]) then TrimEnd(s[..|s| - 1]) else s
  }

  /** What the username setter stores: leading and trailing white space removed. */
  function Trim(s: string): (r: string)
    ensures |r| <= |s|
    ensures |r| > 0 ==> !IsSpace(r[0]) && !IsSpace(r[|r| - 1])
  {
    TrimEnd(TrimStart(s))
  }

  lemma {:induction false} TrimStartIdle(s: string)
    requires |s| == 0 || !IsSpace(s[0])
    ensures TrimStart(s) == s
  {
  }

  lemma {:induction false} TrimEndIdle(s: string)
    requires |s| == 0 || !IsSpace(s[|s| - 1])
    ensures TrimEnd(s) == s
  {
  }

  /** Trimming a stored username again changes nothing. */
  lemma TrimIdempotent(s: string)
    ensures Trim(Trim(s)) == Trim(s)
  {
    var t := Trim(s);
    TrimStartIdle(t);
    TrimEndIdle(t);
  }

  function LowerChar(c: char): (r: char)
    ensures !('A' <= r <= 'Z')
    ensures !('A' <= c <= 'Z') ==> r == c
  {
    if 'A' <= c <= 'Z' then (c as int - 'A' as int + 'a' as int) as char else c
  }

  /** What the email setter stores: the letters A to Z lower-cased. */
  function Lower(s: string): (r: string)
    ensures |r| == |s|
    ensures forall i :: 0 <= i < |r| ==> !('A' <= r[i] <= 'Z')
  {
    seq(|s|, i requires 0 <= i < |s| => LowerChar(s[i]))
  }

  // ---------------------------------------------------------------------
  // User (balance fields, role and flags)
  // ---------------------------------------------------------------------

  datatype Role = UserRole | AdminRole | SuperadminRole

  function RoleName(r: Role): string {
    match r
    case UserRole => "user"
    case AdminRole => "admin"
    case SuperadminRole => "superadmin"
  }

  /** The role enumeration check applied when a user is saved. */
  function ParseRole(s: string): (r: Option<Role>)
    ensures r.None? ==> forall k: Role :: RoleName(k) != s
    ensures r.Some? ==> RoleName(r.value) == s
  {
    if s == "user" then Some(UserRole)
    else if s == "admin" then Some(AdminRole)
    else if s == "superadmin" then Some(SuperadminRole)
    else None
  }

  datatype User = User(
    username: string,
    email: string,
    walletBalance: real,
    chipBalance: real,
    isEmailVerified: bool,
    role: Role,
    isActive: bool)

  /** The schema's checks on a user document: a username of 3 to 20
      characters and two non-negative balances. */
  predicate UserValid(u: User) {
    && 3 <= |u.username| <= 20
    && u.walletBalance >= 0.0
    && u.chipBalance >= 0.0
  }

  /** A user document as the schema's defaults and setters build it. */
  function NewUser(username: string, email: string): (u: User)
    ensures u.walletBalance == 0.0 && u.chipBalance == 0.0
    ensures u.role == UserRole && u.isActive && !u.isEmailVerified
    ensures u.username == Trim(username) && u.email == Lower(email)
    ensures UserValid(u) <==> 3 <= |Trim(username)| <= 20
  {
    User(Trim(username), Lower(email), 0.0, 0.0, false, UserRole, true)
  }

  // ---------------------------------------------------------------------
  // Game table
  // ---------------------------------------------------------------------

  datatype TableStatus = Waiting | Active | Completed

  datatype GameTable = GameTable(
    status: TableStatus,
    entryFee: real,
    potAmount: real,
    generatedNumber: Option<int>,
    startTime: Option<int>,
    endTime: Option<int>,
    createdBy: UserId,
    minPlayers: int,
    maxPlayers: int,
    commissionRate: real,
    commissionAmount: real,
    isPrivate: bool,
    accessCode: Option<string>,
    participantCount: int)

  /** The schema's checks on a table document. */
  predicate TableValid(t: GameTable) {
    && t.entryFee >= 0.0
    && t.potAmount >= 0.0
    && (t.generatedNumber.Some? ==> 0 <= t.generatedNumber.value <= 99)
    && t.minPlayers >= 2
    && t.maxPlayers <= 20
    && 0.0 <= t.commissionRate <= 20.0
  }

  /** A table document with every field that has a default left at it. */
  function NewTable(entryFee: real, createdBy: UserId): (t: GameTable)
    ensures t.status == Waiting && t.potAmount == 0.0 && t.participantCount == 0
    ensures t.minPlayers == 2 && t.maxPlayers == 10 && t.commissionRate == 5.0
    ensures t.commissionAmount == 0.0 && !t.isPrivate && t.accessCode.None?
    ensures t.generatedNumber.None? && t.startTime.None? && t.endTime.None?
    ensures t.entryFee == entryFee && t.createdBy == createdBy
    ensures TableValid(t) <==> entryFee >= 0.0
  {
    GameTable(Waiting, entryFee, 0.0, None, None, None, createdBy, 2, 10, 5.0, 0.0, false, None, 0)
  }

  /** The `totalPot` virtual of a table. */
  function TotalPot(t: GameTable): real {
    t.potAmount
  }

  // ---------------------------------------------------------------------
  // Participant
  // ---------------------------------------------------------------------

  datatype GuessKind = Exact | Close | Even | Odd | Above50 | Below50

  function KindName(k: GuessKind): string {
    match k
    case Exact => "EXACT"
    case Close => "CLOSE"
    case Even => "EVEN"
    case Odd => "ODD"
    case Above50 => "ABOVE_50"
    case Below50 => "BELOW_50"
  }

  /** The membership test against the six guess kinds. */
  function ParseGuessKind(s: string): (r: Option<GuessKind>)
    ensures r.None? ==> forall k: GuessKind :: KindName(k) != s
    ensures r.Some? ==> KindName(r.value) == s
  {
    if s == "EXACT" then Some(Exact)
    else if s == "CLOSE" then Some(Close)
    else if s == "EVEN" then Some(Even)
    else if s == "ODD" then Some(Odd)
    else if s == "ABOVE_50" then Some(Above50)
    else if s == "BELOW_50" then Some(Below50)
    else None
  }

  lemma ParseKindName(k: GuessKind)
    ensures ParseGuessKind(KindName(k)) == Some(k)
  {
  }

  /** The kinds for which a guessed value is required. */
  predicate ValueRequired(k: GuessKind) {
    k == Exact || k == Close
  }

  datatype Participant = Participant(
    userId: UserId,
    gameTableId: TableId,
    guessType: GuessKind,
    guessedValue: Option<int>,
    chipsBet: real,
    winAmount: real,
    isWinner: bool,
    payoutMultiplier: real)

  /** A participant document with the outcome fields at their defaults. */
  function NewParticipant(userId: UserId, gameTableId: TableId, kind: GuessKind,
                          value: Option<int>, chipsBet: real): (p: Participant)
    ensures p.winAmount == 0.0 && !p.isWinner && p.payoutMultiplier == 0.0
    ensures p.userId == userId && p.gameTableId == gameTableId
    ensures p.guessType == kind && p.guessedValue == value && p.chipsBet == chipsBet
  {
    Participant(userId, gameTableId, kind, value, chipsBet, 0.0, false, 0.0)
  }

  predicate ValueInRange(p: Participant) {
    p.guessedValue.Some? ==> 0 <= p.guessedValue.value <= 99
  }

  /** Every rule of the participant schema, including the conditional
      requirement of a guessed value for EXACT and CLOSE. */
  predicate ParticipantSchemaValid(p: Participant) {
    && (ValueRequired(p.guessType) ==> p.guessedValue.Some?)
    && ValueInRange(p)
    && p.chipsBet >= 1.0
  }

  /** The rules the stored rows keep: the schema without the conditional
      requirement, which the rows inserted on create and join do not meet. */
  predicate ParticipantRowValid(p: Participant) {
    ValueInRange(p) && p.chipsBet >= 1.0
  }

  lemma SchemaValidIsRowValid(p: Participant)
    ensures ParticipantSchemaValid(p) ==> ParticipantRowValid(p)
    ensures ParticipantRowValid(p) && !ValueRequired(p.guessType) ==> ParticipantSchemaValid(p)
  {
  }

  /** The row that create and join insert for every new participant. */
  function DefaultRow(userId: UserId, gameTableId: TableId, stake: real): (p: Participant)
    ensures stake >= 1.0 ==> ParticipantRowValid(p) && !ParticipantSchemaValid(p)
    ensures p.guessType == Exact && p.guessedValue.None? && p.chipsBet == stake
  {
    NewParticipant(userId, gameTableId, Exact, None, stake)
  }

  // ---------------------------------------------------------------------
  // Ledger entry
  // ---------------------------------------------------------------------

  datatype TxType = BuyChips | SellChips | Win | Commission | EntryFee | Refund | Bonus

  datatype TxStatus = Pending | TxCompleted | Failed | Cancelled

  datatype PaymentMethod = CreditCard | PayPal | BankTransfer | Crypto | Internal

  function MethodName(m: PaymentMethod): string {
    match m
    case CreditCard => "CREDIT_CARD"
    case PayPal => "PAYPAL"
    case BankTransfer => "BANK_TRANSFER"
    case Crypto => "CRYPTO"
    case Internal => "INTERNAL"
  }

  /** The payment method enumeration check applied when an entry is created. */
  function ParsePaymentMethod(s: string): (r: Option<PaymentMethod>)
    ensures r.None? ==> forall m: PaymentMethod :: MethodName(m) != s
    ensures r.Some? ==> MethodName(r.value) == s
  {
    if s == "CREDIT_CARD" then Some(CreditCard)
    else if s == "PAYPAL" then Some(PayPal)
    else if s == "BANK_TRANSFER" then Some(BankTransfer)
    else if s == "CRYPTO" then Some(Crypto)
    else if s == "INTERNAL" then Some(Internal)
    else None
  }

  datatype Transaction = Transaction(
    userId: UserId,
    amount: real,
    txType: TxType,
    status: TxStatus,
    gameTableId: Option<TableId>,
    paymentMethod: PaymentMethod,
    paymentId: Option<string>,
    description: string,
    balanceBefore: Option<real>,
    balanceAfter: Option<real>,
    isChipTransaction: bool,
    approvedBy: Option<UserId>,
    approvedAt: Option<int>)

  /** The entry kinds that must name a game table. */
  predicate NeedsTable(k: TxType) {
    k == Win || k == EntryFee || k == Commission
  }

  const MinAmount: real := 0.01

  /** The schema's checks on a ledger entry. */
  predicate TransactionValid(x: Transaction) {
    && x.amount >= MinAmount
    && (NeedsTable(x.txType) ==> x.gameTableId.Some?)
  }

  /** An entry with every field that has a default left at it. */
  function NewTransaction(userId: UserId, amount: real, kind: TxType): (x: Transaction)
    ensures x.status == Pending && x.paymentMethod == Internal && x.isChipTransaction
    ensures x.gameTableId.None? && x.balanceBefore.None? && x.balanceAfter.None?
    ensures x.approvedBy.None? && x.approvedAt.None? && x.paymentId.None?
    ensures x.userId == userId && x.amount == amount && x.txType == kind
    ensures TransactionValid(x) <==> amount >= MinAmount && !NeedsTable(kind)
  {
    Transaction(userId, amount, kind, Pending, None, Internal, None, "", None, None, true, None, None)
  }

  /** A completed chip entry tied to a game table with its two balances. */
  function GameEntry(userId: UserId, amount: real, kind: TxType, table: TableId,
                     before: real, after: real, description: string): (x: Transaction)
    ensures x.status == TxCompleted && x.isChipTransaction && x.paymentMethod == Internal
    ensures x.userId == userId && x.amount == amount && x.txType == kind
    ensures x.gameTableId == Some(table)
    ensures x.balanceBefore == Some(before) && x.balanceAfter == Some(after)
    ensures TransactionValid(x) <==> amount >= MinAmount
  {
    NewTransaction(userId, amount, kind).(
      status := TxCompleted, gameTableId := Some(table), description := description,
      balanceBefore := Some(before), balanceAfter := Some(after))
  }
}
