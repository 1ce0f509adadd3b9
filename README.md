# GuessBattle backend core in Dafny

GuessBattle is a number-guessing chip game. Players buy chips with money.
They open or join game tables by paying the table's entry fee into its pot.
Each player then places a guess of one of six kinds: EXACT, CLOSE, EVEN, ODD,
ABOVE_50 or BELOW_50. Evaluating a table draws a number from 0 to 99. The
platform keeps a commission. The winners are paid in three tiers (EXACT 80%,
CLOSE 30%, and EVEN/ODD/ABOVE_50/BELOW_50 10% of the remaining pot). Players
can ask to sell chips back to their wallet; an administrator approves or
rejects each request. Administrators can also edit a user's account and
balances directly.

This project models the controllers that move chips and money, together with
the four Mongoose models they write:

- `Records`: the schemas of User, GameTable, GameParticipant and
  Transaction, with their defaults, enums and validators.
- `Database`: the whole store as a value `State`, with these parts:
  - users keyed by id;
  - tables, participant rows, transactions and admin-log entries, each a
    sequence indexed by record id.

  It also holds the invariant `Valid` that every handler keeps and
  `Circulation`, the chips held by users plus the chips in open pots.
- `Game`: `createGameTable`, `joinGameTable` and `placeGuess`.
- `Settlement`: `evaluateGame`, with the tier classification and the three
  payout loops.
- `Wallet`: `buyChips`, `sellChips`, `approveChipSell` and `rejectChipSell`.
- `Admin`: `updateUser`. It comes in two versions: as the controller writes
  it, and as a single unit of work.
- `Backend`: a `Store` class whose collections the handlers update in place,
  record by record, in the controllers' order. Each method is proved to
  leave the store exactly as the matching `State` function says. The module
  also has the scanning loops over participant rows: the find-one queries and
  the tier classification of `evaluateGame`.

Each handler is a function `State -> Step(result, next)`. A handler that
fails returns an `Error` and leaves the state untouched. This matches the
session abort in every controller except `updateUser`, which has no session;
see Findings. A Mongoose validator failing inside a session becomes a
`SchemaViolation` error with no change to the state. There is one exception:
the participant row that create and join store for the player is an EXACT
guess without a value, and the participant schema requires a value for
EXACT. As written, that validator makes every create and join abort (see
Findings). The corrected `Game.CreateGameTable` and `Game.JoinGameTable`
accept that placeholder row. The rest of the model builds on them. The random drawn number,
the generated access code and the clock are parameters (`n`, `code`, `now`).

## Model

| member | source | states |
|---|---|---|
| Records.Trim | backend/src/models/User.js:13-17 | the trimmed username has no leading or trailing white space (as JavaScript's `trim` defines it) and is no longer than the input |
| Records.TrimIdempotent | backend/src/models/User.js:13-17 | trimming a trimmed username changes nothing |
| Records.Lower | backend/src/models/User.js:6-10 | the stored email has the same length and no letter A to Z |
| Records.ParseRole | backend/src/models/User.js:45-49 | a role is accepted exactly when it is one of user, admin, superadmin, and the name round-trips |
| Records.NewUser | backend/src/models/User.js:13-54 | a new user starts with zero wallet and chip balances, role user, active and unverified; the username is stored trimmed and the email lower-cased; the user is valid iff the trimmed username has 3 to 20 characters |
| Records.NewTable | backend/src/models/GameTable.js:4-66 | a new table is WAITING with an empty pot, 2 to 10 players, a 5% commission and no drawn number; it is valid iff the entry fee is not negative |
| Records.ParseGuessKind | backend/src/models/GameParticipant.js:14-18 | a guess type is accepted exactly when it is one of the six kinds, and its name round-trips |
| Records.ParseKindName | backend/src/models/GameParticipant.js:14-18 | parsing the name of every kind gives that kind back |
| Records.NewParticipant | backend/src/models/GameParticipant.js:4-44 | a new row has no winnings, is not a winner and has multiplier 0; it keeps the given user, table, kind, value and stake |
| Records.SchemaValidIsRowValid | backend/src/models/GameParticipant.js:19-27 | a schema-valid row is row-valid; for kinds without a value the two agree |
| Records.DefaultRow | backend/src/controllers/gameController.js:80-85 | the row written for a new player is EXACT with no value; with a stake of at least 1 it passes every check except the value that EXACT requires |
| Records.ParsePaymentMethod | backend/src/models/Transaction.js:32-36 | a payment method is accepted exactly when it is one of the five names, and the name round-trips |
| Records.NewTransaction | backend/src/models/Transaction.js:4-61 | a new entry is PENDING and INTERNAL with no table or balances; it is valid iff the amount is at least 0.01 and the type does not need a table |
| Records.GameEntry | backend/src/models/Transaction.js:9-31 | a game entry is COMPLETED, names its table and records the balance before and after; it is valid iff the amount is at least 0.01 |
| Database.OneSeatGivesUniqueKeys | backend/src/models/GameParticipant.js:49-50 | one row per user and table implies the unique (user, table, guess type) index |
| Database.ValidAppendEntry | backend/src/models/Transaction.js:9-13 | appending a valid entry keeps every stored entry valid |
| Database.FirstRow | backend/src/controllers/gameController.js:302-305 | the find-one answer is the first row of the user on the table, or none exists |
| Database.FirstRowIsOnlyRow | backend/src/controllers/gameController.js:160-170 | when each user has one row per table, the find-one finds a row iff one exists, and it is the only one |
| Database.SumChipsUpdate | backend/src/models/User.js:32-36 | replacing a user changes the chip total by exactly that user's change of balance |
| Database.OpenPotsUpdate | backend/src/models/GameTable.js:14-18 | replacing a table changes the total of open pots by exactly that table's change of open pot |
| Game.CreateGameTable | backend/src/controllers/gameController.js:10-112 | an error for a missing or non-positive fee, a missing user or too few chips; success iff those guards and the schema checks of the writes pass; then the fee moves from the creator's chips to the pot of a new WAITING table with the defaults 2/10/5%, count 1, the drawn code stored iff private, a default EXACT row and a COMPLETED ENTRY_FEE entry |
| Game.CreateGameTableAsWritten | backend/src/controllers/gameController.js:80-85 | as written, create always fails and changes nothing: where the corrected create succeeds, it answers a schema violation |
| Game.CreatePreservesValid | backend/src/controllers/gameController.js:52-90 | creating a table keeps every schema (for participant rows, all but the value required for EXACT/CLOSE) and one row per user and table |
| Game.CreateConserves | backend/src/controllers/gameController.js:63-90 | creating a table moves chips from the creator to the pot; the circulation is unchanged |
| Game.JoinGameTable | backend/src/controllers/gameController.js:115-258 | an error for a missing, non-WAITING or full table, a wrong code, an existing row or too few chips; success iff those guards and the schema checks of the writes pass; then the fee moves from the player to the pot, the count goes up by one, the table becomes ACTIVE with its start time set to `now` iff it reaches its minimum (otherwise the start time is unchanged), and a default row and an ENTRY_FEE entry are written |
| Game.JoinGameTableAsWritten | backend/src/controllers/gameController.js:213-218 | as written, join always fails and changes nothing: where the corrected join succeeds, it answers a schema violation |
| Game.JoinPreservesValid | backend/src/controllers/gameController.js:196-236 | joining keeps every schema (for participant rows, all but the value required for EXACT/CLOSE) and one row per user and table |
| Game.JoinConserves | backend/src/controllers/gameController.js:196-223 | joining moves the fee from the player to the pot; the circulation is unchanged |
| Game.PlaceGuess | backend/src/controllers/gameController.js:261-333 | an error for an unknown kind, a missing or out-of-range value for EXACT/CLOSE, a table that is not ACTIVE, a non-participant or a duplicate kind; otherwise only the player's first row changes: its kind, and for EXACT and CLOSE its value |
| Game.GuessedRowMeetsSchema | backend/src/models/GameParticipant.js:14-27 | an accepted guess leaves a row that meets the full schema |
| Game.GuessPreservesValid | backend/src/controllers/gameController.js:329-333 | placing a guess keeps every schema and one row per user and table |
| Game.SameKindIsDuplicate | backend/src/controllers/gameController.js:315-326 | guessing the kind the row already has is refused as a duplicate |
| Game.FreshPlayerCannotGuessExact | backend/src/controllers/gameController.js:315-326 | a player still on the default row can never place an EXACT guess |
| Game.RepeatedGuessIsDuplicate | backend/src/controllers/gameController.js:315-326 | repeating an accepted guess is refused and changes nothing |
| Game.OtherKindIsAccepted | backend/src/controllers/gameController.js:302-333 | a valid guess of a different kind on an ACTIVE table is accepted on the player's row |
| Settlement.TierOf | backend/src/controllers/gameController.js:398-418 | a row is EXACT-tier iff it guessed n, CLOSE-tier iff it is a CLOSE guess with a value within 5 of n (a CLOSE row without a value is in no tier), condition-tier iff its EVEN/ODD/ABOVE_50/BELOW_50 condition holds |
| Settlement.Winners | backend/src/controllers/gameController.js:391-418 | the rows of a tier are exactly the table's rows whose tier it is |
| Settlement.WinnersSorted | backend/src/controllers/gameController.js:398-418 | the rows of a tier are listed in query order, each once |
| Settlement.CommissionBounds | backend/src/controllers/gameController.js:384-385 | the commission is between 0 and a fifth of the pot |
| Settlement.RemainingPot | backend/src/controllers/gameController.js:388 | the remaining pot plus the commission is the pot, and it lies between 0 and the pot |
| Settlement.Share | backend/src/controllers/gameController.js:425-426 | the shares of a tier add up to its fraction of the remaining pot, and are not negative |
| Settlement.Won | backend/src/controllers/gameController.js:429-431 | a paid row is marked as winner with the share; its multiplier times the stake is the share; the guess is unchanged |
| Settlement.PayOne | backend/src/controllers/gameController.js:428-453 | one payout pass changes no table, log or set of users |
| Settlement.PayUpTo | backend/src/controllers/gameController.js:428-453 | after k passes, k entries have been appended and no table or user set has changed |
| Settlement.PayTier | backend/src/controllers/gameController.js:424-454 | a tier's payout loop appends one entry per winner and changes no table, log or set of users |
| Settlement.PayStep | backend/src/controllers/gameController.js:428-453 | the loop with k+1 passes is the loop with k passes followed by one pass |
| Settlement.CreditedSum | backend/src/controllers/gameController.js:435-437 | paying k rows a share each adds k times the share to the chip total |
| Settlement.PayTierValid | backend/src/controllers/gameController.js:424-454 | a payout loop whose share is at least 0.01 keeps every schema |
| Settlement.CommissionEntry | backend/src/controllers/gameController.js:523-533 | the COMMISSION entry names the creator and the table, records no balances and is valid iff the commission is at least 0.01 |
| Settlement.Evaluate | backend/src/controllers/gameController.js:348-560 | an error for a missing or non-ACTIVE table, a missing winner or an entry under 0.01; otherwise the table is COMPLETED with the drawn number and the answer reports the three tier sizes, the amount distributed and the commission |
| Settlement.SharesMakePool | backend/src/controllers/gameController.js:424-520 | the shares paid in a tier add up to its pool |
| Settlement.DistributedIsPools | backend/src/controllers/gameController.js:421-520 | the amount distributed is the sum of the pools of the non-empty tiers |
| Settlement.DistributedBound | backend/src/controllers/gameController.js:421-520 | at most 120% of the remaining pot is distributed, and more than the remaining pot exactly when it is positive and both the EXACT and CLOSE tiers have winners |
| Settlement.PayoutsValid | backend/src/controllers/gameController.js:424-520 | the three payout loops keep every schema |
| Settlement.EvaluatePreservesValid | backend/src/controllers/gameController.js:348-560 | evaluating a table keeps every schema and one row per user and table |
| Settlement.EvaluateExactlyOnce | backend/src/controllers/gameController.js:363-368 | a table evaluated once is refused as not active at every later evaluation |
| Settlement.EvaluateConserves | backend/src/controllers/gameController.js:379-536 | evaluating removes the table's pot from circulation and adds back the amount distributed |
| Settlement.TierMember | backend/src/controllers/gameController.js:398-418 | a row is in a tier's list iff it is on the table and falls in that tier |
| Settlement.EvaluateRows | backend/src/controllers/gameController.js:428-498 | after evaluation each row of the table in a tier is marked as winner with its tier's share; every other row is unchanged |
| Settlement.PayoutsBalance | backend/src/controllers/gameController.js:435-503 | the payout loops add to each user's chips exactly their winnings over the three tiers |
| Settlement.EvaluateBalances | backend/src/controllers/gameController.js:348-560 | after evaluation every user's chips are the old chips plus their winnings, and no other field of the user changes |
| Settlement.NonWinnerUnchanged | backend/src/controllers/gameController.js:398-520 | a user with no winning row on the table is left unchanged |
| Settlement.CommissionCreditsNobody | backend/src/controllers/gameController.js:523-533 | the COMMISSION entry is the last entry; it names the creator and the commission and carries no balances; the creator's chips do not change when the creator won nothing |
| Settlement.SeatWinnings | backend/src/controllers/gameController.js:398-520 | a player with a row on the table wins exactly their tier's share, or nothing |
| Settlement.WinnerCredited | backend/src/controllers/gameController.js:435-503 | every winning row's user exists and receives exactly the share of its tier |
| Settlement.PayTierEntries | backend/src/controllers/gameController.js:440-450 | a payout loop appends, in order, one WIN entry per winner for the share on the table |
| Settlement.PayoutsLedger | backend/src/controllers/gameController.js:424-520 | the payout loops append the EXACT, then the CLOSE, then the condition WIN entries, one per winner with its tier's share |
| Settlement.EvaluateLedger | backend/src/controllers/gameController.js:424-533 | evaluation appends the WIN entries of all tiers and then the COMMISSION entry when the commission is positive |
| Wallet.PurchaseEntry | backend/src/controllers/walletController.js:44-55 | the purchase entry is a COMPLETED BUY_CHIPS entry with the payment and the balance before and after; it is valid iff the amount is at least 0.01 |
| Wallet.Buy | backend/src/controllers/walletController.js:6-83 | an error for a missing or non-positive amount, a missing user or an unknown payment method; otherwise the chips are credited and a COMPLETED purchase entry is appended |
| Wallet.BuyPreservesValid | backend/src/controllers/walletController.js:44-59 | buying keeps every schema |
| Wallet.BuySucceeds | backend/src/controllers/walletController.js:12-59 | in a valid store a purchase succeeds exactly when the amount is at least 0.01, the user exists and the payment method is known |
| Wallet.BuyConserves | backend/src/controllers/walletController.js:44-59 | a purchase adds exactly its amount to the chips held, and a failure adds nothing |
| Wallet.SellEntry | backend/src/controllers/walletController.js:127-137 | the sell request is a PENDING SELL_CHIPS entry with the balance before and after and no approval |
| Wallet.Sell | backend/src/controllers/walletController.js:84-164 | an error for a missing or non-positive amount, a missing user or too few chips; otherwise the chips are debited and a PENDING request is appended |
| Wallet.SellPreservesValid | backend/src/controllers/walletController.js:127-140 | selling keeps every schema |
| Wallet.SellConserves | backend/src/controllers/walletController.js:127-140 | a sell request moves chips into pending requests; chips held plus pending are unchanged |
| Wallet.Decidable | backend/src/controllers/walletController.js:217-262 | a request can be decided iff it exists, is SELL_CHIPS, is PENDING and its user exists, with the controller's error for each failed guard |
| Wallet.ApproveChipSell | backend/src/controllers/walletController.js:206-311 | the guards' errors; otherwise the request becomes COMPLETED, approved by the admin, the amount is paid into the seller's wallet and the approval is logged |
| Wallet.RejectChipSell | backend/src/controllers/walletController.js:312-416 | the guards' errors; otherwise the request becomes CANCELLED with the reason appended, the chips are returned and the rejection is logged |
| Wallet.ApprovePreservesValid | backend/src/controllers/walletController.js:265-291 | approving keeps every schema |
| Wallet.RejectPreservesValid | backend/src/controllers/walletController.js:372-398 | rejecting keeps every schema |
| Wallet.DecisionsSucceedWhenDecidable | backend/src/controllers/walletController.js:217-272 | in a valid store, a decidable request can always be approved and always be rejected |
| Wallet.ApproveConserves | backend/src/controllers/walletController.js:265-272 | an approval takes the amount out of the chips held and pays exactly that into the wallet; chip balances are unchanged |
| Wallet.RejectConserves | backend/src/controllers/walletController.js:372-378 | a rejection moves the amount from pending back to chips; chips held plus pending are unchanged |
| Wallet.DecidedOnce | backend/src/controllers/walletController.js:239-248 | a request approved or rejected once is refused as not pending by every later decision |
| Wallet.SellThenRejectRestores | backend/src/controllers/walletController.js:84-164 | selling then rejecting the request gives every user their balances back and leaves the request CANCELLED |
| Wallet.SellThenApproveMoves | backend/src/controllers/walletController.js:84-311 | selling then approving moves the amount from the seller's chips to their wallet, keeps their total and leaves the request COMPLETED |
| Admin.Adjustment | backend/src/controllers/adminController.js:154-192 | the adjustment entry is BONUS iff the balance went up and REFUND otherwise; its amount is the size of the change; before plus the signed amount is after |
| Admin.UpdateUser | backend/src/controllers/adminController.js:118-230 | an error for a missing user or any write that fails its schema, with nothing written; otherwise the given fields are overwritten, one entry per changed balance is appended and the update is logged |
| Admin.UpdateUserAsWritten | backend/src/controllers/adminController.js:118-230 | a failing write leaves users and logs unchanged but may leave the earlier entries in the ledger |
| Admin.AsWrittenAgreesOnSuccess | backend/src/controllers/adminController.js:154-215 | the controller as written and the unit of work succeed on the same inputs and agree when they succeed |
| Admin.AsWrittenLeavesOrphanEntry | backend/src/controllers/adminController.js:154-195 | setting 10 chips to -5 fails the save but leaves a REFUND entry of 15 in the ledger; the unit of work writes nothing |
| Admin.UpdatePreservesValid | backend/src/controllers/adminController.js:145-215 | an update keeps every schema |
| Admin.AdjustmentsRecordChanges | backend/src/controllers/adminController.js:154-192 | an update appends one entry per balance that changed, each tying the old balance to the new one |
| Admin.UpdateConserves | backend/src/controllers/adminController.js:154-172 | an update changes the circulation by exactly the change of the user's chips |
| Admin.UpdateIdempotent | backend/src/controllers/adminController.js:145-192 | repeating an update changes no user and no entry, and only adds a log entry |
| Backend.FindRow | backend/src/controllers/gameController.js:302-305 | the scan finds the first row of the user on the table, and finds one iff one exists |
| Backend.FindKind | backend/src/controllers/gameController.js:315-319 | the scan answers whether the user has a row of that kind on the table |
| Backend.Classify | backend/src/controllers/gameController.js:394-418 | the scan builds the three winner lists, equal to the rows of each tier |
| Backend.Store.CreateGameTable | backend/src/controllers/gameController.js:10-112 | the store ends as `Game.CreateGameTable` says |
| Backend.Store.JoinGameTable | backend/src/controllers/gameController.js:115-258 | the store ends as `Game.JoinGameTable` says |
| Backend.Store.PlaceGuess | backend/src/controllers/gameController.js:261-333 | the store ends as `Game.PlaceGuess` says |
| Backend.Store.PayWinner | backend/src/controllers/gameController.js:428-453 | one pass of a payout loop, as `Settlement.PayOne` |
| Backend.Store.PayTier | backend/src/controllers/gameController.js:424-454 | a payout loop ends as `Settlement.PayTier` and answers the amount paid |
| Backend.Store.PayAll | backend/src/controllers/gameController.js:421-520 | the three payout loops end as `Settlement.Payouts` and answer the amount distributed |
| Backend.Store.Evaluate | backend/src/controllers/gameController.js:348-560 | the store ends as `Settlement.Evaluate` says |
| Backend.Store.Buy | backend/src/controllers/walletController.js:6-83 | the store ends as `Wallet.Buy` says |
| Backend.Store.Sell | backend/src/controllers/walletController.js:84-164 | the store ends as `Wallet.Sell` says |
| Backend.Store.ApproveChipSell | backend/src/controllers/walletController.js:206-311 | the store ends as `Wallet.ApproveChipSell` says |
| Backend.Store.RejectChipSell | backend/src/controllers/walletController.js:312-416 | the store ends as `Wallet.RejectChipSell` says |
| Backend.Store.UpdateUser | backend/src/controllers/adminController.js:118-230 | the store ends as `Admin.UpdateUser` says |

## Left out

- Authentication, the routes, the read-only queries (history, listings, details, dashboard statistics, admin logs) and the other controllers are not part of this model.
- The random drawn number, the access code (`crypto.randomBytes`) and the clock (`Date.now()`) are parameters (`n`, `code`, `now`), not generated.
- Concurrency is not modelled. Each handler runs alone against the whole store, so two requests racing on the same user or table are not covered.
- Numbers are exact reals (`real`) and integers; JavaScript double rounding of shares, multipliers and commissions is not modelled.
- Record ids are positions in their collection, not ObjectIds. The `createdAt`/`updatedAt` timestamps are not modelled.
- Settlement.WinNote, Game.EntryFeeNote, Wallet.PurchaseNote, Wallet.SellNote, Settlement.CommissionNote and Admin.AdjustmentNote: the descriptions leave out the ids and amounts the controllers format into the text.
- The admin log drops the IP address and the user agent of the request. It keeps the other details, including the before/after snapshot of an account update.
- Records.Lower: lower-cases only the letters A to Z. Mongoose's `lowercase` uses JavaScript's full Unicode `toLowerCase`, which also maps other letters and can change the length of the string.
- Game.CreatePreservesValid: the stored participant rows keep the participant schema without its rule that EXACT and CLOSE guesses need a value (`ParticipantRowValid`), because the corrected create stores the placeholder EXACT row without one.
- Game.JoinPreservesValid: the same as for create. The rows keep `ParticipantRowValid`, not the full participant schema, because of the placeholder row.
- Password hashing, the password reset fields and the `pre('save')` hook of User.js are not modelled. The email format check (`validator.isEmail`) and the unique indexes on email and username are not modelled.
- The unique (user, table, guess type) index is kept as the stronger invariant `OneSeatEach`: the handlers only ever write one row per user and table.
- Settlement.Evaluate checks that every winner's user exists and that every WIN and COMMISSION amount is at least 0.01 before any write. The controller interleaves these checks with its writes. Both abort the session and store nothing, but when several problems occur at once, the error reported may differ.
- Settlement.Evaluate requires the store to be valid and the drawn number to lie in 0..99, as `crypto.randomInt(0, 100)` guarantees.
- walletController.js calls `mongoose.startSession` without requiring `mongoose`. The model takes the evident intent, that its sessions work.
- Game.PlaceGuess keeps the previous `guessedValue` when a kind without a value replaces EXACT or CLOSE, as the controller does. It does not clear the stale value.

## Findings

| source | as written | input that shows it | evidently intended | confidence | as-written member | corrected member |
|---|---|---|---|---|---|---|
| backend/src/controllers/adminController.js:154-195 | updateUser writes the BONUS/REFUND entries with `Transaction.create` before `user.save()`, without a session; a save that fails validation leaves the entries stored | a user with 10 chips is set to a chip balance of -5: the save refuses the negative balance, yet a REFUND entry of 15 with balanceAfter -5 stays in the ledger | the entries and the user are written together or not at all | not executed | Admin.UpdateUserAsWritten, Admin.AsWrittenLeavesOrphanEntry | Admin.UpdateUser |
| backend/src/controllers/gameController.js:80-85 | create (here) and join (lines 213-218) store the player's row as `guessType: 'EXACT'` with no `guessedValue`, but GameParticipant.js:23-26 requires a value for EXACT, so the insert fails validation and the session aborts | any create or join that passes every guard, e.g. a user with 100 chips creating a public table with entry fee 10 | the placeholder row is stored until the player places a real guess | not executed | Game.CreateGameTableAsWritten, Game.JoinGameTableAsWritten | Game.CreateGameTable, Game.JoinGameTable |
