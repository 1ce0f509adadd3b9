/** Round evaluation: the drawn number, the three winner tiers, the
    commission, the per-tier payouts with their WIN entries, and the closing
    of the table, all as one unit of work. */
module Settlement {
  import opened Records
  import opened Database

  datatype Tier = ExactTier | CloseTier | ConditionTier | NoTier

  function Abs(x: int): nat {
    if x < 0 then -x else x
  }

  /** The tier a row falls in for the drawn number `n`, tested in the
      controller's order: exact, close, even/odd, above/below 50. Because a
      row has one guess kind, the order never matters. A close guess with no
      value makes JavaScript's distance `NaN`, so it falls in no tier. */
  function TierOf(p: Participant, n: int): (r: Tier)
    ensures r == ExactTier <==> p.guessType == Exact && p.guessedValue == Some(n)
    ensures r == CloseTier <==> p.guessType == Close && p.guessedValue.Some? && Abs(p.guessedValue.value - n) <= 5
    ensures r == ConditionTier <==>
              || (p.guessType == Even && n % 2 == 0) || (p.guessType == Odd && n % 2 != 0)
              || (p.guessType == Above50 && n > 50) || (p.guessType == Below50 && n <= 50)
  {
    if p.guessType == Exact && p.guessedValue == Some(n) then ExactTier
    else if p.guessType == Close && p.guessedValue.Some? && Abs(p.guessedValue.value - n) <= 5 then CloseTier
    else if (p.guessType == Even && n % 2 == 0) || (p.guessType == Odd && n % 2 != 0) then ConditionTier
    else if (p.guessType == Above50 && n > 50) || (p.guessType == Below50 && n <= 50) then ConditionTier
    else NoTier
  }

  /** The positions below `k` of the rows of table `t` that fall in `tier`,
      in storage order. */
  function Winners(ps: seq<Participant>, t: TableId, n: int, tier: Tier, k: nat): (ws: seq<nat>)
    requires k <= |ps|
    ensures |ws| <= k
    ensures forall i :: 0 <= i < |ws| ==> ws[i] < k && ps[ws[i]].gameTableId == t && TierOf(ps[ws[i]], n) == tier
    ensures forall j :: 0 <= j < k && ps[j].gameTableId == t && TierOf(ps[j], n) == tier ==> j in ws
    decreases k
  {
    if k == 0 then []
    else Winners(ps, t, n, tier, k - 1) + (if ps[k - 1].gameTableId == t && TierOf(ps[k - 1], n) == tier then [k - 1] else [])
  }

  predicate Sorted(ws: seq<nat>) {
    forall i, j :: 0 <= i < j < |ws| ==> ws[i] < ws[j]
  }

  /** The positions of a tier come in increasing storage order, so none
      appears twice. */
  lemma {:induction false} WinnersSorted(ps: seq<Participant>, t: TableId, n: int, tier: Tier, k: nat)
    requires k <= |ps|
    ensures Sorted(Winners(ps, t, n, tier, k))
    decreases k
  {
    if k > 0 {
      WinnersSorted(ps, t, n, tier, k - 1);
      var pre := Winners(ps, t, n, tier, k - 1);
      var ws := Winners(ps, t, n, tier, k);
      var last: seq<nat> := if ps[k - 1].gameTableId == t && TierOf(ps[k - 1], n) == tier then [k - 1] else [];
      assert ws == pre + last;
      forall i, j | 0 <= i < j < |ws|
        ensures ws[i] < ws[j]
      {
        if j >= |pre| {
          assert ws[j] == k - 1 && ws[i] == pre[i];
        }
      }
    }
  }

  /** One more row: it is added to the list of the tier it falls in, if
      it is a row of table `t`, and to no other list. */
  lemma WinnersNext(ps: seq<Participant>, t: TableId, n: int, k: nat, tier: Tier)
    requires k < |ps|
    requires tier == if ps[k].gameTableId == t then TierOf(ps[k], n) else NoTier
    ensures Winners(ps, t, n, ExactTier, k + 1)
              == Winners(ps, t, n, ExactTier, k) + (if tier == ExactTier then [k] else [])
    ensures Winners(ps, t, n, CloseTier, k + 1)
              == Winners(ps, t, n, CloseTier, k) + (if tier == CloseTier then [k] else [])
    ensures Winners(ps, t, n, ConditionTier, k + 1)
              == Winners(ps, t, n, ConditionTier, k) + (if tier == ConditionTier then [k] else [])
  {
  }

  function TierRows(ps: seq<Participant>, t: TableId, n: int, tier: Tier): seq<nat> {
    Winners(ps, t, n, tier, |ps|)
  }

  // ---------------------------------------------------------------------
  // Commission and pools
  // ---------------------------------------------------------------------

  const ExactFraction: real := 0.8
  const CloseFraction: real := 0.3
  const ConditionFraction: real := 0.1

  function CommissionOf(g: GameTable): real {
    g.potAmount * g.commissionRate / 100.0
  }

  /** With a rate of 0 to 20 percent the commission is at most a fifth of the pot. */
  lemma CommissionBounds(g: GameTable)
    requires TableValid(g)
    ensures 0.0 <= CommissionOf(g) <= g.potAmount / 5.0
  {
    var p, c := g.potAmount, g.commissionRate;
    assert 0.0 <= p * c by {
      assert p >= 0.0 && c >= 0.0;
    }
    assert p * c <= p * 20.0 by {
      assert p * (20.0 - c) >= 0.0;
    }
  }

  function RemainingPot(g: GameTable): (r: real)
    ensures TableValid(g) ==> 0.0 <= r <= g.potAmount
    ensures r + CommissionOf(g) == g.potAmount
  {
    if TableValid(g) then CommissionBounds(g); g.potAmount - CommissionOf(g)
    else g.potAmount - CommissionOf(g)
  }

  /** Each winner's part of a tier's pool: the pool split evenly. */
  function Share(remaining: real, fraction: real, count: nat): (r: real)
    ensures count > 0 ==> r * count as real == fraction * remaining
    ensures remaining >= 0.0 && fraction >= 0.0 ==> r >= 0.0
  {
    if count == 0 then 0.0 else fraction * remaining / count as real
  }

  /** What a tier pays out in total: its pool if it has winners, else nothing. */
  function TierPool(remaining: real, fraction: real, count: nat): real {
    if count == 0 then 0.0 else fraction * remaining
  }

  // ---------------------------------------------------------------------
  // Paying one tier
  // ---------------------------------------------------------------------

  /** A row with its outcome fields cleared: what payouts never change. */
  function Wager(p: Participant): Participant {
    p.(winAmount := 0.0, isWinner := false, payoutMultiplier := 0.0)
  }

  function Won(p: Participant, share: real): (w: Participant)
    requires p.chipsBet > 0.0
    ensures Wager(w) == Wager(p) && w.isWinner && w.winAmount == share
    ensures w.payoutMultiplier * p.chipsBet == share
  {
    p.(isWinner := true, payoutMultiplier := share / p.chipsBet, winAmount := share)
  }

  function WinNote(k: GuessKind): string {
    "Won chips with " + KindName(k) + " guess in game"
  }

  /** Every position in `ws` is a row whose user exists and whose stake is
      positive, so that it can be paid. */
  predicate Payable(s: State, ws: seq<nat>) {
    forall i :: 0 <= i < |ws| ==>
      ws[i] < |s.participants| && s.participants[ws[i]].userId in s.users && s.participants[ws[i]].chipsBet > 0.0
  }

  predicate PayableRow(s: State, j: nat) {
    j < |s.participants| && s.participants[j].userId in s.users && s.participants[j].chipsBet > 0.0
  }

  /** One pass of the payout loop: row `j` is marked as won with `share`,
      its user is credited `share`, and a WIN entry records the balance
      before and after. */
  function PayOne(s: State, j: nat, share: real, t: TableId): (r: State)
    requires PayableRow(s, j)
    ensures r.tables == s.tables && r.logs == s.logs && r.users.Keys == s.users.Keys
  {
    var p := s.participants[j];
    var u := s.users[p.userId];
    var credited := u.(chipBalance := u.chipBalance + share);
    s.(participants := s.participants[j := Won(p, share)],
       users := s.users[p.userId := credited],
       ledger := s.ledger + [GameEntry(p.userId, share, Win, t, u.chipBalance, credited.chipBalance,
                                       WinNote(p.guessType))])
  }

  /** `c` times `share`, as repeated addition. */
  function Times(c: nat, share: real): real
    decreases c
  {
    if c == 0 then 0.0 else Times(c - 1, share) + share
  }

  lemma {:induction false} TimesIsProduct(c: nat, share: real)
    ensures Times(c, share) == c as real * share
    decreases c
  {
    if c > 0 {
      TimesIsProduct(c - 1, share);
      assert c as real * share == (c - 1) as real * share + 1.0 * share;
    }
  }

  predicate Indices(ps: seq<Participant>, ws: seq<nat>) {
    forall i :: 0 <= i < |ws| ==> ws[i] < |ps|
  }

  /** How many of the first `k` positions of `ws` are rows of user `u`. */
  function CountFor(ps: seq<Participant>, ws: seq<nat>, u: UserId, k: nat): (c: nat)
    requires k <= |ws| && Indices(ps, ws)
    ensures c <= k
    decreases k
  {
    if k == 0 then 0
    else CountFor(ps, ws, u, k - 1) + (if ps[ws[k - 1]].userId == u then 1 else 0)
  }

  predicate Stakes(ps: seq<Participant>, ws: seq<nat>) {
    forall i :: 0 <= i < |ws| ==> ws[i] < |ps| && ps[ws[i]].chipsBet > 0.0
  }

  /** The rows once the first `k` of `ws` are paid `share` each. */
  function PaidRows(ps: seq<Participant>, ws: seq<nat>, share: real, k: nat): (r: seq<Participant>)
    requires k <= |ws| && Stakes(ps, ws)
    ensures |r| == |ps|
  {
    seq(|ps|, i requires 0 <= i < |ps| => if i in ws[..k] then Won(ps[i], share) else ps[i])
  }

  predicate Owned(users: map<UserId, User>, ps: seq<Participant>, ws: seq<nat>) {
    forall i :: 0 <= i < |ws| ==> ws[i] < |ps| && ps[ws[i]].userId in users
  }

  /** The balances once the first `k` of `ws` are paid `share` each, one
      credit after another. */
  function Credited(users: map<UserId, User>, ps: seq<Participant>, ws: seq<nat>, share: real, k: nat)
    : (r: map<UserId, User>)
    requires k <= |ws| && Owned(users, ps, ws)
    ensures r.Keys == users.Keys
    decreases k
  {
    if k == 0 then users
    else
      var mid := Credited(users, ps, ws, share, k - 1);
      var owner := ps[ws[k - 1]].userId;
      mid[owner := mid[owner].(chipBalance := mid[owner].chipBalance + share)]
  }

  /** Each user gains `share` per paid row of theirs, and nothing else of
      theirs changes. */
  lemma {:induction false} CreditedBalance(users: map<UserId, User>, ps: seq<Participant>, ws: seq<nat>,
                                           share: real, k: nat, u: UserId)
    requires k <= |ws| && Owned(users, ps, ws) && u in users
    ensures Credited(users, ps, ws, share, k)[u]
              == users[u].(chipBalance := users[u].chipBalance + Times(CountFor(ps, ws, u, k), share))
    decreases k
  {
    if k > 0 {
      CreditedBalance(users, ps, ws, share, k - 1, u);
    }
  }

  /** One WIN entry of `share` for user `u` on table `t`, whose balance
      after is its balance before plus the amount. */
  predicate WinEntryFor(x: Transaction, u: UserId, share: real, t: TableId) {
    && x.txType == Win && x.status == TxCompleted && x.isChipTransaction
    && x.userId == u && x.amount == share && x.gameTableId == Some(t)
    && x.balanceBefore.Some? && x.balanceAfter == Some(x.balanceBefore.value + share)
  }

  /** The WIN entry for the `m`-th row of `ws`: it records the user's
      balance after the earlier payouts of the tier, and that balance plus
      `share`. */
  function WinEntry(users: map<UserId, User>, ps: seq<Participant>, ws: seq<nat>, share: real,
                    t: TableId, m: nat): (x: Transaction)
    requires m < |ws| && Owned(users, ps, ws)
    ensures WinEntryFor(x, ps[ws[m]].userId, share, t)
  {
    var p := ps[ws[m]];
    var before := Credited(users, ps, ws, share, m)[p.userId].chipBalance;
    GameEntry(p.userId, share, Win, t, before, before + share, WinNote(p.guessType))
  }

  /** The WIN entries for the first `k` rows of `ws`, in order. */
  function WinEntries(users: map<UserId, User>, ps: seq<Participant>, ws: seq<nat>, share: real,
                      t: TableId, k: nat): (r: seq<Transaction>)
    requires k <= |ws| && Owned(users, ps, ws)
    ensures |r| == k
  {
    seq(k, m requires 0 <= m < k => WinEntry(users, ps, ws, share, t, m))
  }

  /** The state once the first `k` rows of `ws` are paid, in order. */
  function PayUpTo(s: State, ws: seq<nat>, share: real, t: TableId, k: nat): (r: State)
    requires Payable(s, ws) && k <= |ws|
    ensures r.tables == s.tables && r.logs == s.logs && r.users.Keys == s.users.Keys
    ensures |r.participants| == |s.participants| && |r.ledger| == |s.ledger| + k
  {
    s.(participants := PaidRows(s.participants, ws, share, k),
       users := Credited(s.users, s.participants, ws, share, k),
       ledger := s.ledger + WinEntries(s.users, s.participants, ws, share, t, k))
  }

  /** The state once a whole tier is paid. */
  function PayTier(s: State, ws: seq<nat>, share: real, t: TableId): (r: State)
    requires Payable(s, ws)
    ensures r.tables == s.tables && r.logs == s.logs && r.users.Keys == s.users.Keys
    ensures |r.participants| == |s.participants| && |r.ledger| == |s.ledger| + |ws|
  {
    PayUpTo(s, ws, share, t, |ws|)
  }

  /** Before the first pass nothing is paid. */
  lemma PayUpToZero(s: State, ws: seq<nat>, share: real, t: TableId)
    requires Payable(s, ws)
    ensures PayUpTo(s, ws, share, t, 0) == s
  {
    assert PaidRows(s.participants, ws, share, 0) == s.participants;
    assert WinEntries(s.users, s.participants, ws, share, t, 0) == [];
  }

  lemma WonAgain(p: Participant, share: real)
    requires p.chipsBet > 0.0
    ensures Won(Won(p, share), share) == Won(p, share)
  {
  }

  lemma PaidRowsStep(ps: seq<Participant>, ws: seq<nat>, share: real, k: nat)
    requires Stakes(ps, ws) && k < |ws|
    ensures PaidRows(ps, ws, share, k)[ws[k]] == if ws[k] in ws[..k] then Won(ps[ws[k]], share) else ps[ws[k]]
    ensures PaidRows(ps, ws, share, k + 1)
              == PaidRows(ps, ws, share, k)[ws[k] := Won(PaidRows(ps, ws, share, k)[ws[k]], share)]
  {
    var j := ws[k];
    var before := PaidRows(ps, ws, share, k);
    var after := PaidRows(ps, ws, share, k + 1);
    assert ws[..k + 1] == ws[..k] + [j];
    forall i | 0 <= i < |ps|
      ensures after[i] == before[j := Won(before[j], share)][i]
    {
      if i == j && i in ws[..k] {
        WonAgain(ps[i], share);
      }
    }
  }

  lemma WinEntriesStep(users: map<UserId, User>, ps: seq<Participant>, ws: seq<nat>, share: real,
                       t: TableId, k: nat)
    requires Owned(users, ps, ws) && k < |ws|
    ensures WinEntries(users, ps, ws, share, t, k + 1)
              == WinEntries(users, ps, ws, share, t, k) + [WinEntry(users, ps, ws, share, t, k)]
  {
    var before := WinEntries(users, ps, ws, share, t, k);
    var after := WinEntries(users, ps, ws, share, t, k + 1);
    assert forall m :: 0 <= m < k ==> after[m] == before[m];
  }

  lemma PayStepRows(s: State, ws: seq<nat>, share: real, t: TableId, k: nat)
    requires Payable(s, ws) && k < |ws|
    ensures PayableRow(PayUpTo(s, ws, share, t, k), ws[k])
    ensures PayUpTo(s, ws, share, t, k + 1).participants
              == PayOne(PayUpTo(s, ws, share, t, k), ws[k], share, t).participants
  {
    PaidRowsStep(s.participants, ws, share, k);
  }

  /** Paying rows never changes whose rows they are. */
  lemma PaidRowsOwner(ps: seq<Participant>, ws: seq<nat>, share: real, k: nat, i: nat)
    requires k <= |ws| && Stakes(ps, ws) && i < |ps|
    ensures PaidRows(ps, ws, share, k)[i].userId == ps[i].userId
    ensures PaidRows(ps, ws, share, k)[i].guessType == ps[i].guessType
  {
  }

  /** The balances after `k + 1` credits are those after `k` with the
      owner of the next row credited once more. */
  lemma CreditedNext(users: map<UserId, User>, ps: seq<Participant>, ws: seq<nat>, share: real, k: nat)
    requires k < |ws| && Owned(users, ps, ws)
    ensures var mid := Credited(users, ps, ws, share, k);
            var owner := ps[ws[k]].userId;
            Credited(users, ps, ws, share, k + 1) == mid[owner := mid[owner].(chipBalance := mid[owner].chipBalance + share)]
  {
  }

  /** One payout pass credits the row's user `share` and no one else. */
  lemma PayOneUsers(s: State, j: nat, share: real, t: TableId)
    requires PayableRow(s, j)
    ensures var owner := s.participants[j].userId;
            PayOne(s, j, share, t).users == s.users[owner := s.users[owner].(chipBalance := s.users[owner].chipBalance + share)]
  {
  }

  /** The WIN entry of the next row is the one a payout pass writes
      against the balances credited so far. */
  lemma WinEntryNext(users: map<UserId, User>, ps: seq<Participant>, ws: seq<nat>, share: real,
                     t: TableId, k: nat)
    requires k < |ws| && Owned(users, ps, ws)
    ensures var p := ps[ws[k]];
            var before := Credited(users, ps, ws, share, k)[p.userId].chipBalance;
            WinEntry(users, ps, ws, share, t, k)
              == GameEntry(p.userId, share, Win, t, before, before + share, WinNote(p.guessType))
  {
  }

  lemma PayStepUsers(s: State, ws: seq<nat>, share: real, t: TableId, k: nat)
    requires Payable(s, ws) && k < |ws| && PayableRow(PayUpTo(s, ws, share, t, k), ws[k])
    ensures PayUpTo(s, ws, share, t, k + 1).users == PayOne(PayUpTo(s, ws, share, t, k), ws[k], share, t).users
  {
    var ps := s.participants;
    var mid := PayUpTo(s, ws, share, t, k);
    var owner := ps[ws[k]].userId;
    var cu := Credited(s.users, ps, ws, share, k);
    var paid := cu[owner := cu[owner].(chipBalance := cu[owner].chipBalance + share)];
    assert mid.participants[ws[k]].userId == owner by {
      PaidRowsOwner(ps, ws, share, k, ws[k]);
    }
    assert mid.users == cu by {
      PayUpToUsers(s, ws, share, t, k);
    }
    assert PayOne(mid, ws[k], share, t).users == paid by {
      PayOneUsers(mid, ws[k], share, t);
    }
    assert PayUpTo(s, ws, share, t, k + 1).users == paid by {
      PayUpToUsers(s, ws, share, t, k + 1);
      CreditedNext(s.users, ps, ws, share, k);
    }
  }

  lemma PayUpToLedger(s: State, ws: seq<nat>, share: real, t: TableId, k: nat)
    requires Payable(s, ws) && k <= |ws|
    ensures PayUpTo(s, ws, share, t, k).ledger == s.ledger + WinEntries(s.users, s.participants, ws, share, t, k)
  {
  }

  lemma PayUpToUsers(s: State, ws: seq<nat>, share: real, t: TableId, k: nat)
    requires Payable(s, ws) && k <= |ws|
    ensures PayUpTo(s, ws, share, t, k).users == Credited(s.users, s.participants, ws, share, k)
  {
  }

  lemma PayStepLedger(s: State, ws: seq<nat>, share: real, t: TableId, k: nat)
    requires Payable(s, ws) && k < |ws| && PayableRow(PayUpTo(s, ws, share, t, k), ws[k])
    ensures PayUpTo(s, ws, share, t, k + 1).ledger == PayOne(PayUpTo(s, ws, share, t, k), ws[k], share, t).ledger
  {
    var ps := s.participants;
    var mid := PayUpTo(s, ws, share, t, k);
    var p, q := ps[ws[k]], mid.participants[ws[k]];
    var before := mid.users[q.userId].chipBalance;
    var e := WinEntry(s.users, ps, ws, share, t, k);
    var es := WinEntries(s.users, ps, ws, share, t, k);
    assert q.userId == p.userId && q.guessType == p.guessType by {
      PaidRowsOwner(ps, ws, share, k, ws[k]);
    }
    assert before == Credited(s.users, ps, ws, share, k)[p.userId].chipBalance by {
      PayUpToUsers(s, ws, share, t, k);
    }
    assert e == GameEntry(q.userId, share, Win, t, before, before + share, WinNote(q.guessType)) by {
      WinEntryNext(s.users, ps, ws, share, t, k);
    }
    assert PayOne(mid, ws[k], share, t).ledger == mid.ledger + [e] by {
      PayOneLedger(mid, ws[k], share, t);
    }
    assert mid.ledger == s.ledger + es by {
      PayUpToLedger(s, ws, share, t, k);
    }
    assert PayUpTo(s, ws, share, t, k + 1).ledger == s.ledger + (es + [e]) by {
      PayUpToLedger(s, ws, share, t, k + 1);
      WinEntriesStep(s.users, ps, ws, share, t, k);
    }
    assert s.ledger + (es + [e]) == mid.ledger + [e];
  }

  /** One payout pass appends the WIN entry for the row's user, recording
      their balance before and after. */
  lemma PayOneLedger(s: State, j: nat, share: real, t: TableId)
    requires PayableRow(s, j)
    ensures var p := s.participants[j];
            var before := s.users[p.userId].chipBalance;
            PayOne(s, j, share, t).ledger
              == s.ledger + [GameEntry(p.userId, share, Win, t, before, before + share, WinNote(p.guessType))]
  {
  }

  /** Paying the next row of a partly paid tier is the one-row payout
      applied to the partly paid state. */
  lemma PayStep(s: State, ws: seq<nat>, share: real, t: TableId, k: nat)
    requires Payable(s, ws) && k < |ws|
    ensures PayableRow(PayUpTo(s, ws, share, t, k), ws[k])
    ensures PayUpTo(s, ws, share, t, k + 1) == PayOne(PayUpTo(s, ws, share, t, k), ws[k], share, t)
  {
    PayStepRows(s, ws, share, t, k);
    PayStepUsers(s, ws, share, t, k);
    PayStepLedger(s, ws, share, t, k);
  }

  /** Paying a tier adds `share` per row to the sum of all balances. */
  lemma {:induction false} CreditedSum(users: map<UserId, User>, ps: seq<Participant>, ws: seq<nat>,
                                       share: real, k: nat)
    requires k <= |ws| && Owned(users, ps, ws)
    ensures SumChips(Credited(users, ps, ws, share, k)) == SumChips(users) + Times(k, share)
    decreases k
  {
    if k > 0 {
      CreditedSum(users, ps, ws, share, k - 1);
      var mid := Credited(users, ps, ws, share, k - 1);
      var owner := ps[ws[k - 1]].userId;
      SumChipsUpdate(mid, owner, mid[owner].(chipBalance := mid[owner].chipBalance + share));
    }
  }

  lemma {:induction false} TimesNonNegative(c: nat, share: real)
    requires share >= 0.0
    ensures Times(c, share) >= 0.0
    decreases c
  {
    if c > 0 {
      TimesNonNegative(c - 1, share);
    }
  }

  /** Paying a tier keeps the store invariant when its share meets the
      entry minimum. */
  lemma PayTierValid(s: State, ws: seq<nat>, share: real, t: TableId)
    requires Valid(s) && Payable(s, ws) && t < |s.tables|
    requires ws != [] ==> share >= MinAmount
    ensures Valid(PayTier(s, ws, share, t))
  {
    var r := PayTier(s, ws, share, t);
    if ws != [] {
      TimesNonNegative(|ws|, share);
      forall u | u in s.users
        ensures UserValid(r.users[u])
      {
        TimesNonNegative(CountFor(s.participants, ws, u, |ws|), share);
        CreditedBalance(s.users, s.participants, ws, share, |ws|, u);
      }
    }
    assert forall i :: 0 <= i < |s.participants| ==> SameSeat(r.participants[i], s.participants[i]);
    assert LedgerValid(r.ledger) by {
      var es := WinEntries(s.users, s.participants, ws, share, t, |ws|);
      assert forall m :: 0 <= m < |es| ==> TransactionValid(es[m]);
    }
  }

  /** Paying a tier leaves what a later tier needs to be paid. */
  lemma PayTierPayable(s: State, ws: seq<nat>, share: real, t: TableId, later: seq<nat>)
    requires Payable(s, ws) && Payable(s, later)
    ensures Payable(PayTier(s, ws, share, t), later)
  {
    var r := PayTier(s, ws, share, t);
    forall i | 0 <= i < |later|
      ensures r.participants[later[i]].userId in r.users && r.participants[later[i]].chipsBet > 0.0
    {
    }
  }

  // ---------------------------------------------------------------------
  // evaluateGame
  // ---------------------------------------------------------------------

  datatype Settlement = Settlement(
    winningNumber: int,
    exactWinners: nat,
    closeWinners: nat,
    conditionWinners: nat,
    distributedAmount: real,
    commissionAmount: real)

  predicate UsersPresent(s: State, ws: seq<nat>) {
    forall i :: 0 <= i < |ws| ==> ws[i] < |s.participants| && s.participants[ws[i]].userId in s.users
  }

  /** The ledger entries a settlement writes meet the 0.01 minimum: each
      non-empty tier's share, and the commission when one is recorded. */
  predicate AmountsValid(ex: nat, se: real, cl: nat, sc: real, co: nat, sd: real, c: real) {
    && (ex > 0 ==> se >= MinAmount)
    && (cl > 0 ==> sc >= MinAmount)
    && (co > 0 ==> sd >= MinAmount)
    && (c > 0.0 ==> c >= MinAmount)
  }

  function CommissionNote(): string { "Commission from game" }

  /** The COMMISSION entry: written for the creator, with no balances, as
      no balance is credited with it. */
  function CommissionEntry(creator: UserId, c: real, t: TableId): (x: Transaction)
    ensures x.txType == Commission && x.status == TxCompleted && x.userId == creator && x.amount == c
    ensures x.gameTableId == Some(t) && x.balanceBefore.None? && x.balanceAfter.None?
    ensures TransactionValid(x) <==> c >= MinAmount
  {
    NewTransaction(creator, c, Commission).(status := TxCompleted, gameTableId := Some(t),
                                            description := CommissionNote())
  }

  lemma TierRowsPayable(s: State, t: TableId, n: int, tier: Tier)
    requires Valid(s) && UsersPresent(s, TierRows(s.participants, t, n, tier))
    ensures Payable(s, TierRows(s.participants, t, n, tier))
  {
    var ws := TierRows(s.participants, t, n, tier);
    assert forall i :: 0 <= i < |ws| ==> ParticipantRowValid(s.participants[ws[i]]);
  }

  function Fraction(tier: Tier): real {
    match tier
    case ExactTier => ExactFraction
    case CloseTier => CloseFraction
    case ConditionTier => ConditionFraction
    case NoTier => 0.0
  }

  /** What each winner of `tier` on table `t` receives. */
  function TierShare(s: State, t: TableId, n: int, tier: Tier): real
    requires t < |s.tables|
  {
    Share(RemainingPot(s.tables[t]), Fraction(tier), |TierRows(s.participants, t, n, tier)|)
  }

  predicate AllUsersPresent(s: State, t: TableId, n: int) {
    && UsersPresent(s, TierRows(s.participants, t, n, ExactTier))
    && UsersPresent(s, TierRows(s.participants, t, n, CloseTier))
    && UsersPresent(s, TierRows(s.participants, t, n, ConditionTier))
  }

  /** What every write of the settlement needs: each winner's user exists,
      and every entry to be written meets the 0.01 minimum. */
  predicate Settleable(s: State, t: TableId, n: int)
    requires t < |s.tables|
  {
    && AllUsersPresent(s, t, n)
    && AmountsValid(|TierRows(s.participants, t, n, ExactTier)|, TierShare(s, t, n, ExactTier),
                    |TierRows(s.participants, t, n, CloseTier)|, TierShare(s, t, n, CloseTier),
                    |TierRows(s.participants, t, n, ConditionTier)|, TierShare(s, t, n, ConditionTier),
                    CommissionOf(s.tables[t]))
  }

  /** What the payout passes need: every winner of each tier is a row of
      a known user with a stake, so it can be paid. */
  predicate Ready(s: State, t: TableId, n: int) {
    && t < |s.tables|
    && Payable(s, TierRows(s.participants, t, n, ExactTier))
    && Payable(s, TierRows(s.participants, t, n, CloseTier))
    && Payable(s, TierRows(s.participants, t, n, ConditionTier))
  }

  lemma ReadyWhenValid(s: State, t: TableId, n: int)
    requires Valid(s) && t < |s.tables| && Settleable(s, t, n)
    ensures Ready(s, t, n)
  {
    TierRowsPayable(s, t, n, ExactTier);
    TierRowsPayable(s, t, n, CloseTier);
    TierRowsPayable(s, t, n, ConditionTier);
  }

  /** After the EXACT winners are paid. */
  function PaidExact(s: State, t: TableId, n: int): (r: State)
    requires Ready(s, t, n)
    ensures Payable(r, TierRows(s.participants, t, n, CloseTier))
    ensures Payable(r, TierRows(s.participants, t, n, ConditionTier))
    ensures r.users.Keys == s.users.Keys && |r.participants| == |s.participants|
    ensures forall i :: 0 <= i < |s.participants| ==> r.participants[i].userId == s.participants[i].userId
  {
    var ex := TierRows(s.participants, t, n, ExactTier);
    var se := TierShare(s, t, n, ExactTier);
    PayTierPayable(s, ex, se, t, TierRows(s.participants, t, n, CloseTier));
    PayTierPayable(s, ex, se, t, TierRows(s.participants, t, n, ConditionTier));
    PayTier(s, ex, se, t)
  }

  /** After the EXACT, then the CLOSE winners are paid. */
  function PaidClose(s: State, t: TableId, n: int): (r: State)
    requires Ready(s, t, n)
    ensures Payable(r, TierRows(s.participants, t, n, ConditionTier))
    ensures r.users.Keys == s.users.Keys && |r.participants| == |s.participants|
    ensures forall i :: 0 <= i < |s.participants| ==> r.participants[i].userId == s.participants[i].userId
  {
    var s1 := PaidExact(s, t, n);
    var cl := TierRows(s.participants, t, n, CloseTier);
    var sc := TierShare(s, t, n, CloseTier);
    PayTierPayable(s1, cl, sc, t, TierRows(s.participants, t, n, ConditionTier));
    PayTier(s1, cl, sc, t)
  }

  /** After all three tiers are paid. */
  function Payouts(s: State, t: TableId, n: int): State
    requires Ready(s, t, n)
  {
    PayTier(PaidClose(s, t, n), TierRows(s.participants, t, n, ConditionTier), TierShare(s, t, n, ConditionTier), t)
  }

  /** The table as the settlement leaves it: completed, with the drawn
      number, the end time and the commission; the pot is not touched. */
  function Closed(g: GameTable, n: int, now: int): GameTable {
    g.(status := Completed, generatedNumber := Some(n), endTime := Some(now), commissionAmount := CommissionOf(g))
  }

  /** The running total of the payouts, one share per winner. */
  function Distributed(s: State, t: TableId, n: int): real
    requires t < |s.tables|
  {
    Times(|TierRows(s.participants, t, n, ExactTier)|, TierShare(s, t, n, ExactTier))
    + Times(|TierRows(s.participants, t, n, CloseTier)|, TierShare(s, t, n, CloseTier))
    + Times(|TierRows(s.participants, t, n, ConditionTier)|, TierShare(s, t, n, ConditionTier))
  }

  /** The ledger entries appended after the payouts: one COMMISSION entry
      when the commission is positive. */
  function CommissionEntries(g: GameTable, t: TableId): seq<Transaction> {
    if CommissionOf(g) > 0.0 then [CommissionEntry(g.createdBy, CommissionOf(g), t)] else []
  }

  /** evaluateGame: `n` stands for the number drawn uniformly from 0..99
      and `now` for the clock. The table is looked up and must be ACTIVE;
      then payouts, entries and the closed table are committed together or
      not at all. */
  function Evaluate(s: State, t: TableId, n: int, now: int): (o: Step<Settlement>)
    requires Valid(s) && 0 <= n <= 99
    ensures o.result.Err? ==> o.next == s
    ensures t >= |s.tables| ==> o.result == Err(TableNotFound)
    ensures t < |s.tables| && s.tables[t].status != Active ==> o.result == Err(GameNotActive)
    ensures t < |s.tables| && s.tables[t].status == Active && !AllUsersPresent(s, t, n) ==>
              o.result == Err(UserNotFound)
    ensures o.result.Ok? <==> t < |s.tables| && s.tables[t].status == Active && Settleable(s, t, n)
    ensures o.result.Ok? ==>
              && o.next.tables == s.tables[t := Closed(s.tables[t], n, now)]
              && o.next.logs == s.logs
              && o.result.value == Settlement(n,
                   |TierRows(s.participants, t, n, ExactTier)|,
                   |TierRows(s.participants, t, n, CloseTier)|,
                   |TierRows(s.participants, t, n, ConditionTier)|,
                   Distributed(s, t, n), CommissionOf(s.tables[t]))
  {
    if t >= |s.tables| then Step(Err(TableNotFound), s)
    else if s.tables[t].status != Active then Step(Err(GameNotActive), s)
    else if !AllUsersPresent(s, t, n) then Step(Err(UserNotFound), s)
    else if !Settleable(s, t, n) then Step(Err(SchemaViolation), s)
    else
      ReadyWhenValid(s, t, n);
      var g := s.tables[t];
      var s3 := Payouts(s, t, n);
      var settlement := Settlement(n,
        |TierRows(s.participants, t, n, ExactTier)|,
        |TierRows(s.participants, t, n, CloseTier)|,
        |TierRows(s.participants, t, n, ConditionTier)|,
        Distributed(s, t, n), CommissionOf(g));
      Step(Ok(settlement),
           s3.(tables := s3.tables[t := Closed(g, n, now)], ledger := s3.ledger + CommissionEntries(g, t)))
  }

  /** The committed state of a settlement that passes its guards. */
  lemma EvaluateCommits(s: State, t: TableId, n: int, now: int)
    requires Valid(s) && 0 <= n <= 99 && t < |s.tables| && s.tables[t].status == Active
    requires Settleable(s, t, n)
    ensures Ready(s, t, n)
    ensures var g := s.tables[t];
            var s3 := Payouts(s, t, n);
            Evaluate(s, t, n, now)
              == Step(Ok(Settlement(n,
                           |TierRows(s.participants, t, n, ExactTier)|,
                           |TierRows(s.participants, t, n, CloseTier)|,
                           |TierRows(s.participants, t, n, ConditionTier)|,
                           Distributed(s, t, n), CommissionOf(g))),
                      s3.(tables := s3.tables[t := Closed(g, n, now)], ledger := s3.ledger + CommissionEntries(g, t)))
  {
    ReadyWhenValid(s, t, n);
  }

  // ---------------------------------------------------------------------
  // What a settlement pays
  // ---------------------------------------------------------------------

  /** Paying every winner of a tier its share pays out the tier's pool. */
  lemma SharesMakePool(remaining: real, fraction: real, count: nat)
    ensures Times(count, Share(remaining, fraction, count)) == TierPool(remaining, fraction, count)
  {
    var share := Share(remaining, fraction, count);
    TimesIsProduct(count, share);
    assert count as real * share == share * count as real;
  }

  /** The distributed amount is the pool of every tier that has a winner:
      80%, 30% and 10% of the pot after commission. */
  lemma DistributedIsPools(s: State, t: TableId, n: int)
    requires t < |s.tables|
    ensures var rem := RemainingPot(s.tables[t]);
            Distributed(s, t, n)
              == TierPool(rem, ExactFraction, |TierRows(s.participants, t, n, ExactTier)|)
               + TierPool(rem, CloseFraction, |TierRows(s.participants, t, n, CloseTier)|)
               + TierPool(rem, ConditionFraction, |TierRows(s.participants, t, n, ConditionTier)|)
  {
    var rem := RemainingPot(s.tables[t]);
    SharesMakePool(rem, ExactFraction, |TierRows(s.participants, t, n, ExactTier)|);
    SharesMakePool(rem, CloseFraction, |TierRows(s.participants, t, n, CloseTier)|);
    SharesMakePool(rem, ConditionFraction, |TierRows(s.participants, t, n, ConditionTier)|);
  }

  /** The pools add up to at most 120% of the pot after commission, and more
      than all of it is paid out exactly when that rest is positive and both
      the EXACT and the CLOSE tier have winners. */
  lemma DistributedBound(s: State, t: TableId, n: int)
    requires t < |s.tables| && TableValid(s.tables[t])
    ensures Distributed(s, t, n) <= 1.2 * RemainingPot(s.tables[t])
    ensures Distributed(s, t, n) > RemainingPot(s.tables[t]) <==>
              && RemainingPot(s.tables[t]) > 0.0
              && |TierRows(s.participants, t, n, ExactTier)| > 0
              && |TierRows(s.participants, t, n, CloseTier)| > 0
  {
    DistributedIsPools(s, t, n);
  }

  /** Paying the three tiers keeps every stored record valid. */
  lemma PayoutsValid(s: State, t: TableId, n: int)
    requires Valid(s) && t < |s.tables| && Settleable(s, t, n)
    ensures Valid(Payouts(s, t, n))
  {
    ReadyWhenValid(s, t, n);
    PayTierValid(s, TierRows(s.participants, t, n, ExactTier), TierShare(s, t, n, ExactTier), t);
    var s1 := PaidExact(s, t, n);
    PayTierValid(s1, TierRows(s.participants, t, n, CloseTier), TierShare(s, t, n, CloseTier), t);
    var s2 := PaidClose(s, t, n);
    PayTierValid(s2, TierRows(s.participants, t, n, ConditionTier), TierShare(s, t, n, ConditionTier), t);
  }

  /** Closing table `t` and appending valid entries keeps a valid store valid. */
  lemma CloseValid(s: State, t: TableId, g: GameTable, extra: seq<Transaction>)
    requires Valid(s) && t < |s.tables| && TableValid(g)
    requires forall i :: 0 <= i < |extra| ==> TransactionValid(extra[i])
    ensures Valid(s.(tables := s.tables[t := g], ledger := s.ledger + extra))
  {
  }

  /** A settlement leaves every stored record valid. */
  lemma EvaluatePreservesValid(s: State, t: TableId, n: int, now: int)
    requires Valid(s) && 0 <= n <= 99
    ensures Valid(Evaluate(s, t, n, now).next)
  {
    if Evaluate(s, t, n, now).result.Ok? {
      EvaluateCommits(s, t, n, now);
      SettledValid(s, t, n, now);
    }
  }

  lemma SettledValid(s: State, t: TableId, n: int, now: int)
    requires Valid(s) && 0 <= n <= 99 && t < |s.tables| && Settleable(s, t, n)
    ensures Ready(s, t, n)
    ensures var g := s.tables[t];
            var s3 := Payouts(s, t, n);
            Valid(s3.(tables := s3.tables[t := Closed(g, n, now)], ledger := s3.ledger + CommissionEntries(g, t)))
  {
    ReadyWhenValid(s, t, n);
    PayoutsValid(s, t, n);
    var s3 := Payouts(s, t, n);
    var g := s.tables[t];
    assert TableValid(Closed(g, n, now));
    CloseValid(s3, t, Closed(g, n, now), CommissionEntries(g, t));
  }

  /** A table is settled at most once: a second evaluation finds it
      COMPLETED and changes nothing. */
  lemma EvaluateExactlyOnce(s: State, t: TableId, n: int, now: int, m: int, later: int)
    requires Valid(s) && 0 <= n <= 99 && 0 <= m <= 99
    requires Evaluate(s, t, n, now).result.Ok?
    ensures Valid(Evaluate(s, t, n, now).next)
    ensures var s' := Evaluate(s, t, n, now).next;
            Evaluate(s', t, m, later) == Step(Err(GameNotActive), s')
  {
    EvaluatePreservesValid(s, t, n, now);
  }

  /** Chips in circulation after a settlement: the table's pot leaves
      circulation and the distributed amount enters the winners' balances;
      the commission is credited to no one. */
  lemma EvaluateConserves(s: State, t: TableId, n: int, now: int)
    requires Valid(s) && 0 <= n <= 99
    ensures var o := Evaluate(s, t, n, now);
            o.result.Ok? ==>
              Circulation(o.next) == Circulation(s) - TotalPot(s.tables[t]) + o.result.value.distributedAmount
  {
    var o := Evaluate(s, t, n, now);
    if o.result.Ok? {
      EvaluateCommits(s, t, n, now);
      var ex := TierRows(s.participants, t, n, ExactTier);
      var cl := TierRows(s.participants, t, n, CloseTier);
      var co := TierRows(s.participants, t, n, ConditionTier);
      ReadyWhenValid(s, t, n);
      var s1 := PaidExact(s, t, n);
      var s2 := PaidClose(s, t, n);
      var s3 := Payouts(s, t, n);
      CreditedSum(s.users, s.participants, ex, TierShare(s, t, n, ExactTier), |ex|);
      CreditedSum(s1.users, s1.participants, cl, TierShare(s, t, n, CloseTier), |cl|);
      CreditedSum(s2.users, s2.participants, co, TierShare(s, t, n, ConditionTier), |co|);
      assert SumChips(o.next.users) == SumChips(s.users) + Distributed(s, t, n);
      OpenPotsUpdate(s.tables, t, Closed(s.tables[t], n, now));
    }
  }

  // ---------------------------------------------------------------------
  // Who is paid what
  // ---------------------------------------------------------------------

  lemma TierMember(ps: seq<Participant>, t: TableId, n: int, tier: Tier, i: nat)
    requires i < |ps|
    ensures i in TierRows(ps, t, n, tier) <==> ps[i].gameTableId == t && TierOf(ps[i], n) == tier
  {
    var ws := TierRows(ps, t, n, tier);
    if i in ws {
      var m :| 0 <= m < |ws| && ws[m] == i;
    }
  }

  lemma PayTierRow(s: State, ws: seq<nat>, share: real, t: TableId, i: nat)
    requires Payable(s, ws) && i < |s.participants|
    ensures PayTier(s, ws, share, t).participants[i]
              == if i in ws then Won(s.participants[i], share) else s.participants[i]
  {
    assert ws[..|ws|] == ws;
  }

  /** A settlement marks every row of the table that falls in a tier as won
      with that tier's share, and leaves every other row as it was. */
  lemma EvaluateRows(s: State, t: TableId, n: int, now: int)
    requires Valid(s) && 0 <= n <= 99 && Evaluate(s, t, n, now).result.Ok?
    ensures var ps := Evaluate(s, t, n, now).next.participants;
            && |ps| == |s.participants|
            && forall i :: 0 <= i < |ps| ==>
                 ps[i] == if s.participants[i].gameTableId == t && TierOf(s.participants[i], n) != NoTier
                          then Won(s.participants[i], TierShare(s, t, n, TierOf(s.participants[i], n)))
                          else s.participants[i]
  {
    EvaluateCommits(s, t, n, now);
    var ps := s.participants;
    ReadyWhenValid(s, t, n);
    var s1 := PaidExact(s, t, n);
    var s2 := PaidClose(s, t, n);
    var ex := TierRows(ps, t, n, ExactTier);
    var cl := TierRows(ps, t, n, CloseTier);
    var co := TierRows(ps, t, n, ConditionTier);
    forall i | 0 <= i < |ps|
      ensures Evaluate(s, t, n, now).next.participants[i]
                == if ps[i].gameTableId == t && TierOf(ps[i], n) != NoTier
                   then Won(ps[i], TierShare(s, t, n, TierOf(ps[i], n)))
                   else ps[i]
    {
      TierMember(ps, t, n, ExactTier, i);
      TierMember(ps, t, n, CloseTier, i);
      TierMember(ps, t, n, ConditionTier, i);
      PayTierRow(s, ex, TierShare(s, t, n, ExactTier), t, i);
      PayTierRow(s1, cl, TierShare(s, t, n, CloseTier), t, i);
      PayTierRow(s2, co, TierShare(s, t, n, ConditionTier), t, i);
    }
  }

  function TierWinnings(s: State, t: TableId, n: int, tier: Tier, u: UserId): real
    requires t < |s.tables|
  {
    var ws := TierRows(s.participants, t, n, tier);
    Times(CountFor(s.participants, ws, u, |ws|), TierShare(s, t, n, tier))
  }

  /** What user `u` wins in the settlement: each tier's share once per row
      of theirs in the tier. */
  function Winnings(s: State, t: TableId, n: int, u: UserId): real
    requires t < |s.tables|
  {
    TierWinnings(s, t, n, ExactTier, u) + TierWinnings(s, t, n, CloseTier, u)
    + TierWinnings(s, t, n, ConditionTier, u)
  }

  lemma {:induction false} CountForSameOwners(ps: seq<Participant>, qs: seq<Participant>, ws: seq<nat>, u: UserId, k: nat)
    requires k <= |ws| && Indices(ps, ws) && Indices(qs, ws)
    requires forall m :: 0 <= m < |ws| ==> qs[ws[m]].userId == ps[ws[m]].userId
    ensures CountFor(qs, ws, u, k) == CountFor(ps, ws, u, k)
    decreases k
  {
    if k > 0 {
      CountForSameOwners(ps, qs, ws, u, k - 1);
    }
  }

  /** After paying a tier, the rows it paid still belong to the same users. */
  lemma PayTierOwners(s: State, ws: seq<nat>, share: real, t: TableId, later: seq<nat>)
    requires Payable(s, ws) && Indices(s.participants, later)
    ensures forall m :: 0 <= m < |later| ==>
              PayTier(s, ws, share, t).participants[later[m]].userId == s.participants[later[m]].userId
  {
  }

  /** What paying one tier does to user `u`, with the tier's rows counted
      on the rows as they were before the settlement. */
  lemma PayTierBalance(s0: State, s: State, ws: seq<nat>, share: real, t: TableId, u: UserId)
    requires Payable(s, ws) && u in s.users && Indices(s0.participants, ws)
    requires forall m :: 0 <= m < |ws| ==> s.participants[ws[m]].userId == s0.participants[ws[m]].userId
    ensures PayTier(s, ws, share, t).users[u]
              == s.users[u].(chipBalance := s.users[u].chipBalance + Times(CountFor(s0.participants, ws, u, |ws|), share))
  {
    CreditedBalance(s.users, s.participants, ws, share, |ws|, u);
    CountForSameOwners(s0.participants, s.participants, ws, u, |ws|);
  }

  lemma PaidExactBalance(s: State, t: TableId, n: int, u: UserId)
    requires Ready(s, t, n) && u in s.users
    ensures PaidExact(s, t, n).users[u]
              == s.users[u].(chipBalance := s.users[u].chipBalance + TierWinnings(s, t, n, ExactTier, u))
  {
    PayTierBalance(s, s, TierRows(s.participants, t, n, ExactTier), TierShare(s, t, n, ExactTier), t, u);
  }

  lemma PaidCloseBalance(s: State, t: TableId, n: int, u: UserId)
    requires Ready(s, t, n) && u in s.users
    ensures var s1 := PaidExact(s, t, n);
            PaidClose(s, t, n).users[u]
              == s1.users[u].(chipBalance := s1.users[u].chipBalance + TierWinnings(s, t, n, CloseTier, u))
  {
    var cl := TierRows(s.participants, t, n, CloseTier);
    var s1 := PaidExact(s, t, n);
    PayTierBalance(s, s1, cl, TierShare(s, t, n, CloseTier), t, u);
  }

  lemma PaidConditionBalance(s: State, t: TableId, n: int, u: UserId)
    requires Ready(s, t, n) && u in s.users
    ensures var s2 := PaidClose(s, t, n);
            Payouts(s, t, n).users[u]
              == s2.users[u].(chipBalance := s2.users[u].chipBalance + TierWinnings(s, t, n, ConditionTier, u))
  {
    var co := TierRows(s.participants, t, n, ConditionTier);
    var s2 := PaidClose(s, t, n);
    PayTierBalance(s, s2, co, TierShare(s, t, n, ConditionTier), t, u);
  }

  lemma PayoutsBalance(s: State, t: TableId, n: int, u: UserId)
    requires Ready(s, t, n) && u in s.users
    ensures u in Payouts(s, t, n).users
    ensures Payouts(s, t, n).users[u] == s.users[u].(chipBalance := s.users[u].chipBalance + Winnings(s, t, n, u))
  {
    PaidExactBalance(s, t, n, u);
    PaidCloseBalance(s, t, n, u);
    PaidConditionBalance(s, t, n, u);
  }

  /** A settlement credits every user their winnings and changes nothing
      else about them. */
  lemma EvaluateBalances(s: State, t: TableId, n: int, now: int)
    requires Valid(s) && 0 <= n <= 99 && Evaluate(s, t, n, now).result.Ok?
    ensures var users := Evaluate(s, t, n, now).next.users;
            && users.Keys == s.users.Keys
            && forall u :: u in s.users ==>
                 users[u] == s.users[u].(chipBalance := s.users[u].chipBalance + Winnings(s, t, n, u))
  {
    EvaluateCommits(s, t, n, now);
    assert Evaluate(s, t, n, now).next.users == Payouts(s, t, n).users;
    forall u | u in s.users
      ensures Payouts(s, t, n).users[u] == s.users[u].(chipBalance := s.users[u].chipBalance + Winnings(s, t, n, u))
    {
      PayoutsBalance(s, t, n, u);
    }
  }

  lemma {:induction false} CountForNone(ps: seq<Participant>, ws: seq<nat>, u: UserId, k: nat)
    requires k <= |ws| && Indices(ps, ws)
    requires forall m :: 0 <= m < |ws| ==> ps[ws[m]].userId != u
    ensures CountFor(ps, ws, u, k) == 0
    decreases k
  {
    if k > 0 {
      CountForNone(ps, ws, u, k - 1);
    }
  }

  /** A user none of whose rows on the table falls in a tier wins nothing. */
  lemma NoWinnings(s: State, t: TableId, n: int, u: UserId)
    requires t < |s.tables|
    requires forall i :: 0 <= i < |s.participants| && SeatOf(s.participants[i], u, t) ==>
               TierOf(s.participants[i], n) == NoTier
    ensures Winnings(s, t, n, u) == 0.0
  {
    var ps := s.participants;
    CountForNone(ps, TierRows(ps, t, n, ExactTier), u, |TierRows(ps, t, n, ExactTier)|);
    CountForNone(ps, TierRows(ps, t, n, CloseTier), u, |TierRows(ps, t, n, CloseTier)|);
    CountForNone(ps, TierRows(ps, t, n, ConditionTier), u, |TierRows(ps, t, n, ConditionTier)|);
  }

  /** A user with no winning row on the table keeps their record unchanged;
      in particular the table's creator is not credited the commission. */
  lemma NonWinnerUnchanged(s: State, t: TableId, n: int, now: int, u: UserId)
    requires Valid(s) && 0 <= n <= 99 && Evaluate(s, t, n, now).result.Ok? && u in s.users
    requires forall i :: 0 <= i < |s.participants| && SeatOf(s.participants[i], u, t) ==>
               TierOf(s.participants[i], n) == NoTier
    ensures Evaluate(s, t, n, now).next.users[u] == s.users[u]
  {
    EvaluateCommits(s, t, n, now);
    PayoutsSkip(s, t, n, u);
  }

  lemma PayoutsSkip(s: State, t: TableId, n: int, u: UserId)
    requires Ready(s, t, n) && u in s.users
    requires forall i :: 0 <= i < |s.participants| && SeatOf(s.participants[i], u, t) ==>
               TierOf(s.participants[i], n) == NoTier
    ensures Payouts(s, t, n).users[u] == s.users[u]
  {
    PayoutsBalance(s, t, n, u);
    NoWinnings(s, t, n, u);
  }

  /** The commission is recorded as a COMMISSION entry for the creator with
      no balances, and the creator's balance moves only by their own
      winnings. */
  lemma CommissionCreditsNobody(s: State, t: TableId, n: int, now: int)
    requires Valid(s) && 0 <= n <= 99 && Evaluate(s, t, n, now).result.Ok?
    requires CommissionOf(s.tables[t]) > 0.0 && s.tables[t].createdBy in s.users
    requires forall i :: 0 <= i < |s.participants| && SeatOf(s.participants[i], s.tables[t].createdBy, t) ==>
               TierOf(s.participants[i], n) == NoTier
    ensures var s' := Evaluate(s, t, n, now).next;
            var x := s'.ledger[|s'.ledger| - 1];
            && |s'.ledger| > 0
            && x.txType == Commission && x.userId == s.tables[t].createdBy && x.amount == CommissionOf(s.tables[t])
            && x.balanceBefore.None? && x.balanceAfter.None?
            && s'.users[s.tables[t].createdBy] == s.users[s.tables[t].createdBy]
  {
    NonWinnerUnchanged(s, t, n, now, s.tables[t].createdBy);
  }

  /** Row `i` is among the first `k` positions of `ws`. */
  predicate InPrefix(ws: seq<nat>, k: nat, i: nat)
    requires k <= |ws|
  {
    exists m :: 0 <= m < k && ws[m] == i
  }

  /** With one seat per user and table, a tier counts user `u` once if
      their seat `i` is among its first `k` rows, and not at all otherwise. */
  lemma {:induction false} CountForSeat(ps: seq<Participant>, t: TableId, n: int, tier: Tier, i: nat, k: nat)
    requires OneSeatEach(ps) && i < |ps| && ps[i].gameTableId == t
    requires k <= |TierRows(ps, t, n, tier)|
    ensures var ws := TierRows(ps, t, n, tier);
            CountFor(ps, ws, ps[i].userId, k) == if InPrefix(ws, k, i) then 1 else 0
    decreases k
  {
    var ws := TierRows(ps, t, n, tier);
    if k > 0 {
      CountForSeat(ps, t, n, tier, i, k - 1);
      var j := ws[k - 1];
      assert ps[j].gameTableId == t;
      assert ps[j].userId == ps[i].userId <==> j == i;
      if InPrefix(ws, k, i) && j != i {
        var m :| 0 <= m < k && ws[m] == i;
        assert InPrefix(ws, k - 1, i);
      }
      if j == i {
        assert InPrefix(ws, k, i);
        WinnersSorted(ps, t, n, tier, |ps|);
      }
    }
  }

  lemma TierCount(ps: seq<Participant>, t: TableId, n: int, tier: Tier, i: nat)
    requires OneSeatEach(ps) && i < |ps| && ps[i].gameTableId == t
    ensures var ws := TierRows(ps, t, n, tier);
            CountFor(ps, ws, ps[i].userId, |ws|) == if TierOf(ps[i], n) == tier then 1 else 0
  {
    var ws := TierRows(ps, t, n, tier);
    CountForSeat(ps, t, n, tier, i, |ws|);
    TierMember(ps, t, n, tier, i);
    if i in ws {
      var m :| 0 <= m < |ws| && ws[m] == i;
      assert InPrefix(ws, |ws|, i);
    }
  }

  lemma SeatTierWinnings(s: State, t: TableId, n: int, i: nat, tier: Tier)
    requires t < |s.tables| && OneSeatEach(s.participants) && i < |s.participants|
    requires s.participants[i].gameTableId == t
    ensures TierWinnings(s, t, n, tier, s.participants[i].userId)
              == if TierOf(s.participants[i], n) == tier then TierShare(s, t, n, tier) else 0.0
  {
    TierCount(s.participants, t, n, tier, i);
    var sh := TierShare(s, t, n, tier);
    assert Times(1, sh) == sh;
  }

  /** What the holder of seat `i` on the table wins: the share of the tier
      the row falls in, or nothing. */
  lemma SeatWinnings(s: State, t: TableId, n: int, i: nat)
    requires t < |s.tables| && OneSeatEach(s.participants) && i < |s.participants|
    requires s.participants[i].gameTableId == t
    ensures var p := s.participants[i];
            Winnings(s, t, n, p.userId) == if TierOf(p, n) == NoTier then 0.0 else TierShare(s, t, n, TierOf(p, n))
  {
    SeatTierWinnings(s, t, n, i, ExactTier);
    SeatTierWinnings(s, t, n, i, CloseTier);
    SeatTierWinnings(s, t, n, i, ConditionTier);
  }

  /** Every winner is credited exactly the share of the tier their row
      falls in, because they hold one row on the table. */
  lemma WinnerCredited(s: State, t: TableId, n: int, now: int, i: nat)
    requires Valid(s) && 0 <= n <= 99 && Evaluate(s, t, n, now).result.Ok?
    requires i < |s.participants| && s.participants[i].gameTableId == t
    requires TierOf(s.participants[i], n) != NoTier
    ensures var p := s.participants[i];
            && p.userId in s.users
            && Evaluate(s, t, n, now).next.users[p.userId].chipBalance
                 == s.users[p.userId].chipBalance + TierShare(s, t, n, TierOf(p, n))
  {
    EvaluateCommits(s, t, n, now);
    var p := s.participants[i];
    var tier := TierOf(p, n);
    TierMember(s.participants, t, n, tier, i);
    var ws := TierRows(s.participants, t, n, tier);
    var m :| 0 <= m < |ws| && ws[m] == i;
    assert p.userId in s.users;
    assert Evaluate(s, t, n, now).next.users == Payouts(s, t, n).users;
    PayoutsBalance(s, t, n, p.userId);
    SeatWinnings(s, t, n, i);
  }

  /** A paid tier appends one WIN entry per row, in the order of the tier. */
  lemma PayTierEntries(s: State, ws: seq<nat>, share: real, t: TableId)
    requires Payable(s, ws)
    ensures var es := PayTier(s, ws, share, t).ledger[|s.ledger|..];
            && PayTier(s, ws, share, t).ledger == s.ledger + es
            && |es| == |ws|
            && forall k :: 0 <= k < |ws| ==> WinEntryFor(es[k], s.participants[ws[k]].userId, share, t)
  {
    var r := PayTier(s, ws, share, t);
    assert r.ledger[|s.ledger|..] == WinEntries(s.users, s.participants, ws, share, t, |ws|);
  }

  /** From position `at` of `es` on, one WIN entry per row of `ws`, in
      order, each of `share` on table `t`. */
  predicate WinsAt(es: seq<Transaction>, at: nat, ps: seq<Participant>, ws: seq<nat>, share: real, t: TableId) {
    && at + |ws| <= |es|
    && forall k :: 0 <= k < |ws| ==> ws[k] < |ps| && WinEntryFor(es[at + k], ps[ws[k]].userId, share, t)
  }

  lemma WinsAtConcat(pre: seq<Transaction>, es: seq<Transaction>, post: seq<Transaction>,
                     ps: seq<Participant>, ws: seq<nat>, share: real, t: TableId)
    requires WinsAt(es, 0, ps, ws, share, t)
    ensures WinsAt(pre + es + post, |pre|, ps, ws, share, t)
  {
    var all := pre + es + post;
    assert forall k :: 0 <= k < |ws| ==> all[|pre| + k] == es[k];
  }

  lemma PayTierWins(s0: State, s: State, ws: seq<nat>, share: real, t: TableId)
    requires Payable(s, ws) && Indices(s0.participants, ws)
    requires forall m :: 0 <= m < |ws| ==> s.participants[ws[m]].userId == s0.participants[ws[m]].userId
    ensures var es := PayTier(s, ws, share, t).ledger[|s.ledger|..];
            && PayTier(s, ws, share, t).ledger == s.ledger + es
            && |es| == |ws|
            && WinsAt(es, 0, s0.participants, ws, share, t)
  {
    PayTierEntries(s, ws, share, t);
  }

  /** The WIN entries of a settlement, in order: those of the EXACT tier,
      then the CLOSE tier, then the condition tier. */
  predicate SettlementWins(es: seq<Transaction>, s: State, t: TableId, n: int)
    requires t < |s.tables|
  {
    var ps := s.participants;
    var ex := TierRows(ps, t, n, ExactTier);
    var cl := TierRows(ps, t, n, CloseTier);
    var co := TierRows(ps, t, n, ConditionTier);
    && |es| == |ex| + |cl| + |co|
    && WinsAt(es, 0, ps, ex, TierShare(s, t, n, ExactTier), t)
    && WinsAt(es, |ex|, ps, cl, TierShare(s, t, n, CloseTier), t)
    && WinsAt(es, |ex| + |cl|, ps, co, TierShare(s, t, n, ConditionTier), t)
  }

  lemma PaidExactLedger(s: State, t: TableId, n: int)
    requires Ready(s, t, n)
    ensures var e := PaidExact(s, t, n).ledger[|s.ledger|..];
            && PaidExact(s, t, n).ledger == s.ledger + e
            && |e| == |TierRows(s.participants, t, n, ExactTier)|
            && WinsAt(e, 0, s.participants, TierRows(s.participants, t, n, ExactTier), TierShare(s, t, n, ExactTier), t)
  {
    PayTierWins(s, s, TierRows(s.participants, t, n, ExactTier), TierShare(s, t, n, ExactTier), t);
  }

  lemma PaidCloseLedger(s: State, t: TableId, n: int)
    requires Ready(s, t, n)
    ensures var s1 := PaidExact(s, t, n);
            var e := PaidClose(s, t, n).ledger[|s1.ledger|..];
            && PaidClose(s, t, n).ledger == s1.ledger + e
            && |e| == |TierRows(s.participants, t, n, CloseTier)|
            && WinsAt(e, 0, s.participants, TierRows(s.participants, t, n, CloseTier), TierShare(s, t, n, CloseTier), t)
  {
    PayTierWins(s, PaidExact(s, t, n), TierRows(s.participants, t, n, CloseTier), TierShare(s, t, n, CloseTier), t);
  }

  lemma PaidConditionLedger(s: State, t: TableId, n: int)
    requires Ready(s, t, n)
    ensures var s2 := PaidClose(s, t, n);
            var e := Payouts(s, t, n).ledger[|s2.ledger|..];
            && Payouts(s, t, n).ledger == s2.ledger + e
            && |e| == |TierRows(s.participants, t, n, ConditionTier)|
            && WinsAt(e, 0, s.participants, TierRows(s.participants, t, n, ConditionTier), TierShare(s, t, n, ConditionTier), t)
  {
    PayTierWins(s, PaidClose(s, t, n), TierRows(s.participants, t, n, ConditionTier), TierShare(s, t, n, ConditionTier), t);
  }

  lemma WinsConcat(e1: seq<Transaction>, e2: seq<Transaction>, e3: seq<Transaction>, s: State, t: TableId, n: int)
    requires t < |s.tables|
    requires WinsAt(e1, 0, s.participants, TierRows(s.participants, t, n, ExactTier), TierShare(s, t, n, ExactTier), t)
    requires WinsAt(e2, 0, s.participants, TierRows(s.participants, t, n, CloseTier), TierShare(s, t, n, CloseTier), t)
    requires WinsAt(e3, 0, s.participants, TierRows(s.participants, t, n, ConditionTier), TierShare(s, t, n, ConditionTier), t)
    requires |e1| == |TierRows(s.participants, t, n, ExactTier)|
    requires |e2| == |TierRows(s.participants, t, n, CloseTier)|
    requires |e3| == |TierRows(s.participants, t, n, ConditionTier)|
    ensures SettlementWins(e1 + e2 + e3, s, t, n)
  {
    var ps := s.participants;
    WinsAtConcat([], e1, e2 + e3, ps, TierRows(ps, t, n, ExactTier), TierShare(s, t, n, ExactTier), t);
    WinsAtConcat(e1, e2, e3, ps, TierRows(ps, t, n, CloseTier), TierShare(s, t, n, CloseTier), t);
    WinsAtConcat(e1 + e2, e3, [], ps, TierRows(ps, t, n, ConditionTier), TierShare(s, t, n, ConditionTier), t);
    assert [] + e1 + (e2 + e3) == e1 + e2 + e3;
    assert e1 + e2 + e3 + [] == e1 + e2 + e3;
  }

  lemma AppendThree<X>(l0: seq<X>, e1: seq<X>, e2: seq<X>, e3: seq<X>, l1: seq<X>, l2: seq<X>, l3: seq<X>)
    requires l1 == l0 + e1 && l2 == l1 + e2 && l3 == l2 + e3
    ensures l3 == l0 + (e1 + e2 + e3) && l3[|l0|..] == e1 + e2 + e3
  {
    assert l3 == l0 + (e1 + e2 + e3);
  }

  lemma PayoutsLedger(s: State, t: TableId, n: int)
    requires Ready(s, t, n)
    ensures var es := Payouts(s, t, n).ledger[|s.ledger|..];
            Payouts(s, t, n).ledger == s.ledger + es && SettlementWins(es, s, t, n)
  {
    PaidExactLedger(s, t, n);
    PaidCloseLedger(s, t, n);
    PaidConditionLedger(s, t, n);
    var l0 := s.ledger;
    var l1 := PaidExact(s, t, n).ledger;
    var l2 := PaidClose(s, t, n).ledger;
    var l3 := Payouts(s, t, n).ledger;
    var e1 := l1[|l0|..];
    var e2 := l2[|l1|..];
    var e3 := l3[|l2|..];
    AppendThree(l0, e1, e2, e3, l1, l2, l3);
    WinsConcat(e1, e2, e3, s, t, n);
  }

  /** The entries a settlement appends: its WIN entries, then the
      COMMISSION entry if the commission is positive. */
  lemma EvaluateLedger(s: State, t: TableId, n: int, now: int)
    requires Valid(s) && 0 <= n <= 99 && Evaluate(s, t, n, now).result.Ok?
    ensures var x := Evaluate(s, t, n, now).next.ledger;
            var es := x[|s.ledger|..|x| - |CommissionEntries(s.tables[t], t)|];
            && |s.ledger| + |CommissionEntries(s.tables[t], t)| <= |x|
            && x == s.ledger + es + CommissionEntries(s.tables[t], t)
            && SettlementWins(es, s, t, n)
  {
    EvaluateCommits(s, t, n, now);
    PayoutsLedger(s, t, n);
    var s3 := Payouts(s, t, n);
    var es := s3.ledger[|s.ledger|..];
    var ce := CommissionEntries(s.tables[t], t);
    var x := Evaluate(s, t, n, now).next.ledger;
    assert x == s.ledger + es + ce;
    assert x[|s.ledger|..|x| - |ce|] == es;
  }
}
