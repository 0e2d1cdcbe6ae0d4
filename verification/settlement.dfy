/**
 * Draw settlement and scheduling: completing a draw with its winning number, settling every bet
 * that was pending on it, crediting winners, and creating the next draw of the same game.
 */
module Settlement {
  import opened Wrappers
  import opened Sums
  import opened Accounts
  import opened Store
  import opened DrawSchedule
  import opened LotteryRules

  /** A bet that settling `lotteryId` visits: one of that draw's bets still pending on entry. */
  predicate Visited(b: Bet, lotteryId: nat) {
    b.lotteryId == lotteryId && b.status == Pending
  }

  /** The keys of the bets settling `lotteryId` visits. */
  function PendingOf(s: Store, lotteryId: nat): (r: set<nat>)
    ensures forall k :: k in r <==> k in s.bets && Visited(s.bets[k], lotteryId)
  {
    set k | k in s.bets && Visited(s.bets[k], lotteryId)
  }

  /** A bet's outcome: won on exact string equality with the winning number, lost otherwise. */
  function Resolve(b: Bet, winning: string): Bet {
    b.(status := if b.number == winning then Won else Lost)
  }

  /** What resolving `b` pays into the accounts listed in `who`. */
  function BetCredit(b: Bet, winning: string, who: set<nat>): int {
    if b.number == winning && b.userId in who then b.potentialWin else 0
  }

  /** The credits the bets with keys in `keys` pay into the accounts of `who`. */
  ghost function Credits(s: Store, keys: set<nat>, winning: string, who: set<nat>): map<nat, int>
    requires keys <= s.bets.Keys
  {
    map k | k in keys :: BetCredit(s.bets[k], winning, who)
  }

  lemma CreditsInsert(s: Store, keys: set<nat>, k: nat, winning: string, who: set<nat>)
    requires keys <= s.bets.Keys && k in s.bets && k !in keys
    ensures Sum(Credits(s, keys + {k}, winning, who))
         == Sum(Credits(s, keys, winning, who)) + BetCredit(s.bets[k], winning, who)
  {
    assert Credits(s, keys + {k}, winning, who)
        == Credits(s, keys, winning, who)[k := BetCredit(s.bets[k], winning, who)];
    SumInsert(Credits(s, keys, winning, who), k, BetCredit(s.bets[k], winning, who));
  }

  /** What settling `lotteryId` pays into account `u`. */
  ghost function PayoutTo(s: Store, lotteryId: nat, winning: string, u: nat): int {
    Sum(Credits(s, PendingOf(s, lotteryId), winning, {u}))
  }

  /** What settling `lotteryId` pays into all existing accounts together. */
  ghost function TotalPayout(s: Store, lotteryId: nat, winning: string): int {
    Sum(Credits(s, PendingOf(s, lotteryId), winning, s.accounts.Keys))
  }

  /** The draw marked completed with its winning number. */
  function CompletedDraws(s: Store, lotteryId: nat, winning: string): map<nat, Draw>
    requires lotteryId in s.draws
  {
    s.draws[lotteryId := s.draws[lotteryId].(status := Completed, winningNumber := Some(winning))]
  }

  /**
   * Reference definition of a settlement. The draw is loaded together with its pending bets by an
   * inner join, so a missing draw and a draw without pending bets both count as "not found".
   * Otherwise the draw is completed, each visited bet is resolved, every other bet is untouched,
   * and each account gains what its winning bets pay.
   */
  ghost function SettleSpec(s: Store, lotteryId: nat, winning: string): Result<Store, Error> {
    if lotteryId !in s.draws || PendingOf(s, lotteryId) == {} then Err(LotteryNotFound)
    else Ok(s.(
      draws := CompletedDraws(s, lotteryId, winning),
      bets := map k | k in s.bets :: if Visited(s.bets[k], lotteryId) then Resolve(s.bets[k], winning) else s.bets[k],
      accounts := map u | u in s.accounts ::
        s.accounts[u].(balance := s.accounts[u].balance + PayoutTo(s, lotteryId, winning, u))))
  }

  /**
   * Settling one visited bet: mark it won and credit its owner's balance by its payout (a raw
   * update that touches no row when the owner is missing), or mark it lost.
   */
  function SettleOne(t: Store, k: nat, winning: string): (r: Store)
    requires k in t.bets
  {
    var b := t.bets[k];
    if b.number == winning then
      var t' := t.(bets := t.bets[k := b.(status := Won)]);
      if b.userId in t'.accounts then t'.(accounts := Adjust(t'.accounts, b.userId, b.potentialWin)) else t'
    else t.(bets := t.bets[k := b.(status := Lost)])
  }

  /** A settlement in progress changes only draws, bets and balances. */
  ghost predicate PartialFrame(s: Store, lotteryId: nat, winning: string, t: Store)
    requires lotteryId in s.draws
  {
    && t.draws == CompletedDraws(s, lotteryId, winning)
    && t.txs == s.txs && t.nextDrawId == s.nextDrawId && t.nextBetId == s.nextBetId && t.nextTxId == s.nextTxId
    && t.bets.Keys == s.bets.Keys
    && t.accounts.Keys == s.accounts.Keys
  }

  /** The bets in `done` are resolved and every other bet is as it was. */
  ghost predicate PartialBets(s: Store, winning: string, done: set<nat>, t: Store)
    requires t.bets.Keys == s.bets.Keys
  {
    forall k :: k in s.bets ==> t.bets[k] == if k in done then Resolve(s.bets[k], winning) else s.bets[k]
  }

  /** Each account has gained what the bets in `done` pay it. */
  ghost predicate PartialAccounts(s: Store, winning: string, done: set<nat>, t: Store)
    requires done <= s.bets.Keys && t.accounts.Keys == s.accounts.Keys
  {
    forall u :: u in s.accounts ==>
      t.accounts[u] == s.accounts[u].(balance := s.accounts[u].balance + Sum(Credits(s, done, winning, {u})))
  }

  /** The accounts together have gained what the bets in `done` pay to existing accounts. */
  ghost predicate PartialTotal(s: Store, winning: string, done: set<nat>, t: Store)
    requires done <= s.bets.Keys
  {
    TotalBalance(t.accounts) == TotalBalance(s.accounts) + Sum(Credits(s, done, winning, s.accounts.Keys))
  }

  /** The state of a settlement of `lotteryId` in progress, with the bets in `done` already settled. */
  ghost predicate Partial(s: Store, lotteryId: nat, winning: string, done: set<nat>, t: Store)
    requires lotteryId in s.draws && done <= s.bets.Keys
  {
    && PartialFrame(s, lotteryId, winning, t)
    && PartialBets(s, winning, done, t)
    && PartialAccounts(s, winning, done, t)
    && PartialTotal(s, winning, done, t)
  }

  lemma PartialStart(s: Store, lotteryId: nat, winning: string)
    requires lotteryId in s.draws
    ensures Partial(s, lotteryId, winning, {}, s.(draws := CompletedDraws(s, lotteryId, winning)))
  {
    forall who: set<nat> ensures Sum(Credits(s, {}, winning, who)) == 0 {
      assert Credits(s, {}, winning, who) == map[];
    }
  }

  /** What one settling step does to one account. */
  lemma SettleOneAccount(t: Store, k: nat, winning: string, u: nat)
    requires k in t.bets && u in t.accounts
    ensures SettleOne(t, k, winning).accounts.Keys == t.accounts.Keys
    ensures SettleOne(t, k, winning).accounts[u]
         == t.accounts[u].(balance := t.accounts[u].balance + BetCredit(t.bets[k], winning, {u}))
  {
    var b := t.bets[k];
    if b.number == winning && b.userId in t.accounts {
      if b.userId == u {
        assert BetCredit(b, winning, {u}) == b.potentialWin;
      } else {
        assert BetCredit(b, winning, {u}) == 0;
      }
    } else {
      assert BetCredit(b, winning, {u}) == 0;
    }
  }

  lemma StepAccounts(s: Store, winning: string, done: set<nat>, t: Store, k: nat)
    requires done <= s.bets.Keys && k in s.bets && k !in done
    requires t.accounts.Keys == s.accounts.Keys && t.bets.Keys == s.bets.Keys && t.bets[k] == s.bets[k]
    requires PartialAccounts(s, winning, done, t)
    ensures SettleOne(t, k, winning).accounts.Keys == s.accounts.Keys
    ensures PartialAccounts(s, winning, done + {k}, SettleOne(t, k, winning))
  {
    var t' := SettleOne(t, k, winning);
    forall u | u in s.accounts
      ensures t'.accounts[u] == s.accounts[u].(balance := s.accounts[u].balance + Sum(Credits(s, done + {k}, winning, {u})))
    {
      StepOneAccount(s, winning, done, t, k, u);
    }
  }

  /** `StepAccounts` for a single account. */
  lemma StepOneAccount(s: Store, winning: string, done: set<nat>, t: Store, k: nat, u: nat)
    requires done <= s.bets.Keys && k in s.bets && k !in done && u in s.accounts
    requires t.accounts.Keys == s.accounts.Keys && t.bets.Keys == s.bets.Keys && t.bets[k] == s.bets[k]
    requires t.accounts[u] == s.accounts[u].(balance := s.accounts[u].balance + Sum(Credits(s, done, winning, {u})))
    ensures SettleOne(t, k, winning).accounts[u]
         == s.accounts[u].(balance := s.accounts[u].balance + Sum(Credits(s, done + {k}, winning, {u})))
  {
    SettleOneAccount(t, k, winning, u);
    CreditsInsert(s, done, k, winning, {u});
  }

  lemma StepTotal(s: Store, winning: string, done: set<nat>, t: Store, k: nat)
    requires done <= s.bets.Keys && k in s.bets && k !in done
    requires t.accounts.Keys == s.accounts.Keys && t.bets.Keys == s.bets.Keys && t.bets[k] == s.bets[k]
    requires PartialTotal(s, winning, done, t)
    ensures PartialTotal(s, winning, done + {k}, SettleOne(t, k, winning))
  {
    var b := s.bets[k];
    CreditsInsert(s, done, k, winning, s.accounts.Keys);
    if b.number == winning && b.userId in t.accounts {
      AdjustTotal(t.accounts, b.userId, b.potentialWin);
    }
  }

  lemma StepBets(s: Store, winning: string, done: set<nat>, t: Store, k: nat)
    requires k in s.bets && t.bets.Keys == s.bets.Keys && t.bets[k] == s.bets[k]
    requires PartialBets(s, winning, done, t)
    ensures SettleOne(t, k, winning).bets == t.bets[k := Resolve(s.bets[k], winning)]
    ensures PartialBets(s, winning, done + {k}, SettleOne(t, k, winning))
  {
  }

  lemma StepFrame(s: Store, lotteryId: nat, winning: string, t: Store, k: nat)
    requires lotteryId in s.draws && k in t.bets
    requires PartialFrame(s, lotteryId, winning, t)
    ensures PartialFrame(s, lotteryId, winning, SettleOne(t, k, winning))
  {
  }

  lemma PartialStep(s: Store, lotteryId: nat, winning: string, done: set<nat>, t: Store, k: nat)
    requires lotteryId in s.draws && done <= s.bets.Keys
    requires k in s.bets && k !in done
    requires Partial(s, lotteryId, winning, done, t)
    ensures Partial(s, lotteryId, winning, done + {k}, SettleOne(t, k, winning))
  {
    assert t.bets[k] == s.bets[k];
    StepFrame(s, lotteryId, winning, t, k);
    StepBets(s, winning, done, t, k);
    StepAccounts(s, winning, done, t, k);
    StepTotal(s, winning, done, t, k);
  }

  /** Once every pending bet is settled, the bets are the reference definition's bets. */
  lemma FinishBets(s: Store, lotteryId: nat, winning: string, t: Store)
    requires t.bets.Keys == s.bets.Keys
    requires PartialBets(s, winning, PendingOf(s, lotteryId), t)
    ensures t.bets == map k | k in s.bets :: if Visited(s.bets[k], lotteryId) then Resolve(s.bets[k], winning) else s.bets[k]
  {
    var pending := PendingOf(s, lotteryId);
    var bets := map k | k in s.bets :: if Visited(s.bets[k], lotteryId) then Resolve(s.bets[k], winning) else s.bets[k];
    forall k | k in s.bets ensures t.bets[k] == bets[k] {
      assert k in pending <==> Visited(s.bets[k], lotteryId);
    }
  }

  /** Once every pending bet is settled, the accounts are the reference definition's accounts. */
  lemma FinishAccounts(s: Store, lotteryId: nat, winning: string, t: Store)
    requires PendingOf(s, lotteryId) <= s.bets.Keys && t.accounts.Keys == s.accounts.Keys
    requires PartialAccounts(s, winning, PendingOf(s, lotteryId), t)
    ensures t.accounts == map u | u in s.accounts ::
      s.accounts[u].(balance := s.accounts[u].balance + PayoutTo(s, lotteryId, winning, u))
  {
    var accounts := map u | u in s.accounts ::
      s.accounts[u].(balance := s.accounts[u].balance + PayoutTo(s, lotteryId, winning, u));
    forall u | u in s.accounts ensures t.accounts[u] == accounts[u] {
      assert PayoutTo(s, lotteryId, winning, u) == Sum(Credits(s, PendingOf(s, lotteryId), winning, {u}));
    }
  }

  lemma PartialFinish(s: Store, lotteryId: nat, winning: string, t: Store)
    requires lotteryId in s.draws && PendingOf(s, lotteryId) != {}
    requires Partial(s, lotteryId, winning, PendingOf(s, lotteryId), t)
    ensures SettleSpec(s, lotteryId, winning) == Ok(t)
    ensures TotalBalance(t.accounts) == TotalBalance(s.accounts) + TotalPayout(s, lotteryId, winning)
  {
    FinishBets(s, lotteryId, winning, t);
    FinishAccounts(s, lotteryId, winning, t);
    var spec := SettleSpec(s, lotteryId, winning).value;
    assert spec.draws == t.draws && spec.bets == t.bets && spec.accounts == t.accounts;
    assert t == spec;
  }

  /**
   * The loop state of a settlement: the pending bets split into those still to visit and those
   * already settled, with the store as the settled ones leave it.
   */
  ghost predicate Loop(s: Store, lotteryId: nat, winning: string, todo: set<nat>, done: set<nat>, t: Store) {
    && lotteryId in s.draws
    && todo + done == PendingOf(s, lotteryId) && todo !! done
    && todo <= t.bets.Keys && done <= s.bets.Keys
    && Partial(s, lotteryId, winning, done, t)
  }

  lemma LoopStart(s: Store, lotteryId: nat, winning: string)
    requires lotteryId in s.draws
    ensures Loop(s, lotteryId, winning, PendingOf(s, lotteryId), {}, s.(draws := CompletedDraws(s, lotteryId, winning)))
  {
    PartialStart(s, lotteryId, winning);
  }

  lemma LoopStep(s: Store, lotteryId: nat, winning: string, todo: set<nat>, done: set<nat>, t: Store, k: nat)
    requires Loop(s, lotteryId, winning, todo, done, t) && k in todo
    ensures k in t.bets
    ensures Loop(s, lotteryId, winning, todo - {k}, done + {k}, SettleOne(t, k, winning))
  {
    PartialStep(s, lotteryId, winning, done, t, k);
  }

  lemma LoopFinish(s: Store, lotteryId: nat, winning: string, done: set<nat>, t: Store)
    requires Loop(s, lotteryId, winning, {}, done, t) && PendingOf(s, lotteryId) != {}
    ensures SettleSpec(s, lotteryId, winning) == Ok(t)
    ensures TotalBalance(t.accounts) == TotalBalance(s.accounts) + TotalPayout(s, lotteryId, winning)
  {
    assert done == PendingOf(s, lotteryId);
    PartialFinish(s, lotteryId, winning, t);
  }

  /**
   * `processResult`: completes the draw, then visits its pending bets one by one in whatever order
   * the database returns them, settling each. The whole run is one transaction, so the accounts'
   * total grows by exactly what the visited winning bets pay to existing accounts.
   */
  method ProcessResult(s: Store, lotteryId: nat, winning: string) returns (r: Result<Store, Error>)
    ensures r == SettleSpec(s, lotteryId, winning)
    ensures r.Ok? ==> TotalBalance(r.value.accounts) == TotalBalance(s.accounts) + TotalPayout(s, lotteryId, winning)
  {
    if lotteryId !in s.draws {
      return Err(LotteryNotFound);
    }
    var pending := PendingOf(s, lotteryId);
    if pending == {} {
      return Err(LotteryNotFound);
    }
    var t := s.(draws := CompletedDraws(s, lotteryId, winning));
    var done: set<nat> := {};
    var todo := pending;
    LoopStart(s, lotteryId, winning);
    while todo != {}
      invariant Loop(s, lotteryId, winning, todo, done, t)
      decreases |todo|
    {
      var k :| k in todo;
      LoopStep(s, lotteryId, winning, todo, done, t, k);
      t := SettleOne(t, k, winning);
      done := done + {k};
      todo := todo - {k};
    }
    LoopFinish(s, lotteryId, winning, done, t);
    r := Ok(t);
  }

  /** Some bet that settling `lotteryId` visits carries the winning number. */
  ghost predicate HasWinner(s: Store, lotteryId: nat, winning: string) {
    exists k :: k in PendingOf(s, lotteryId) && s.bets[k].number == winning
  }

  /** A settlement without a winner credits no account: the accounts come out as they went in. */
  lemma WinnerlessSettlementCreditsNothing(s: Store, lotteryId: nat, winning: string)
    requires !HasWinner(s, lotteryId, winning) && SettleSpec(s, lotteryId, winning).Ok?
    ensures SettleSpec(s, lotteryId, winning).value.accounts == s.accounts
  {
    var t := SettleSpec(s, lotteryId, winning).value;
    forall u | u in s.accounts ensures t.accounts[u] == s.accounts[u] {
      NoWinningBetNoPayout(s, lotteryId, winning, u);
    }
  }

  /**
   * `processResult` as the code is written. The winner's credit is a raw `UPDATE` of a
   * `wallet_balance` column, but the users table is synchronised from the account model, whose
   * column is `walletBalance`. So the query fails on the first winning bet visited, the
   * transaction rolls back and the error is rethrown. Only a settlement without a winner commits,
   * and it credits nobody.
   */
  method ProcessResultAsWritten(s: Store, lotteryId: nat, winning: string) returns (r: Result<Store, Error>)
    ensures SettleSpec(s, lotteryId, winning).Err? ==> r == Err(LotteryNotFound)
    ensures SettleSpec(s, lotteryId, winning).Ok? && HasWinner(s, lotteryId, winning) ==> r == Err(InternalError)
    ensures !HasWinner(s, lotteryId, winning) ==> r == SettleSpec(s, lotteryId, winning)
    ensures r.Ok? ==> r.value.accounts == s.accounts
  {
    if lotteryId !in s.draws {
      return Err(LotteryNotFound);
    }
    var pending := PendingOf(s, lotteryId);
    if pending == {} {
      return Err(LotteryNotFound);
    }
    var t := s.(draws := CompletedDraws(s, lotteryId, winning));
    var done: set<nat> := {};
    var todo := pending;
    LoopStart(s, lotteryId, winning);
    while todo != {}
      invariant Loop(s, lotteryId, winning, todo, done, t)
      invariant forall j :: j in done ==> s.bets[j].number != winning
      decreases |todo|
    {
      var k :| k in todo;
      LoopStep(s, lotteryId, winning, todo, done, t, k);
      if s.bets[k].number == winning {
        // the balance update names a column the users table lacks
        assert k in PendingOf(s, lotteryId);
        return Err(InternalError);
      }
      t := SettleOne(t, k, winning);
      done := done + {k};
      todo := todo - {k};
    }
    LoopFinish(s, lotteryId, winning, done, t);
    WinnerlessSettlementCreditsNothing(s, lotteryId, winning);
    r := Ok(t);
  }

  /**
   * `submitLotteryResult` over the settlement as written: a draw with a winning bet is answered
   * with 500 and schedules nothing, and whenever it succeeds no balance has changed.
   */
  method SubmitLotteryResultAsWritten(s: Store, lotteryId: nat, winning: string, now: Moment)
    returns (r: Result<Store, Error>)
    requires ValidMoment(now)
    ensures HasWinner(s, lotteryId, winning) ==> r == Err(InternalError)
    ensures r.Ok? <==> SettleSpec(s, lotteryId, winning).Ok? && !HasWinner(s, lotteryId, winning)
    ensures r.Ok? ==> r.value.accounts == s.accounts && r.value.nextDrawId == s.nextDrawId + 1
  {
    var settled := ProcessResultAsWritten(s, lotteryId, winning);
    if settled.Err? {
      return Err(InternalError);
    }
    var game := settled.value.draws[lotteryId].game;
    var next, _ := ScheduleNextDraw(settled.value, game, now);
    r := Ok(next);
  }

  /** A store with one account (7), one upcoming draw (1) and one pending bet (3) on "42" paying 8500. */
  function OneWinnerStore(): Store {
    Store(
      map[7 := Account("A", "+959123456789", None, 0, Active, 0)],
      map[1 := Draw(TwoD, Moment(0, 0), Upcoming, 10000, 5000000, 85, None)],
      map[3 := Bet(7, 1, "42", 100, 8500, Pending)],
      map[], 2, 4, 1)
  }

  /**
   * The discrepancy on a concrete store: the intended settlement of draw 1 with "42" credits
   * account 7 with 8500, but the draw has a winner, so the settlement as written rolls back.
   */
  lemma OneWinnerRollsBackAsWritten()
    ensures HasWinner(OneWinnerStore(), 1, "42")
    ensures SettleSpec(OneWinnerStore(), 1, "42").Ok?
    ensures SettleSpec(OneWinnerStore(), 1, "42").value.accounts[7].balance == 8500
  {
    var s := OneWinnerStore();
    assert PendingOf(s, 1) == {3};
    assert 3 in PendingOf(s, 1) && s.bets[3].number == "42";
    SingleWinnerPayout(s, 1, "42", 3);
  }

  /** After a settlement no bet of that draw is pending any more. */
  lemma SettledDrawHasNoPending(s: Store, lotteryId: nat, winning: string)
    requires SettleSpec(s, lotteryId, winning).Ok?
    ensures PendingOf(SettleSpec(s, lotteryId, winning).value, lotteryId) == {}
  {
    var t := SettleSpec(s, lotteryId, winning).value;
    forall k | k in t.bets
      ensures !Visited(t.bets[k], lotteryId)
    {
    }
  }

  /**
   * Settling the same draw again is refused, with any winning number, so no bet is paid twice
   * and the recorded winning number is not overwritten.
   */
  lemma SettleTwiceRefused(s: Store, lotteryId: nat, winning: string, again: string)
    requires SettleSpec(s, lotteryId, winning).Ok?
    ensures SettleSpec(SettleSpec(s, lotteryId, winning).value, lotteryId, again) == Err(LotteryNotFound)
  {
    SettledDrawHasNoPending(s, lotteryId, winning);
  }

  /** An account with no winning pending bet on the draw is paid nothing. */
  lemma NoWinningBetNoPayout(s: Store, lotteryId: nat, winning: string, u: nat)
    requires forall k :: k in PendingOf(s, lotteryId) ==> s.bets[k].userId != u || s.bets[k].number != winning
    ensures PayoutTo(s, lotteryId, winning, u) == 0
  {
    SumZero(Credits(s, PendingOf(s, lotteryId), winning, {u}));
  }

  /** An account whose only winning pending bet on the draw is `k` is paid exactly that bet's payout. */
  lemma SingleWinnerPayout(s: Store, lotteryId: nat, winning: string, k: nat)
    requires k in PendingOf(s, lotteryId) && s.bets[k].number == winning
    requires forall j :: j in PendingOf(s, lotteryId) && j != k ==>
      s.bets[j].userId != s.bets[k].userId || s.bets[j].number != winning
    ensures PayoutTo(s, lotteryId, winning, s.bets[k].userId) == s.bets[k].potentialWin
  {
    var c := Credits(s, PendingOf(s, lotteryId), winning, {s.bets[k].userId});
    SumRemove(c, k);
    SumZero(c - {k});
  }

  /** Payouts are never negative in a valid store. */
  lemma PayoutNonNegative(s: Store, lotteryId: nat, winning: string, u: nat)
    requires Valid(s)
    ensures PayoutTo(s, lotteryId, winning, u) >= 0
  {
    SumNonNegative(Credits(s, PendingOf(s, lotteryId), winning, {u}));
  }

  /** Settlement keeps the store invariant: balances only grow, nothing else about accounts changes. */
  lemma SettleKeepsValid(s: Store, lotteryId: nat, winning: string)
    requires Valid(s)
    ensures SettleSpec(s, lotteryId, winning).Ok? ==> Valid(SettleSpec(s, lotteryId, winning).value)
  {
    if SettleSpec(s, lotteryId, winning).Ok? {
      var t := SettleSpec(s, lotteryId, winning).value;
      forall u | u in s.accounts
        ensures t.accounts[u].balance >= s.accounts[u].balance
      {
        PayoutNonNegative(s, lotteryId, winning, u);
      }
    }
  }

  /** The limits and multiplier a scheduled draw starts with, in minor units. */
  function DefaultDraw(game: GameType, drawTime: Moment): (d: Draw)
    ensures d.status == Upcoming && d.game == game && d.drawTime == drawTime && d.winningNumber == None
    ensures 0 <= d.minBet <= d.maxBet && d.multiplier * 10 == DefaultMultipliers(game).defaultTenths
  {
    if game == TwoD then Draw(TwoD, drawTime, Upcoming, 100 * MinorPerKyat, 50000 * MinorPerKyat, 85, None)
    else Draw(game, drawTime, Upcoming, 500 * MinorPerKyat, 100000 * MinorPerKyat, 500, None)
  }

  /** The timetable a game follows: the earliest 2D slot after `now`, or the next 3D Wednesday. */
  ghost predicate FollowsTimetable(game: GameType, now: Moment, t: Moment) {
    && ValidMoment(t) && Before(now, t)
    && (game == TwoD ==>
          && IsTwoDSlot(t) && t.day - now.day <= 1
          && forall x :: IsTwoDSlot(x) && Before(now, x) ==> !Before(x, t))
    && (game == ThreeD ==>
          && IsThreeDSlot(t) && 1 <= t.day - now.day <= 7
          && forall x :: IsThreeDSlot(x) && now.day < x.day ==> !Before(x, t))
  }

  /** `scheduleNextDraw`: one new upcoming draw of `game` with its defaults, at the next timetable slot. */
  method ScheduleNextDraw(s: Store, game: GameType, now: Moment) returns (t: Store, id: nat)
    requires ValidMoment(now)
    ensures id == s.nextDrawId && t.nextDrawId == s.nextDrawId + 1 && id in t.draws
    ensures t.draws == s.draws[id := DefaultDraw(game, t.draws[id].drawTime)]
    ensures FollowsTimetable(game, now, t.draws[id].drawTime)
    ensures t == s.(draws := t.draws, nextDrawId := t.nextDrawId)
  {
    var when: Moment;
    if game == TwoD {
      when := NextTwoDDrawTime(now);
    } else {
      when := NextThreeDDrawTime(now);
    }
    id := s.nextDrawId;
    t := s.(draws := s.draws[id := DefaultDraw(game, when)], nextDrawId := id + 1);
  }

  /**
   * `submitLotteryResult`: settle first, and only after a successful settlement schedule the next
   * draw of the same game. A failed settlement is answered with 500, schedules nothing and
   * changes nothing.
   */
  method SubmitLotteryResult(s: Store, lotteryId: nat, winning: string, now: Moment) returns (r: Result<Store, Error>)
    requires ValidMoment(now)
    ensures SettleSpec(s, lotteryId, winning).Err? ==> r == Err(InternalError)
    ensures r.Ok? <==> SettleSpec(s, lotteryId, winning).Ok?
    ensures r.Ok? ==> s.nextDrawId in r.value.draws
    ensures r.Ok? ==>
      var settled := SettleSpec(s, lotteryId, winning).value;
      var created := r.value.draws[s.nextDrawId];
      && r.value == settled.(draws := settled.draws[s.nextDrawId := created], nextDrawId := s.nextDrawId + 1)
      && created.status == Upcoming && created.game == s.draws[lotteryId].game
      && FollowsTimetable(created.game, now, created.drawTime)
  {
    var settled := ProcessResult(s, lotteryId, winning);
    if settled.Err? {
      return Err(InternalError);
    }
    var game := settled.value.draws[lotteryId].game;
    var next, _ := ScheduleNextDraw(settled.value, game, now);
    r := Ok(next);
  }

  /** Settling and scheduling keep the store invariant. */
  lemma SubmitKeepsValid(s: Store, lotteryId: nat, winning: string, t: Store, game: GameType, when: Moment)
    requires Valid(s) && SettleSpec(s, lotteryId, winning).Ok?
    requires t == SettleSpec(s, lotteryId, winning).value
    ensures Valid(t.(draws := t.draws[t.nextDrawId := DefaultDraw(game, when)], nextDrawId := t.nextDrawId + 1))
  {
    SettleKeepsValid(s, lotteryId, winning);
  }
}
