/**
 * Bet admission and the multiplier update of the lottery handlers. Each is one database
 * transaction: `Ok` carries the committed store, `Err` means everything was rolled back.
 */
module Betting {
  import opened Wrappers
  import opened Text
  import opened Accounts
  import opened Store
  import opened LotteryRules

  /** The committed store, the new bet's key and the balance reported back to the client. */
  datatype Placed = Placed(store: Store, betId: nat, newBalance: int)

  /** The number format a game demands: two digits for 2D, three for any other game. */
  predicate NumberFits(game: GameType, number: string) {
    if game == TwoD then DigitsOfLength(number, 2) else DigitsOfLength(number, 3)
  }

  /**
   * `placeBet`: checks, in order, that the draw exists and is open, that the stake is within the
   * draw's limits, that the number fits the game, and that the user exists with enough balance;
   * then records one pending bet paying `amount * multiplier` and debits the stake.
   */
  function PlaceBet(s: Store, userId: nat, lotteryId: nat, number: string, amount: int): (r: Result<Placed, Error>)
    ensures lotteryId !in s.draws || !OpenForBets(s.draws[lotteryId].status) ==> r == Err(DrawClosed)
    ensures r.Ok? <==>
      && lotteryId in s.draws
      && OpenForBets(s.draws[lotteryId].status)
      && s.draws[lotteryId].minBet <= amount <= s.draws[lotteryId].maxBet
      && NumberFits(s.draws[lotteryId].game, number)
      && userId in s.accounts
      && amount <= s.accounts[userId].balance
    ensures r.Err? && lotteryId in s.draws && OpenForBets(s.draws[lotteryId].status) ==>
      var d := s.draws[lotteryId];
      if amount < d.minBet || amount > d.maxBet then r.error == BetOutOfRange
      else if !NumberFits(d.game, number) then r.error == InvalidNumberFormat
      else r.error == InsufficientBalance
    ensures r.Ok? ==>
      var t := r.value.store;
      var d := s.draws[lotteryId];
      && r.value.betId == s.nextBetId
      && t.bets == s.bets[s.nextBetId := Bet(userId, lotteryId, number, amount, amount * d.multiplier, Pending)]
      && t.accounts == Adjust(s.accounts, userId, -amount)
      && t.accounts[userId].balance >= 0
      && r.value.newBalance == s.accounts[userId].balance - amount
      && t.draws == s.draws && t.txs == s.txs
      && t.nextBetId == s.nextBetId + 1 && t.nextDrawId == s.nextDrawId && t.nextTxId == s.nextTxId
  {
    if lotteryId !in s.draws || !OpenForBets(s.draws[lotteryId].status) then Err(DrawClosed)
    else
      var d := s.draws[lotteryId];
      if amount < d.minBet || amount > d.maxBet then Err(BetOutOfRange)
      else if !NumberFits(d.game, number) then Err(InvalidNumberFormat)
      else if userId !in s.accounts || s.accounts[userId].balance < amount then Err(InsufficientBalance)
      else
        var bet := Bet(userId, lotteryId, number, amount, amount * d.multiplier, Pending);
        var id := s.nextBetId;
        Ok(Placed(
          s.(bets := s.bets[id := bet], accounts := Adjust(s.accounts, userId, -amount), nextBetId := id + 1),
          id,
          s.accounts[userId].balance - amount))
  }

  /** A successful bet moves exactly the stake out of the accounts' total, and a rejected one moves nothing. */
  lemma PlaceBetConservesMoney(s: Store, userId: nat, lotteryId: nat, number: string, amount: int)
    ensures var r := PlaceBet(s, userId, lotteryId, number, amount);
      r.Ok? ==> TotalBalance(r.value.store.accounts) == TotalBalance(s.accounts) - amount
  {
    var r := PlaceBet(s, userId, lotteryId, number, amount);
    if r.Ok? {
      AdjustTotal(s.accounts, userId, -amount);
    }
  }

  /** Bet admission keeps the store invariant: the new key is fresh and no balance goes negative. */
  lemma PlaceBetKeepsValid(s: Store, userId: nat, lotteryId: nat, number: string, amount: int)
    requires Valid(s)
    ensures var r := PlaceBet(s, userId, lotteryId, number, amount);
      r.Ok? ==> Valid(r.value.store) && s.nextBetId !in s.bets
  {
    var r := PlaceBet(s, userId, lotteryId, number, amount);
    if r.Ok? {
      AdjustKeepsValid(s.accounts, userId, -amount);
      var d := s.draws[lotteryId];
      assert amount >= 0 by { assert d.minBet >= 0; }
      assert amount * d.multiplier >= 0 by { assert d.multiplier >= 1; }
    }
  }

  /** The draw time is never consulted: moving it changes neither admission nor its outcome. */
  lemma DrawTimeIgnored(s: Store, userId: nat, lotteryId: nat, number: string, amount: int, when: DrawSchedule.Moment)
    requires lotteryId in s.draws
    ensures var s' := s.(draws := s.draws[lotteryId := s.draws[lotteryId].(drawTime := when)]);
      var r := PlaceBet(s, userId, lotteryId, number, amount);
      var r' := PlaceBet(s', userId, lotteryId, number, amount);
      r.Ok? == r'.Ok? && (r.Err? ==> r'.error == r.error)
      && (r.Ok? ==> r'.value.store.bets == r.value.store.bets && r'.value.store.accounts == r.value.store.accounts)
  {
  }

  /**
   * The bet route runs `validateBet` before the handler; a negative id passes `isInt` but finds no
   * draw. The global stake cap applies to every game, so a draw whose own maximum exceeds it
   * still never receives a larger bet.
   */
  function BetRoute(s: Store, userId: nat, body: BetBody): (r: Result<Placed, Error>)
    ensures !ValidateBet(body) ==> r == Err(ValidationFailed)
    ensures ValidateBet(body) && body.lotteryId.value < 0 ==> r == Err(DrawClosed)
    ensures r.Ok? ==>
      && ValidateBet(body) && body.lotteryId.value >= 0
      && r == PlaceBet(s, userId, body.lotteryId.value as nat, body.number.value, body.amount.value)
    ensures r.Ok? ==> MinBet <= r.value.store.bets[r.value.betId].amount <= MaxBet
  {
    if !ValidateBet(body) then Err(ValidationFailed)
    else if body.lotteryId.value < 0 then Err(DrawClosed)
    else PlaceBet(s, userId, body.lotteryId.value as nat, body.number.value, body.amount.value)
  }

  /**
   * `updateMultiplier`: rejects a multiplier of 1 or less, a missing draw and a draw that is no longer
   * upcoming; otherwise changes that draw's multiplier only. Bets already placed keep their payout.
   */
  function UpdateMultiplier(s: Store, lotteryId: nat, multiplier: int): (r: Result<Store, Error>)
    ensures multiplier <= 1 ==> r == Err(MultiplierTooLow)
    ensures multiplier > 1 && lotteryId !in s.draws ==> r == Err(LotteryNotFound)
    ensures r.Ok? <==> multiplier > 1 && lotteryId in s.draws && s.draws[lotteryId].status == Upcoming
    ensures r.Ok? ==>
      && r.value.draws == s.draws[lotteryId := s.draws[lotteryId].(multiplier := multiplier)]
      && r.value.bets == s.bets
      && r.value == s.(draws := r.value.draws)
  {
    if multiplier <= 1 then Err(MultiplierTooLow)
    else if lotteryId !in s.draws then Err(LotteryNotFound)
    else if s.draws[lotteryId].status != Upcoming then Err(NotUpcoming)
    else Ok(s.(draws := s.draws[lotteryId := s.draws[lotteryId].(multiplier := multiplier)]))
  }

  /** A multiplier change keeps the store invariant. */
  lemma UpdateMultiplierKeepsValid(s: Store, lotteryId: nat, multiplier: int)
    requires Valid(s)
    ensures var r := UpdateMultiplier(s, lotteryId, multiplier); r.Ok? ==> Valid(r.value)
  {
  }

  /**
   * Payouts are frozen at admission: a bet placed before a multiplier change still pays its stake
   * times the multiplier in force when it was placed.
   */
  lemma PayoutFrozenAtAdmission(s: Store, userId: nat, lotteryId: nat, number: string, amount: int, m: int)
    requires PlaceBet(s, userId, lotteryId, number, amount).Ok?
    ensures var p := PlaceBet(s, userId, lotteryId, number, amount).value;
      var u := UpdateMultiplier(p.store, lotteryId, m);
      u.Ok? ==> u.value.bets[p.betId].potentialWin == amount * s.draws[lotteryId].multiplier
  {
  }
}
