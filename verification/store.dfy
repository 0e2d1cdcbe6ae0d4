/**
 * The persistent state the handlers share: accounts, draws, bets and ledger records, each an
 * immutable map from its primary key, plus the auto-increment counters that issue new keys.
 * A handler is one atomic step from a store to a new store; a rolled-back step leaves the old one.
 */
module Store {
  import opened Wrappers
  import opened Sums
  import opened Accounts
  import opened DrawSchedule

  datatype GameType = TwoD | ThreeD

  datatype DrawStatus = Upcoming | Ongoing | Completed

  /** A lottery draw: its game, draw time, lifecycle status, bet limits, payout multiplier and result. */
  datatype Draw = Draw(
    game: GameType,
    drawTime: Moment,
    status: DrawStatus,
    minBet: int,
    maxBet: int,
    multiplier: int,
    winningNumber: Option<string>)

  datatype BetStatus = Pending | Won | Lost | Cancelled

  /** A bet: its owner, its draw, the chosen number, the stake and the payout frozen at admission. */
  datatype Bet = Bet(
    userId: nat,
    lotteryId: nat,
    number: string,
    amount: int,
    potentialWin: int,
    status: BetStatus)

  datatype TxKind = DepositTx | WithdrawalTx

  datatype TxStatus = TxPending | TxCompleted | TxFailed | TxApproved | TxRejected

  /** A wallet ledger record (deposit or withdrawal) with its review fields. */
  datatype TxRecord = TxRecord(
    userId: nat,
    kind: TxKind,
    amount: int,
    status: TxStatus,
    reference: string,
    description: string,
    approvedBy: Option<nat>,
    rejectionReason: Option<string>,
    createdAt: Moment)

  datatype Store = Store(
    accounts: map<nat, Account>,
    draws: map<nat, Draw>,
    bets: map<nat, Bet>,
    txs: map<nat, TxRecord>,
    nextDrawId: nat,
    nextBetId: nat,
    nextTxId: nat)

  /** Why a handler answered with an error; `HttpStatus` gives the response code. */
  datatype Error =
    | DrawClosed           // invalid lottery or betting closed
    | BetOutOfRange        // amount outside [minBet, maxBet]
    | InvalidNumberFormat  // number does not have the game's digit count
    | InsufficientBalance  // also answered when the user row is missing
    | UserNotFound
    | LotteryNotFound
    | NotUpcoming
    | MultiplierTooLow
    | WithdrawalNotFound   // not found or already processed
    | TransactionNotFound
    | AlreadyProcessed
    | InvalidProvider
    | PaymentFailed
    | ValidationFailed     // a request validator rejected the body
    | InternalError        // an exception caught by the handler

  function HttpStatus(e: Error): (code: int)
    ensures code == 500 <==> e == InternalError
    ensures code == 404 <==> e in {UserNotFound, LotteryNotFound, WithdrawalNotFound, TransactionNotFound}
  {
    match e
    case UserNotFound | LotteryNotFound | WithdrawalNotFound | TransactionNotFound => 404
    case InternalError => 500
    case _ => 400
  }

  /** Bets can be placed on a draw in either of these states. */
  predicate OpenForBets(status: DrawStatus) {
    status == Upcoming || status == Ongoing
  }

  /**
   * The store invariant: account rows meet their constraints, every key is below its counter,
   * draws have non-negative limits and a multiplier of at least 1, and stakes, payouts and
   * ledger amounts are non-negative.
   */
  predicate Valid(s: Store) {
    && AccountsValid(s.accounts)
    && (forall k :: k in s.draws ==> k < s.nextDrawId && s.draws[k].minBet >= 0 && s.draws[k].multiplier >= 1)
    && (forall k :: k in s.bets ==> k < s.nextBetId && s.bets[k].amount >= 0 && s.bets[k].potentialWin >= 0)
    && (forall k :: k in s.txs ==> k < s.nextTxId && s.txs[k].amount >= 0)
  }

  /** The per-account balances as a map. */
  function Balances(accounts: map<nat, Account>): (m: map<nat, int>)
    ensures m.Keys == accounts.Keys
  {
    map u | u in accounts :: accounts[u].balance
  }

  /** The money held by all accounts together. */
  ghost function TotalBalance(accounts: map<nat, Account>): int {
    Sum(Balances(accounts))
  }

  /** The account `u` with `delta` added to its balance. */
  function Adjust(accounts: map<nat, Account>, u: nat, delta: int): (r: map<nat, Account>)
    requires u in accounts
    ensures r.Keys == accounts.Keys
    ensures r[u].balance == accounts[u].balance + delta
    ensures r[u] == accounts[u].(balance := r[u].balance)
    ensures forall v :: v in accounts && v != u ==> r[v] == accounts[v]
  {
    accounts[u := accounts[u].(balance := accounts[u].balance + delta)]
  }

  /** Moving `delta` into one account changes the total by exactly `delta`. */
  lemma AdjustTotal(accounts: map<nat, Account>, u: nat, delta: int)
    requires u in accounts
    ensures TotalBalance(Adjust(accounts, u, delta)) == TotalBalance(accounts) + delta
  {
    assert Balances(Adjust(accounts, u, delta)) == Balances(accounts)[u := accounts[u].balance + delta];
    SumUpdate(Balances(accounts), u, accounts[u].balance + delta);
  }

  /** An adjustment that leaves the balance non-negative keeps the account constraints. */
  lemma AdjustKeepsValid(accounts: map<nat, Account>, u: nat, delta: int)
    requires AccountsValid(accounts) && u in accounts && accounts[u].balance + delta >= 0
    ensures AccountsValid(Adjust(accounts, u, delta))
  {
    SetBalanceKeepsValid(accounts, u, accounts[u].balance + delta);
  }
}
