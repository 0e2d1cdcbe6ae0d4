/**
 * The wallet request rules: the body checks run before deposits, withdrawals and deposit
 * initiation, and the per-transaction and per-day deposit limits. Amounts are minor units.
 */
module WalletRules {
  import opened Wrappers
  import opened Sums
  import opened Text
  import opened Accounts
  import opened Store

  /** The payment providers a deposit may go through. */
  const Providers: seq<string> := ["kpay", "wavemoney", "kbzpay", "aya", "cb"]

  predicate KnownProvider(p: string) {
    p in Providers
  }

  /** `TRANSACTION_LIMIT`: 100 000 kyat per transaction. */
  const TransactionLimit: int := 100000 * MinorPerKyat

  /** `DAILY_LIMIT`: 1 000 000 kyat of completed deposits per user per day. */
  const DailyLimit: int := 1000000 * MinorPerKyat

  /** A wallet request body; absent fields are `None`. */
  datatype TxBody = TxBody(
    amount: Option<int>,
    provider: Option<string>,
    senderName: Option<string>,
    senderPhone: Option<string>,
    transactionId: Option<string>)

  /** The sender phone pattern `^[0-9+]{9,15}$`. */
  predicate SenderPhoneOk(p: string) {
    9 <= |p| <= 15 && forall i :: 0 <= i < |p| ==> IsDigit(p[i]) || p[i] == '+'
  }

  /**
   * `validateTransaction`: an amount of at least 0.01 kyat; optional fields, when present, must be
   * a known provider, a sender name of at least two characters after trimming, a sender phone of
   * 9 to 15 digits or plus signs, and a non-blank transaction id.
   */
  predicate ValidateTransaction(b: TxBody) {
    && b.amount.Some? && b.amount.value >= 1
    && (b.provider.Some? ==> KnownProvider(b.provider.value))
    && (b.senderName.Some? ==> |Trim(b.senderName.value)| >= 2)
    && (b.senderPhone.Some? ==> SenderPhoneOk(b.senderPhone.value))
    && (b.transactionId.Some? ==> Trim(b.transactionId.value) != [])
  }

  /** Every phone the account table accepts also passes the sender phone pattern. */
  lemma StoredPhoneIsSenderPhone(p: string)
    requires StoredPhone(p)
    ensures SenderPhoneOk(p)
  {
    var rest := if StartsWith(p, "+") then p[1..] else p;
    assert forall i :: 0 <= i < |rest| ==> IsDigit(rest[i]) by {
      forall i | 0 <= i < |rest| ensures IsDigit(rest[i]) {
        if i < 3 {
          assert rest[..3] == "959";
          assert rest[i] == "959"[i];
        } else {
          assert rest[i] == rest[3..][i - 3];
        }
      }
    }
    forall i | 0 <= i < |p| ensures IsDigit(p[i]) || p[i] == '+' {
      if StartsWith(p, "+") && i > 0 {
        assert p[i] == rest[i - 1];
      } else if !StartsWith(p, "+") {
        assert p[i] == rest[i];
      }
    }
  }

  /** How the limit check answered. */
  datatype LimitVerdict = Pass | OverTransactionLimit | OverDailyLimit

  /** What a ledger record adds to a user's deposits counted since the start of `day`. */
  function DailyAmount(r: TxRecord, userId: nat, day: int): int {
    if r.userId == userId && r.kind == DepositTx && r.status == TxCompleted && r.createdAt.day >= day
    then r.amount else 0
  }

  /** The per-record amounts the daily sum adds up, for the records with keys in `keys`. */
  ghost function DailyAmounts(txs: map<nat, TxRecord>, keys: set<nat>, userId: nat, day: int): map<nat, int>
    requires keys <= txs.Keys
  {
    map k | k in keys :: DailyAmount(txs[k], userId, day)
  }

  /** The user's completed deposits created on or after local midnight of `day`. */
  ghost function DailyTotal(txs: map<nat, TxRecord>, userId: nat, day: int): int {
    Sum(DailyAmounts(txs, txs.Keys, userId, day))
  }

  lemma DailyAmountsInsert(txs: map<nat, TxRecord>, keys: set<nat>, k: nat, userId: nat, day: int)
    requires keys <= txs.Keys && k in txs && k !in keys
    ensures Sum(DailyAmounts(txs, keys + {k}, userId, day))
         == Sum(DailyAmounts(txs, keys, userId, day)) + DailyAmount(txs[k], userId, day)
  {
    assert DailyAmounts(txs, keys + {k}, userId, day)
        == DailyAmounts(txs, keys, userId, day)[k := DailyAmount(txs[k], userId, day)];
    SumInsert(DailyAmounts(txs, keys, userId, day), k, DailyAmount(txs[k], userId, day));
  }

  /** The state of the summing loop: the records in `done` are added up in `total`. */
  ghost predicate SumLoop(txs: map<nat, TxRecord>, userId: nat, day: int, todo: set<nat>, done: set<nat>, total: int) {
    && todo + done == txs.Keys && todo !! done
    && total == Sum(DailyAmounts(txs, done, userId, day))
  }

  lemma SumLoopStart(txs: map<nat, TxRecord>, userId: nat, day: int)
    ensures SumLoop(txs, userId, day, txs.Keys, {}, 0)
  {
    assert DailyAmounts(txs, {}, userId, day) == map[];
  }

  lemma SumLoopFinish(txs: map<nat, TxRecord>, userId: nat, day: int, done: set<nat>, total: int)
    requires SumLoop(txs, userId, day, {}, done, total)
    ensures total == DailyTotal(txs, userId, day)
  {
    assert done == txs.Keys;
  }

  lemma SumLoopStep(txs: map<nat, TxRecord>, userId: nat, day: int, todo: set<nat>, done: set<nat>, total: int, k: nat)
    requires SumLoop(txs, userId, day, todo, done, total) && k in todo
    ensures k in txs
    ensures SumLoop(txs, userId, day, todo - {k}, done + {k}, total + DailyAmount(txs[k], userId, day))
  {
    DailyAmountsInsert(txs, done, k, userId, day);
  }

  /** The aggregate query behind `checkTransactionLimits`, one record at a time. */
  method SumDailyDeposits(txs: map<nat, TxRecord>, userId: nat, day: int) returns (total: int)
    ensures total == DailyTotal(txs, userId, day)
  {
    total := 0;
    var done: set<nat> := {};
    var todo := txs.Keys;
    SumLoopStart(txs, userId, day);
    while todo != {}
      invariant SumLoop(txs, userId, day, todo, done, total)
      decreases |todo|
    {
      var k :| k in todo;
      SumLoopStep(txs, userId, day, todo, done, total, k);
      total := total + DailyAmount(txs[k], userId, day);
      done := done + {k};
      todo := todo - {k};
    }
    SumLoopFinish(txs, userId, day, done, total);
  }

  /**
   * `checkTransactionLimits`: the single-transaction cap is checked first, then the day's
   * completed deposits plus this amount against the daily cap; both caps are inclusive.
   */
  method CheckTransactionLimits(txs: map<nat, TxRecord>, userId: nat, amount: int, today: int) returns (v: LimitVerdict)
    ensures amount > TransactionLimit ==> v == OverTransactionLimit
    ensures v == Pass <==> amount <= TransactionLimit && DailyTotal(txs, userId, today) + amount <= DailyLimit
    ensures v == OverDailyLimit <==> amount <= TransactionLimit && DailyTotal(txs, userId, today) + amount > DailyLimit
  {
    if amount > TransactionLimit {
      return OverTransactionLimit;
    }
    var dailyTotal := SumDailyDeposits(txs, userId, today);
    if dailyTotal + amount > DailyLimit {
      return OverDailyLimit;
    }
    v := Pass;
  }

  /**
   * A deposit that passed the limit check and is then recorded as completed today keeps the
   * user's daily total within the daily cap.
   */
  lemma PassedDepositStaysWithinDailyLimit(txs: map<nat, TxRecord>, userId: nat, amount: int, today: int, id: nat, r: TxRecord)
    requires id !in txs
    requires amount <= TransactionLimit && DailyTotal(txs, userId, today) + amount <= DailyLimit
    requires r.userId == userId && r.kind == DepositTx && r.status == TxCompleted && r.amount == amount
    requires r.createdAt.day >= today
    ensures DailyTotal(txs[id := r], userId, today) <= DailyLimit
  {
    var txs' := txs[id := r];
    assert DailyAmounts(txs', txs'.Keys, userId, today) == DailyAmounts(txs, txs.Keys, userId, today)[id := amount];
    SumInsert(DailyAmounts(txs, txs.Keys, userId, today), id, amount);
  }

  /** Another user's records, and records from before today, do not count toward the daily total. */
  lemma DailyTotalIgnoresOthers(txs: map<nat, TxRecord>, userId: nat, today: int, id: nat, r: TxRecord)
    requires id !in txs
    requires r.userId != userId || r.kind != DepositTx || r.status != TxCompleted || r.createdAt.day < today
    ensures DailyTotal(txs[id := r], userId, today) == DailyTotal(txs, userId, today)
  {
    var txs' := txs[id := r];
    assert DailyAmounts(txs', txs'.Keys, userId, today) == DailyAmounts(txs, txs.Keys, userId, today)[id := 0];
    SumInsert(DailyAmounts(txs, txs.Keys, userId, today), id, 0);
  }
}
