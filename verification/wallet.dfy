/**
 * The wallet handlers: direct deposits and withdrawals, and deposit initiation through a payment
 * gateway. Deposits and withdrawals open a database transaction, but write their ledger record
 * outside it; `Fault` says which write, if any, fails, so the model can show what a failure leaves.
 */
module Wallet {
  import opened Wrappers
  import opened Text
  import opened Accounts
  import opened Store
  import opened Ledger
  import opened WalletRules

  /** The write that fails, if any: the ledger insert or the balance update. */
  datatype Fault = NoFault | RecordWriteFails | BalanceWriteFails

  /** The new record's key and the balance reported back to the client. */
  datatype Receipt = Receipt(txId: nat, newBalance: int)

  /** The store after the request (committed or rolled back) and the response. */
  datatype Outcome = Outcome(store: Store, response: Result<Receipt, Error>)

  /** The completed record a direct deposit or withdrawal writes. */
  function DirectRecord(userId: nat, kind: TxKind, amount: int, reference: string, now: DrawSchedule.Moment): TxRecord {
    TxRecord(userId, kind, amount, TxCompleted, reference,
             if kind == DepositTx then "Wallet deposit" else "Wallet withdrawal", None, None, now)
  }

  /** The store with `r` written under the next record key. */
  function Record(s: Store, r: TxRecord): (t: Store)
    ensures t.txs == s.txs[s.nextTxId := r] && t.nextTxId == s.nextTxId + 1
    ensures t == s.(txs := t.txs, nextTxId := t.nextTxId)
  {
    s.(txs := s.txs[s.nextTxId := r], nextTxId := s.nextTxId + 1)
  }

  /**
   * One direct wallet movement, parameterised by whether the record is written inside the
   * database transaction. `delta` is `+amount` for a deposit and `-amount` for a withdrawal.
   * A record written outside the transaction survives the rollback of a failed balance update.
   */
  function Move(s: Store, userId: nat, kind: TxKind, amount: int, reference: string, now: DrawSchedule.Moment,
                fault: Fault, recordInside: bool): (o: Outcome)
    requires userId in s.accounts
  {
    var delta := if kind == DepositTx then amount else -amount;
    var written := Record(s, DirectRecord(userId, kind, amount, reference, now));
    match fault
    case RecordWriteFails => Outcome(s, Err(InternalError))
    case BalanceWriteFails => Outcome(if recordInside then s else written, Err(InternalError))
    case NoFault =>
      Outcome(written.(accounts := Adjust(s.accounts, userId, delta)),
              Ok(Receipt(s.nextTxId, s.accounts[userId].balance + delta)))
  }

  /** `deposit` as written: the ledger record is created outside the transaction. */
  function DepositAsWritten(s: Store, userId: nat, amount: int, reference: string, now: DrawSchedule.Moment, fault: Fault): (o: Outcome)
    ensures userId !in s.accounts ==> o == Outcome(s, Err(UserNotFound))
    ensures userId in s.accounts && fault == BalanceWriteFails ==>
      o == Outcome(Record(s, DirectRecord(userId, DepositTx, amount, reference, now)), Err(InternalError))
  {
    if userId !in s.accounts then Outcome(s, Err(UserNotFound))
    else Move(s, userId, DepositTx, amount, reference, now, fault, false)
  }

  /** `withdraw` as written: the ledger record is created outside the transaction. */
  function WithdrawAsWritten(s: Store, userId: nat, amount: int, reference: string, now: DrawSchedule.Moment, fault: Fault): (o: Outcome)
    ensures userId !in s.accounts ==> o == Outcome(s, Err(UserNotFound))
    ensures userId in s.accounts && s.accounts[userId].balance < amount ==> o == Outcome(s, Err(InsufficientBalance))
    ensures userId in s.accounts && s.accounts[userId].balance >= amount && fault == BalanceWriteFails ==>
      o == Outcome(Record(s, DirectRecord(userId, WithdrawalTx, amount, reference, now)), Err(InternalError))
  {
    if userId !in s.accounts then Outcome(s, Err(UserNotFound))
    else if s.accounts[userId].balance < amount then Outcome(s, Err(InsufficientBalance))
    else Move(s, userId, WithdrawalTx, amount, reference, now, fault, false)
  }

  /**
   * `deposit` with its record written inside the transaction: a missing user is 404, any failed
   * write rolls everything back, and success adds one completed deposit record and raises the
   * balance by the amount.
   */
  function Deposit(s: Store, userId: nat, amount: int, reference: string, now: DrawSchedule.Moment, fault: Fault): (o: Outcome)
    ensures userId !in s.accounts ==> o.response == Err(UserNotFound)
    ensures o.response.Err? ==> o.store == s
    ensures o.response.Ok? <==> userId in s.accounts && fault == NoFault
    ensures o.response.Ok? ==>
      && o.response.value.txId == s.nextTxId
      && o.store.txs == s.txs[s.nextTxId := DirectRecord(userId, DepositTx, amount, reference, now)]
      && o.store.accounts == Adjust(s.accounts, userId, amount)
      && o.response.value.newBalance == s.accounts[userId].balance + amount
      && o.store == s.(txs := o.store.txs, accounts := o.store.accounts, nextTxId := s.nextTxId + 1)
  {
    if userId !in s.accounts then Outcome(s, Err(UserNotFound))
    else Move(s, userId, DepositTx, amount, reference, now, fault, true)
  }

  /**
   * `withdraw` with its record written inside the transaction: a missing user is 404, a balance
   * below the amount is refused (an equal balance is accepted), any failed write rolls everything
   * back, and success adds one completed withdrawal record and lowers the balance by the amount.
   */
  function Withdraw(s: Store, userId: nat, amount: int, reference: string, now: DrawSchedule.Moment, fault: Fault): (o: Outcome)
    ensures userId !in s.accounts ==> o.response == Err(UserNotFound)
    ensures userId in s.accounts && s.accounts[userId].balance < amount ==> o.response == Err(InsufficientBalance)
    ensures o.response.Err? ==> o.store == s
    ensures o.response.Ok? <==> userId in s.accounts && amount <= s.accounts[userId].balance && fault == NoFault
    ensures o.response.Ok? ==>
      && o.response.value.txId == s.nextTxId
      && o.store.txs == s.txs[s.nextTxId := DirectRecord(userId, WithdrawalTx, amount, reference, now)]
      && o.store.accounts == Adjust(s.accounts, userId, -amount)
      && o.store.accounts[userId].balance >= 0
      && o.response.value.newBalance == s.accounts[userId].balance - amount
      && o.store == s.(txs := o.store.txs, accounts := o.store.accounts, nextTxId := s.nextTxId + 1)
  {
    if userId !in s.accounts then Outcome(s, Err(UserNotFound))
    else if s.accounts[userId].balance < amount then Outcome(s, Err(InsufficientBalance))
    else Move(s, userId, WithdrawalTx, amount, reference, now, fault, true)
  }

  /** A direct movement with its record inside the transaction keeps the books whatever fails. */
  lemma MoveKeepsBooks(s: Store, userId: nat, kind: TxKind, amount: int, reference: string, now: DrawSchedule.Moment, fault: Fault)
    requires Valid(s) && userId in s.accounts
    ensures KeepsBooks(s, Move(s, userId, kind, amount, reference, now, fault, true).store)
  {
    var o := Move(s, userId, kind, amount, reference, now, fault, true);
    var r := DirectRecord(userId, kind, amount, reference, now);
    if fault == NoFault {
      assert s.nextTxId !in s.txs;
      forall u | u in s.accounts
        ensures o.store.accounts[u].balance - s.accounts[u].balance == LedgerOf(o.store.txs, u) - LedgerOf(s.txs, u)
      {
        LedgerInsert(s.txs, s.nextTxId, r, u);
      }
    }
  }

  /** The corrected deposit keeps the books whatever fails. */
  lemma DepositKeepsBooks(s: Store, userId: nat, amount: int, reference: string, now: DrawSchedule.Moment, fault: Fault)
    requires Valid(s)
    ensures KeepsBooks(s, Deposit(s, userId, amount, reference, now, fault).store)
  {
    if userId in s.accounts {
      MoveKeepsBooks(s, userId, DepositTx, amount, reference, now, fault);
    }
  }

  /** The corrected withdrawal keeps the books whatever fails. */
  lemma WithdrawKeepsBooks(s: Store, userId: nat, amount: int, reference: string, now: DrawSchedule.Moment, fault: Fault)
    requires Valid(s)
    ensures KeepsBooks(s, Withdraw(s, userId, amount, reference, now, fault).store)
  {
    if userId in s.accounts && s.accounts[userId].balance >= amount {
      MoveKeepsBooks(s, userId, WithdrawalTx, amount, reference, now, fault);
    }
  }

  /**
   * As written, a deposit whose balance update fails still leaves its completed record behind:
   * the ledger says the user gained `amount`, the balance did not move, and the client got a 500.
   */
  lemma DepositAsWrittenBreaksBooks(s: Store, userId: nat, amount: int, reference: string, now: DrawSchedule.Moment)
    requires Valid(s) && userId in s.accounts && amount != 0
    ensures var o := DepositAsWritten(s, userId, amount, reference, now, BalanceWriteFails);
      o.response == Err(InternalError) && !KeepsBooks(s, o.store)
  {
    var o := DepositAsWritten(s, userId, amount, reference, now, BalanceWriteFails);
    assert s.nextTxId !in s.txs;
    LedgerInsert(s.txs, s.nextTxId, DirectRecord(userId, DepositTx, amount, reference, now), userId);
    assert o.store.accounts[userId] == s.accounts[userId];
  }

  /** The same divergence for a withdrawal whose balance update fails. */
  lemma WithdrawAsWrittenBreaksBooks(s: Store, userId: nat, amount: int, reference: string, now: DrawSchedule.Moment)
    requires Valid(s) && userId in s.accounts && 0 < amount <= s.accounts[userId].balance
    ensures var o := WithdrawAsWritten(s, userId, amount, reference, now, BalanceWriteFails);
      o.response == Err(InternalError) && !KeepsBooks(s, o.store)
  {
    var o := WithdrawAsWritten(s, userId, amount, reference, now, BalanceWriteFails);
    assert s.nextTxId !in s.txs;
    LedgerInsert(s.txs, s.nextTxId, DirectRecord(userId, WithdrawalTx, amount, reference, now), userId);
    assert o.store.accounts[userId] == s.accounts[userId];
  }

  /** When nothing fails, the handlers as written and the corrected ones commit the same store. */
  lemma AsWrittenAgreesWithoutFault(s: Store, userId: nat, amount: int, reference: string, now: DrawSchedule.Moment, fault: Fault)
    requires fault != BalanceWriteFails
    ensures DepositAsWritten(s, userId, amount, reference, now, fault) == Deposit(s, userId, amount, reference, now, fault)
    ensures WithdrawAsWritten(s, userId, amount, reference, now, fault) == Withdraw(s, userId, amount, reference, now, fault)
  {
  }

  /** A committed movement of at least one minor unit that leaves the balance non-negative keeps the store invariant. */
  lemma MoveKeepsValid(s: Store, userId: nat, kind: TxKind, amount: int, reference: string, now: DrawSchedule.Moment)
    requires Valid(s) && userId in s.accounts && amount >= 1
    requires kind == WithdrawalTx ==> amount <= s.accounts[userId].balance
    ensures Valid(Move(s, userId, kind, amount, reference, now, NoFault, true).store)
  {
    var delta := if kind == DepositTx then amount else -amount;
    AdjustKeepsValid(s.accounts, userId, delta);
    var t := Move(s, userId, kind, amount, reference, now, NoFault, true).store;
    assert t.txs == s.txs[s.nextTxId := DirectRecord(userId, kind, amount, reference, now)];
    assert t.accounts == Adjust(s.accounts, userId, delta);
  }

  /** A validated deposit keeps the store invariant. */
  lemma DepositKeepsValid(s: Store, userId: nat, amount: int, reference: string, now: DrawSchedule.Moment, fault: Fault)
    requires Valid(s) && amount >= 1
    ensures Valid(Deposit(s, userId, amount, reference, now, fault).store)
  {
    if userId in s.accounts && fault == NoFault {
      MoveKeepsValid(s, userId, DepositTx, amount, reference, now);
    }
  }

  /** A validated withdrawal keeps the store invariant: no balance goes below zero. */
  lemma WithdrawKeepsValid(s: Store, userId: nat, amount: int, reference: string, now: DrawSchedule.Moment, fault: Fault)
    requires Valid(s) && amount >= 1
    ensures Valid(Withdraw(s, userId, amount, reference, now, fault).store)
  {
    if userId in s.accounts && amount <= s.accounts[userId].balance && fault == NoFault {
      MoveKeepsValid(s, userId, WithdrawalTx, amount, reference, now);
    }
  }

  /** What the payment gateway answered. */
  datatype GatewayResponse = GatewayResponse(success: bool, transactionId: string, message: string)

  /** The committed store and the key of the pending deposit record. */
  datatype Initiated = Initiated(store: Store, txId: nat)

  /**
   * `initiateDeposit`: an unknown provider is refused before the gateway is called; a gateway
   * failure writes nothing; a gateway success writes one pending deposit carrying the gateway's
   * transaction id as its reference. No balance changes until the payment callback arrives.
   */
  function InitiateDeposit(s: Store, userId: nat, amount: int, provider: string, gateway: GatewayResponse,
                           now: DrawSchedule.Moment): (r: Result<Initiated, Error>)
    ensures !KnownProvider(provider) ==> r == Err(InvalidProvider)
    ensures r.Ok? <==> KnownProvider(provider) && gateway.success
    ensures KnownProvider(provider) && !gateway.success ==> r == Err(PaymentFailed)
    ensures r.Ok? ==>
      && r.value.txId == s.nextTxId
      && r.value.store == s.(txs := r.value.store.txs, nextTxId := s.nextTxId + 1)
      && r.value.store.txs == s.txs[s.nextTxId := TxRecord(userId, DepositTx, amount, TxPending, gateway.transactionId,
                                                           "Deposit via " + Upper(provider), None, None, now)]
  {
    if !KnownProvider(provider) then Err(InvalidProvider)
    else if !gateway.success then Err(PaymentFailed)
    else
      var rec := TxRecord(userId, DepositTx, amount, TxPending, gateway.transactionId,
                          "Deposit via " + Upper(provider), None, None, now);
      Ok(Initiated(Record(s, rec), s.nextTxId))
  }

  /** A pending deposit moves no money, so initiating one keeps the books and the total balance. */
  lemma InitiateDepositKeepsBooks(s: Store, userId: nat, amount: int, provider: string, gateway: GatewayResponse,
                                  now: DrawSchedule.Moment)
    requires Valid(s)
    ensures var r := InitiateDeposit(s, userId, amount, provider, gateway, now);
      r.Ok? ==> KeepsBooks(s, r.value.store) && r.value.store.accounts == s.accounts
  {
    var r := InitiateDeposit(s, userId, amount, provider, gateway, now);
    if r.Ok? {
      assert s.nextTxId !in s.txs;
      forall u | u in s.accounts
        ensures LedgerOf(r.value.store.txs, u) == LedgerOf(s.txs, u)
      {
        LedgerInsert(s.txs, s.nextTxId, r.value.store.txs[s.nextTxId], u);
      }
    }
  }

  /** Initiating a validated deposit keeps the store invariant: the new record's key is fresh. */
  lemma InitiateDepositKeepsValid(s: Store, userId: nat, amount: int, provider: string, gateway: GatewayResponse,
                                  now: DrawSchedule.Moment)
    requires Valid(s) && amount >= 1
    ensures var r := InitiateDeposit(s, userId, amount, provider, gateway, now);
      r.Ok? ==> Valid(r.value.store) && r.value.txId in r.value.store.txs && r.value.txId !in s.txs
  {
  }

  /** The providers the request validator accepts are exactly the ones deposit initiation accepts. */
  lemma ValidatedProviderIsAccepted(b: TxBody, s: Store, userId: nat, gateway: GatewayResponse, now: DrawSchedule.Moment)
    requires ValidateTransaction(b) && b.provider.Some? && gateway.success
    ensures InitiateDeposit(s, userId, b.amount.value, b.provider.value, gateway, now).Ok?
  {
  }
}
