/**
 * The payment gateway's callback: it settles a pending ledger record found by its reference,
 * crediting the owner when the gateway reports completion and marking it failed otherwise.
 */
module Payments {
  import opened Wrappers
  import opened Accounts
  import opened Store
  import opened Ledger

  /** The keys of the records carrying `reference`. */
  function WithReference(txs: map<nat, TxRecord>, reference: string): (ks: set<nat>)
    ensures forall k :: k in ks <==> k in txs && txs[k].reference == reference
  {
    set k | k in txs && txs[k].reference == reference
  }

  /**
   * The record a lookup by reference finds. References are not declared unique; when several
   * records share one, the lookup is taken to find the one with the smallest key.
   */
  method FindByReference(txs: map<nat, TxRecord>, reference: string) returns (r: Option<nat>)
    ensures r.None? <==> WithReference(txs, reference) == {}
    ensures r.Some? ==> r.value in WithReference(txs, reference)
    ensures r.Some? ==> forall k :: k in WithReference(txs, reference) ==> r.value <= k
  {
    var todo := WithReference(txs, reference);
    r := None;
    while todo != {}
      invariant todo <= WithReference(txs, reference)
      invariant r.None? ==> todo == WithReference(txs, reference)
      invariant r.Some? ==> r.value in WithReference(txs, reference)
      invariant r.Some? ==> forall k :: k in WithReference(txs, reference) && k !in todo ==> r.value <= k
      decreases |todo|
    {
      var k :| k in todo;
      if r.None? || k < r.value {
        r := Some(k);
      }
      todo := todo - {k};
    }
  }

  /** The least element of a non-empty set of keys. */
  ghost function Least(ks: set<nat>): (m: nat)
    requires ks != {}
    ensures m in ks && forall k :: k in ks ==> m <= k
    decreases |ks|
  {
    var x :| x in ks;
    var rest := ks - {x};
    if rest == {} then
      assert forall k :: k in ks ==> k == x by {
        forall k | k in ks ensures k == x {
          assert k !in rest;
        }
      }
      x
    else
      var m := Least(rest);
      assert forall k :: k in ks ==> k == x || k in rest;
      if x < m then x else m
  }

  /** The smallest key carrying `reference`, as a value a specification can name. */
  ghost function Lookup(txs: map<nat, TxRecord>, reference: string): (r: Option<nat>)
    ensures r.None? <==> WithReference(txs, reference) == {}
    ensures r.Some? ==> r.value in WithReference(txs, reference)
    ensures r.Some? ==> forall k :: k in WithReference(txs, reference) ==> r.value <= k
  {
    var ks := WithReference(txs, reference);
    if ks == {} then None
    else
      Some(Least(ks))
  }

  /**
   * `handlePaymentCallback` on the record at key `id`: a record that is no longer pending is
   * refused as already processed; status "completed" marks it completed and credits its amount
   * to its owner, rolling back with 404 when the owner is missing; any other status marks it
   * failed. The record's kind is not consulted.
   */
  function Settle(s: Store, id: nat, status: string): (r: Result<Store, Error>)
    requires id in s.txs
    ensures s.txs[id].status != TxPending ==> r == Err(AlreadyProcessed)
    ensures r.Err? ==> r.error in {AlreadyProcessed, UserNotFound}
    ensures r.Ok? <==> s.txs[id].status == TxPending && (status == "completed" ==> s.txs[id].userId in s.accounts)
    ensures r.Ok? && status == "completed" ==>
      && r.value.txs == s.txs[id := s.txs[id].(status := TxCompleted)]
      && r.value.accounts == Adjust(s.accounts, s.txs[id].userId, s.txs[id].amount)
      && r.value == s.(txs := r.value.txs, accounts := r.value.accounts)
    ensures r.Ok? && status != "completed" ==>
      r.value == s.(txs := s.txs[id := s.txs[id].(status := TxFailed)])
  {
    var rec := s.txs[id];
    if rec.status != TxPending then Err(AlreadyProcessed)
    else if status == "completed" then
      if rec.userId !in s.accounts then Err(UserNotFound)
      else Ok(s.(txs := s.txs[id := rec.(status := TxCompleted)], accounts := Adjust(s.accounts, rec.userId, rec.amount)))
    else Ok(s.(txs := s.txs[id := rec.(status := TxFailed)]))
  }

  /** The whole callback: an unknown reference is 404 and changes nothing. */
  method HandlePaymentCallback(s: Store, reference: string, status: string) returns (r: Result<Store, Error>)
    ensures WithReference(s.txs, reference) == {} ==> r == Err(TransactionNotFound)
    ensures WithReference(s.txs, reference) != {} ==> r == Settle(s, Lookup(s.txs, reference).value, status)
  {
    var found := FindByReference(s.txs, reference);
    if found.None? {
      return Err(TransactionNotFound);
    }
    var id := found.value;
    assert id == Lookup(s.txs, reference).value;
    r := Settle(s, id, status);
  }

  /** A record is settled at most once: a second callback for it is refused, whatever it reports. */
  lemma CallbackAtMostOnce(s: Store, id: nat, status: string, status': string)
    requires id in s.txs
    ensures Settle(s, id, status).Ok? ==> Settle(Settle(s, id, status).value, id, status') == Err(AlreadyProcessed)
  {
  }

  /** Settling a pending deposit keeps the books: the credit equals what the completed record adds. */
  lemma SettleDepositKeepsBooks(s: Store, id: nat, status: string)
    requires id in s.txs && s.txs[id].kind == DepositTx
    ensures Settle(s, id, status).Ok? ==> KeepsBooks(s, Settle(s, id, status).value)
  {
    var r := Settle(s, id, status);
    if r.Ok? {
      forall u | u in s.accounts
        ensures r.value.accounts[u].balance - s.accounts[u].balance == LedgerOf(r.value.txs, u) - LedgerOf(s.txs, u)
      {
        LedgerUpdate(s.txs, id, r.value.txs[id], u);
      }
    }
  }

  /**
   * Because the kind is not consulted, a "completed" callback naming a pending withdrawal credits
   * the withdrawal's amount to its owner, although the ledger already counts that amount as paid out.
   */
  lemma SettleWithdrawalCredits(s: Store, id: nat)
    requires id in s.txs && s.txs[id].kind == WithdrawalTx && s.txs[id].status == TxPending
    requires s.txs[id].userId in s.accounts && s.txs[id].amount > 0
    ensures var r := Settle(s, id, "completed");
      && r.Ok?
      && r.value.accounts[s.txs[id].userId].balance == s.accounts[s.txs[id].userId].balance + s.txs[id].amount
      && !KeepsBooks(s, r.value)
  {
    var r := Settle(s, id, "completed");
    LedgerUpdate(s.txs, id, r.value.txs[id], s.txs[id].userId);
  }

  /** A callback keeps the store invariant. */
  lemma SettleKeepsValid(s: Store, id: nat, status: string)
    requires Valid(s) && id in s.txs
    ensures Settle(s, id, status).Ok? ==> Valid(Settle(s, id, status).value)
  {
    var rec := s.txs[id];
    if Settle(s, id, status).Ok? && status == "completed" {
      AdjustKeepsValid(s.accounts, rec.userId, rec.amount);
    }
  }
}
