/**
 * What the ledger records say a user's balance should have gained. A completed deposit adds its
 * amount, a pending or failed one nothing. A withdrawal holds its amount from the moment it is
 * requested (pending), through approval or completion, and gives it back once rejected or failed.
 * A handler "keeps the books" when every balance moves by exactly what the records say.
 */
module Ledger {
  import opened Sums
  import opened Store

  /** The effect of one record on the balance of account `u`. */
  function Effect(r: TxRecord, u: nat): int {
    if r.userId != u then 0
    else if r.kind == DepositTx then (if r.status == TxCompleted then r.amount else 0)
    else if r.status in {TxPending, TxCompleted, TxApproved} then -r.amount
    else 0
  }

  /** The per-record effects on account `u`. */
  function Effects(txs: map<nat, TxRecord>, u: nat): (m: map<nat, int>)
    ensures m.Keys == txs.Keys
  {
    map k | k in txs :: Effect(txs[k], u)
  }

  /** What all records together say account `u` has gained. */
  ghost function LedgerOf(txs: map<nat, TxRecord>, u: nat): int {
    Sum(Effects(txs, u))
  }

  /** Every existing account's balance moved by exactly what its records say, and no account came or went. */
  ghost predicate KeepsBooks(s: Store, t: Store) {
    && t.accounts.Keys == s.accounts.Keys
    && forall u :: u in s.accounts ==>
         t.accounts[u].balance - s.accounts[u].balance == LedgerOf(t.txs, u) - LedgerOf(s.txs, u)
  }

  /** A new record adds its own effect. */
  lemma LedgerInsert(txs: map<nat, TxRecord>, id: nat, r: TxRecord, u: nat)
    requires id !in txs
    ensures LedgerOf(txs[id := r], u) == LedgerOf(txs, u) + Effect(r, u)
  {
    assert Effects(txs[id := r], u) == Effects(txs, u)[id := Effect(r, u)];
    SumInsert(Effects(txs, u), id, Effect(r, u));
  }

  /** Rewriting a record replaces its effect. */
  lemma LedgerUpdate(txs: map<nat, TxRecord>, id: nat, r: TxRecord, u: nat)
    requires id in txs
    ensures LedgerOf(txs[id := r], u) == LedgerOf(txs, u) - Effect(txs[id], u) + Effect(r, u)
  {
    assert Effects(txs[id := r], u) == Effects(txs, u)[id := Effect(r, u)];
    SumUpdate(Effects(txs, u), id, Effect(r, u));
  }
}
