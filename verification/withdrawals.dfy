/**
 * The administrator's withdrawal review: approving or rejecting a pending withdrawal request,
 * and the paging arithmetic of the pending-withdrawal listing.
 */
module Withdrawals {
  import opened Wrappers
  import opened Accounts
  import opened Store
  import opened Ledger

  /** The request the review handlers act on: a withdrawal record that is still pending. */
  predicate IsPendingWithdrawal(s: Store, id: nat) {
    id in s.txs && s.txs[id].kind == WithdrawalTx && s.txs[id].status == TxPending
  }

  /**
   * `approveWithdrawal`: a missing, non-withdrawal or no-longer-pending record is "not found or
   * already processed"; otherwise the record becomes approved by `adminId`. No balance moves.
   */
  function Approve(s: Store, id: nat, adminId: nat): (r: Result<Store, Error>)
    ensures r.Ok? <==> IsPendingWithdrawal(s, id)
    ensures r.Err? ==> r.error == WithdrawalNotFound
    ensures r.Ok? ==>
      && r.value.txs == s.txs[id := s.txs[id].(status := TxApproved, approvedBy := Some(adminId))]
      && r.value == s.(txs := r.value.txs)
  {
    if !IsPendingWithdrawal(s, id) then Err(WithdrawalNotFound)
    else Ok(s.(txs := s.txs[id := s.txs[id].(status := TxApproved, approvedBy := Some(adminId))]))
  }

  /**
   * `rejectWithdrawal`: the same lookup; then a missing owner rolls back with 404 and the request
   * stays pending; otherwise the record becomes rejected with the reason and the amount is
   * refunded to the owner.
   */
  function Reject(s: Store, id: nat, adminId: nat, reason: Option<string>): (r: Result<Store, Error>)
    ensures !IsPendingWithdrawal(s, id) ==> r == Err(WithdrawalNotFound)
    ensures IsPendingWithdrawal(s, id) && s.txs[id].userId !in s.accounts ==> r == Err(UserNotFound)
    ensures r.Ok? <==> IsPendingWithdrawal(s, id) && s.txs[id].userId in s.accounts
    ensures r.Ok? ==>
      var w := s.txs[id];
      && r.value.txs == s.txs[id := w.(status := TxRejected, approvedBy := Some(adminId), rejectionReason := reason)]
      && r.value.accounts == Adjust(s.accounts, w.userId, w.amount)
      && r.value == s.(txs := r.value.txs, accounts := r.value.accounts)
  {
    if !IsPendingWithdrawal(s, id) then Err(WithdrawalNotFound)
    else
      var w := s.txs[id];
      if w.userId !in s.accounts then Err(UserNotFound)
      else Ok(s.(txs := s.txs[id := w.(status := TxRejected, approvedBy := Some(adminId), rejectionReason := reason)],
                 accounts := Adjust(s.accounts, w.userId, w.amount)))
  }

  /** Approval moves the request from held to paid out, so no balance and no ledger total moves. */
  lemma ApproveKeepsBooks(s: Store, id: nat, adminId: nat)
    ensures var r := Approve(s, id, adminId); r.Ok? ==> KeepsBooks(s, r.value)
  {
    var r := Approve(s, id, adminId);
    if r.Ok? {
      forall u | u in s.accounts ensures LedgerOf(r.value.txs, u) == LedgerOf(s.txs, u) {
        LedgerUpdate(s.txs, id, r.value.txs[id], u);
      }
    }
  }

  /** Rejection releases the held amount, and the refund credits exactly that amount. */
  lemma RejectKeepsBooks(s: Store, id: nat, adminId: nat, reason: Option<string>)
    ensures var r := Reject(s, id, adminId, reason); r.Ok? ==> KeepsBooks(s, r.value)
  {
    var r := Reject(s, id, adminId, reason);
    if r.Ok? {
      var w := s.txs[id];
      forall u | u in s.accounts
        ensures r.value.accounts[u].balance - s.accounts[u].balance == LedgerOf(r.value.txs, u) - LedgerOf(s.txs, u)
      {
        LedgerUpdate(s.txs, id, r.value.txs[id], u);
      }
    }
  }

  /** A rejection refunds into the accounts' total exactly the withdrawal amount. */
  lemma RejectRefundsOnce(s: Store, id: nat, adminId: nat, reason: Option<string>)
    ensures var r := Reject(s, id, adminId, reason);
      r.Ok? ==> TotalBalance(r.value.accounts) == TotalBalance(s.accounts) + s.txs[id].amount
  {
    var r := Reject(s, id, adminId, reason);
    if r.Ok? {
      AdjustTotal(s.accounts, s.txs[id].userId, s.txs[id].amount);
    }
  }

  /**
   * Once reviewed, a request cannot be reviewed again: a second approval or rejection is refused,
   * so a withdrawal is approved or rejected at most once and refunded at most once.
   */
  lemma ReviewedAtMostOnce(s: Store, id: nat, adminId: nat, adminId': nat, reason: Option<string>, reason': Option<string>)
    ensures Approve(s, id, adminId).Ok? ==>
      && Approve(Approve(s, id, adminId).value, id, adminId') == Err(WithdrawalNotFound)
      && Reject(Approve(s, id, adminId).value, id, adminId', reason') == Err(WithdrawalNotFound)
    ensures Reject(s, id, adminId, reason).Ok? ==>
      && Approve(Reject(s, id, adminId, reason).value, id, adminId') == Err(WithdrawalNotFound)
      && Reject(Reject(s, id, adminId, reason).value, id, adminId', reason') == Err(WithdrawalNotFound)
  {
  }

  /** Review keeps the store invariant: a refund of a non-negative amount keeps balances non-negative. */
  lemma ReviewKeepsValid(s: Store, id: nat, adminId: nat, reason: Option<string>)
    requires Valid(s)
    ensures Approve(s, id, adminId).Ok? ==> Valid(Approve(s, id, adminId).value)
    ensures Reject(s, id, adminId, reason).Ok? ==> Valid(Reject(s, id, adminId, reason).value)
  {
    if Reject(s, id, adminId, reason).Ok? {
      AdjustKeepsValid(s.accounts, s.txs[id].userId, s.txs[id].amount);
    }
  }

  /** `parseInt(x) || fallback`: an unparsable value (`None`) or zero falls back; anything else is kept. */
  function OrDefault(parsed: Option<int>, fallback: int): (v: int)
    ensures v == fallback <==> parsed.None? || parsed.value == 0 || parsed.value == fallback
    ensures v != 0 || fallback == 0
  {
    if parsed.None? || parsed.value == 0 then fallback else parsed.value
  }

  /** `Math.ceil(count / limit)` for a non-negative count and a non-zero limit: the least `q` with `q >= count / limit`. */
  function CeilDiv(count: nat, limit: int): (q: int)
    requires limit != 0
    ensures limit > 0 ==> (q - 1) * limit < count <= q * limit
    ensures limit < 0 ==> q * limit <= count < (q - 1) * limit
  {
    if limit > 0 then (count + limit - 1) / limit
    else -(count / -limit)
  }

  /** The page the listing answers with. */
  datatype Paging = Paging(page: int, limit: int, offset: int, totalPages: int)

  /** `getPendingWithdrawals`' arithmetic: defaults page 1 and limit 10, offset `(page - 1) * limit`. */
  function Paginate(pageParam: Option<int>, limitParam: Option<int>, count: nat): (p: Paging)
    ensures p.page == OrDefault(pageParam, 1) && p.limit == OrDefault(limitParam, 10)
    ensures p.limit != 0
    ensures p.offset == (p.page - 1) * p.limit
    ensures p.totalPages == CeilDiv(count, p.limit)
  {
    var page := OrDefault(pageParam, 1);
    var limit := OrDefault(limitParam, 10);
    Paging(page, limit, (page - 1) * limit, CeilDiv(count, limit))
  }

  /**
   * With a positive limit the pages 1..totalPages are exactly the ones that start inside the
   * result set.
   */
  lemma {:induction false} PagesCoverResults(pageParam: Option<int>, limitParam: Option<int>, count: nat)
    requires Paginate(pageParam, limitParam, count).limit > 0
    ensures var p := Paginate(pageParam, limitParam, count);
      p.page >= 1 ==> (p.offset < count <==> p.page <= p.totalPages)
  {
    var p := Paginate(pageParam, limitParam, count);
    if p.page >= 1 {
      if p.page <= p.totalPages {
        assert (p.page - 1) * p.limit <= (p.totalPages - 1) * p.limit by {
          MulMonotone(p.page - 1, p.totalPages - 1, p.limit);
        }
      } else {
        assert p.totalPages * p.limit <= (p.page - 1) * p.limit by {
          MulMonotone(p.totalPages, p.page - 1, p.limit);
        }
      }
    }
  }

  lemma MulMonotone(a: int, b: int, c: int)
    requires a <= b && c >= 0
    ensures a * c <= b * c
  {
  }
}
