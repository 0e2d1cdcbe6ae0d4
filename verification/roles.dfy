/**
 * The role model: five roles, each with its own permission list, and a hierarchy listing for
 * each role the roles whose permissions it inherits.
 */
module Roles {

  datatype Role = User | Moderator | Finance | Admin | SuperAdmin

  /** `ROLE_PERMISSIONS`: each role's own permissions. */
  function Permissions(r: Role): seq<string> {
    match r
    case User => ["view_own_profile", "edit_own_profile", "view_own_transactions", "place_bets", "request_withdrawal"]
    case Moderator => ["view_users", "view_transactions", "handle_support_tickets", "send_notifications", "block_users"]
    case Finance => ["view_transactions", "approve_withdrawals", "reject_withdrawals", "view_financial_reports", "handle_payment_issues"]
    case Admin => ["manage_users", "manage_transactions", "manage_lottery", "view_analytics", "manage_settings", "assign_moderator_role"]
    case SuperAdmin => ["manage_admins", "manage_system_settings", "view_audit_logs", "manage_roles", "full_access"]
  }

  /** `ROLE_HIERARCHY`: the roles each role inherits from. */
  function Hierarchy(r: Role): seq<Role> {
    match r
    case SuperAdmin => [Admin, Finance, Moderator, User]
    case Admin => [Finance, Moderator, User]
    case Finance => [User]
    case Moderator => [User]
    case User => []
  }

  /** A rank that strictly decreases along the hierarchy. */
  function Rank(r: Role): nat {
    match r
    case User => 0
    case Moderator => 1
    case Finance => 1
    case Admin => 2
    case SuperAdmin => 3
  }

  /** Every inherited role ranks strictly lower, so the hierarchy is irreflexive and has no cycle. */
  lemma HierarchyDescends(r: Role, q: Role)
    requires q in Hierarchy(r)
    ensures Rank(q) < Rank(r) && q != r
  {
  }

  /** The hierarchy is transitively closed: a role lists everything its listed roles list. */
  lemma HierarchyClosed(r: Role, q: Role, p: Role)
    requires q in Hierarchy(r) && p in Hierarchy(q)
    ensures p in Hierarchy(r)
  {
  }

  /** The only permission two different roles both list is `view_transactions`, held by moderator and finance. */
  lemma OnlySharedPermission(r: Role, q: Role, p: string)
    requires r != q && p in Permissions(r) && p in Permissions(q)
    ensures p == "view_transactions" && {r, q} == {Moderator, Finance}
  {
    if Rank(r) <= Rank(q) {
      SharedBelow(r, q, p);
    } else {
      SharedBelow(q, r, p);
    }
  }

  /** `OnlySharedPermission` for a pair ordered by rank, one lower role at a time. */
  lemma SharedBelow(r: Role, q: Role, p: string)
    requires r != q && Rank(r) <= Rank(q) && p in Permissions(r) && p in Permissions(q)
    ensures p == "view_transactions" && {r, q} == {Moderator, Finance}
  {
    match r
    case User => NotSharedWithUser(q, p);
    case Moderator => SharedWithModerator(q, p);
    case Finance =>
      if q == Moderator {
        SharedWithModerator(Finance, p);
      } else {
        NotSharedWithFinance(q, p);
      }
    case Admin =>
    case SuperAdmin =>
  }

  lemma NotSharedWithUser(q: Role, p: string)
    requires q != User && p in Permissions(User)
    ensures p !in Permissions(q)
  {
    match q
    case Moderator =>
    case Finance =>
    case Admin =>
    case SuperAdmin =>
  }

  lemma SharedWithModerator(q: Role, p: string)
    requires q != Moderator && q != User && p in Permissions(Moderator)
    ensures p in Permissions(q) ==> p == "view_transactions" && q == Finance
  {
    match q
    case Finance =>
    case Admin =>
    case SuperAdmin =>
  }

  lemma NotSharedWithFinance(q: Role, p: string)
    requires Rank(q) > Rank(Finance) && p in Permissions(Finance)
    ensures p !in Permissions(q)
  {
    match q
    case Admin =>
    case SuperAdmin =>
  }
}
