/**
 * The access-control guards. Each guard reads the requester's role (absent when the request
 * carries none) and either lets the request through or answers with an error status.
 */
module Rbac {
  import opened Wrappers
  import opened Roles

  /** A guard's single outcome: pass the request on, or answer with `code`. */
  datatype Verdict = Next | Deny(code: int)

  /** Some role in `roles` lists `p` itself (the `some` over the hierarchy). */
  function InheritedBy(roles: seq<Role>, p: string): (b: bool)
    ensures b <==> exists i :: 0 <= i < |roles| && p in Permissions(roles[i])
  {
    if roles == [] then false
    else
      p in Permissions(roles[0]) || (
      var rest := InheritedBy(roles[1..], p);
      InheritedByTail(roles, p, rest);
      rest)
  }

  lemma InheritedByTail(roles: seq<Role>, p: string, rest: bool)
    requires roles != []
    requires rest <==> exists i :: 0 <= i < |roles[1..]| && p in Permissions(roles[1..][i])
    ensures rest <==> exists i :: 1 <= i < |roles| && p in Permissions(roles[i])
  {
    assert forall i :: 1 <= i < |roles| ==> roles[i] == roles[1..][i - 1];
  }

  /** The permission test shared by `hasPermission` and `combinePermissions`. */
  predicate Granted(r: Role, p: string) {
    p in Permissions(r) || InheritedBy(Hierarchy(r), p) || r == SuperAdmin
  }

  /** `hasRole(required)`: 401 without a role; passes the same role, an inheriting role, or super_admin; 403 otherwise. */
  function HasRole(userRole: Option<Role>, required: Role): (v: Verdict)
    ensures userRole.None? ==> v == Deny(401)
    ensures userRole.Some? ==>
      (v == Next <==> required == userRole.value || required in Hierarchy(userRole.value) || userRole.value == SuperAdmin)
    ensures v == Next ==> Rank(required) <= Rank(userRole.value)
    ensures v != Next ==> v.code in {401, 403}
  {
    if userRole.None? then Deny(401)
    else
      var r := userRole.value;
      if r == required || required in Hierarchy(r) || r == SuperAdmin then
        assert required in Hierarchy(r) ==> Rank(required) <= Rank(r) by {
          if required in Hierarchy(r) { HierarchyDescends(r, required); }
        }
        Next
      else Deny(403)
  }

  /** `hasPermission(p)`: 401 without a role; passes iff the role or one it inherits lists `p`, or it is super_admin. */
  function HasPermission(userRole: Option<Role>, p: string): (v: Verdict)
    ensures userRole.None? ==> v == Deny(401)
    ensures userRole.Some? ==> (v == Next <==>
      p in Permissions(userRole.value)
      || (exists q :: q in Hierarchy(userRole.value) && p in Permissions(q))
      || userRole.value == SuperAdmin)
    ensures v != Next ==> v.code in {401, 403}
  {
    if userRole.None? then Deny(401)
    else if Granted(userRole.value, p) then Next
    else Deny(403)
  }

  /** Every permission in `ps` is granted to `r` (the `every` over the listed permissions). */
  function GrantedAll(r: Role, ps: seq<string>): (b: bool)
    ensures b <==> forall i :: 0 <= i < |ps| ==> Granted(r, ps[i])
  {
    if ps == [] then true
    else
      Granted(r, ps[0]) && (
      var rest := GrantedAll(r, ps[1..]);
      GrantedAllTail(r, ps, rest);
      rest)
  }

  lemma GrantedAllTail(r: Role, ps: seq<string>, rest: bool)
    requires ps != []
    requires rest <==> forall i :: 0 <= i < |ps[1..]| ==> Granted(r, ps[1..][i])
    ensures rest <==> forall i :: 1 <= i < |ps| ==> Granted(r, ps[i])
  {
    assert forall i :: 1 <= i < |ps| ==> ps[i] == ps[1..][i - 1];
  }

  /** `combinePermissions(ps)`: 401 without a role; passes iff `hasPermission` would pass for every listed permission. */
  function CombinePermissions(userRole: Option<Role>, ps: seq<string>): (v: Verdict)
    ensures userRole.None? ==> v == Deny(401)
    ensures userRole.Some? ==> (v == Next <==> forall i :: 0 <= i < |ps| ==> HasPermission(userRole, ps[i]) == Next)
    ensures userRole.Some? && ps == [] ==> v == Next
    ensures v != Next ==> v.code in {401, 403}
  {
    if userRole.None? then Deny(401)
    else if GrantedAll(userRole.value, ps) then Next
    else Deny(403)
  }

  /** super_admin passes every guard, whatever is asked of it. */
  lemma SuperAdminPassesAll(required: Role, p: string, ps: seq<string>)
    ensures HasRole(Some(SuperAdmin), required) == Next
    ensures HasPermission(Some(SuperAdmin), p) == Next
    ensures CombinePermissions(Some(SuperAdmin), ps) == Next
  {
  }

  /** A role grants every permission of each role it inherits from. */
  lemma InheritanceMonotone(r: Role, q: Role, p: string)
    requires q in Hierarchy(r)
    ensures Granted(q, p) ==> Granted(r, p)
  {
    if Granted(q, p) && r != SuperAdmin {
      if p in Permissions(q) {
        assert p in Permissions(Hierarchy(r)[IndexOf(Hierarchy(r), q)]);
      } else {
        var i :| 0 <= i < |Hierarchy(q)| && p in Permissions(Hierarchy(q)[i]);
        var o := Hierarchy(q)[i];
        HierarchyClosed(r, q, o);
        assert p in Permissions(Hierarchy(r)[IndexOf(Hierarchy(r), o)]);
      }
    }
  }

  /** The position of `x` in `xs`. */
  function IndexOf(xs: seq<Role>, x: Role): (i: nat)
    requires x in xs
    ensures i < |xs| && xs[i] == x
  {
    if xs[0] == x then 0 else 1 + IndexOf(xs[1..], x)
  }

  /** Passing `hasRole(q)` implies passing `hasPermission(p)` for every permission `q` holds. */
  lemma RoleImpliesPermissions(r: Role, q: Role, p: string)
    requires HasRole(Some(r), q) == Next && Granted(q, p)
    ensures HasPermission(Some(r), p) == Next
  {
    if r != q && r != SuperAdmin {
      InheritanceMonotone(r, q, p);
    }
  }

  /**
   * The role-assignment check of the user-role update, as written: only an assignment of `admin`
   * by someone other than super_admin is refused.
   */
  function AssignRoleAsWritten(actor: Role, target: Role): (v: Verdict)
    ensures v == Deny(403) <==> actor != SuperAdmin && target == Admin
  {
    if actor != SuperAdmin && target == Admin then Deny(403) else Next
  }

  /**
   * As written, an admin's request to assign super_admin, a role that outranks the admin, passes the
   * check, although the comment says only moderator may be assigned by anyone but super_admin.
   */
  lemma AdminCanAssignSuperAdmin()
    ensures AssignRoleAsWritten(Admin, SuperAdmin) == Next
    ensures Rank(SuperAdmin) > Rank(Admin)
  {
  }

  /**
   * The check as its own comment describes it: super_admin may assign any role, anyone else only
   * moderator.
   */
  function AssignRole(actor: Role, target: Role): (v: Verdict)
    ensures actor == SuperAdmin ==> v == Next
    ensures v == Deny(403) || v == Next
  {
    if actor == SuperAdmin || target == Moderator then Next else Deny(403)
  }

  /** With the corrected check nobody but super_admin hands out a role ranked at admin or above. */
  lemma AssignRoleNeverEscalates(actor: Role, target: Role)
    requires AssignRole(actor, target) == Next && actor != SuperAdmin
    ensures Rank(target) < Rank(Admin)
    ensures forall p :: Granted(target, p) ==> Granted(Admin, p)
  {
    assert target == Moderator;
    forall p | Granted(target, p) ensures Granted(Admin, p) {
      InheritanceMonotone(Admin, Moderator, p);
    }
  }
}
