/**
 * Permission-based access control: a fixed table from the three role names to the
 * permissions each grants, and the `requirePermission` gate that passes a request
 * when any of the user's roles grants the required permission.
 */
module Rbac {
  import opened Wrappers
  import opened Auth

  datatype Role = Admin | Manager | Viewer

  function RoleName(r: Role): string {
    match r
    case Admin => "ADMIN"
    case Manager => "MANAGER"
    case Viewer => "VIEWER"
  }

  datatype Permission =
    | ReadProjects | WriteProjects | DeleteProjects | ManageProjectSettings
    | ReadTasks | WriteTasks | ManageUsers | ViewAnalytics

  /** `ROLE_PERMISSIONS`, each list in the order it is written. */
  function RolePermissions(r: Role): seq<Permission> {
    match r
    case Admin =>
      [ReadProjects, WriteProjects, DeleteProjects, ManageProjectSettings,
       ReadTasks, WriteTasks, ManageUsers, ViewAnalytics]
    case Manager =>
      [ReadProjects, WriteProjects, ManageProjectSettings, ReadTasks, WriteTasks, ManageUsers]
    case Viewer =>
      [ReadProjects, ReadTasks]
  }

  /** The permissions a role grants, as a set. */
  function PermissionSet(r: Role): set<Permission> {
    set q | q in RolePermissions(r)
  }

  /** ADMIN holds all eight permissions, MANAGER six, VIEWER two, and each set contains the next. */
  lemma PermissionTable()
    ensures forall q :: q in PermissionSet(Admin)
    ensures |RolePermissions(Admin)| == 8 && |RolePermissions(Manager)| == 6 && |RolePermissions(Viewer)| == 2
    ensures PermissionSet(Manager) == PermissionSet(Admin) - {DeleteProjects, ViewAnalytics}
    ensures PermissionSet(Viewer) == {ReadProjects, ReadTasks}
    ensures PermissionSet(Viewer) <= PermissionSet(Manager) <= PermissionSet(Admin)
  {
    forall q ensures q in PermissionSet(Admin) {
      match q
      case ReadProjects => assert RolePermissions(Admin)[0] == q;
      case WriteProjects => assert RolePermissions(Admin)[1] == q;
      case DeleteProjects => assert RolePermissions(Admin)[2] == q;
      case ManageProjectSettings => assert RolePermissions(Admin)[3] == q;
      case ReadTasks => assert RolePermissions(Admin)[4] == q;
      case WriteTasks => assert RolePermissions(Admin)[5] == q;
      case ManageUsers => assert RolePermissions(Admin)[6] == q;
      case ViewAnalytics => assert RolePermissions(Admin)[7] == q;
    }
  }

  /** `ROLE_PERMISSIONS[name]` over the table's own keys: exactly the three role names. */
  function RoleNamed(name: string): (r: Option<Role>)
    ensures forall role :: r == Some(role) <==> RoleName(role) == name
  {
    if name == "ADMIN" then Some(Admin)
    else if name == "MANAGER" then Some(Manager)
    else if name == "VIEWER" then Some(Viewer)
    else None
  }

  /** `permissions && permissions.includes(p)` for one role name; an unknown name grants nothing. */
  predicate Grants(name: string, p: Permission) {
    match RoleNamed(name)
    case None => false
    case Some(role) => p in RolePermissions(role)
  }

  /** What a role name contributes to the union of a user's permissions. */
  function NamePermissions(name: string): set<Permission> {
    match RoleNamed(name)
    case None => {}
    case Some(role) => PermissionSet(role)
  }

  /** The union of the permissions of every role name held. */
  function Effective(roles: seq<string>): set<Permission>
    decreases |roles|
  {
    if roles == [] then {} else NamePermissions(roles[0]) + Effective(roles[1..])
  }

  /** `user.roles.some(roleName => ...)`: some held role grants `p`. */
  function AnyGrants(roles: seq<string>, p: Permission): (r: bool)
    decreases |roles|
  {
    roles != [] && (Grants(roles[0], p) || AnyGrants(roles[1..], p))
  }

  /** A permission is granted exactly when it lies in the union over the user's roles. */
  lemma {:induction false} UnionOfRoles(roles: seq<string>, p: Permission)
    ensures AnyGrants(roles, p) <==> p in Effective(roles)
    decreases |roles|
  {
    if roles != [] {
      UnionOfRoles(roles[1..], p);
    }
  }

  /** A role name outside the table contributes nothing: holding it changes no decision. */
  lemma {:induction false} UnknownRoleIsInert(roles: seq<string>, name: string, p: Permission)
    requires RoleNamed(name).None?
    ensures AnyGrants(roles + [name], p) == AnyGrants(roles, p)
    decreases |roles|
  {
    if roles == [] {
      assert roles + [name] == [name];
    } else {
      assert (roles + [name])[1..] == roles[1..] + [name];
      UnknownRoleIsInert(roles[1..], name, p);
    }
  }

  /** A role name held somewhere in `roles` contributes its whole permission set. */
  lemma {:induction false} HeldNameContributes(roles: seq<string>, i: nat)
    requires i < |roles|
    ensures NamePermissions(roles[i]) <= Effective(roles)
    decreases |roles|
  {
    if i > 0 {
      HeldNameContributes(roles[1..], i - 1);
    }
  }

  /** More role names never mean fewer permissions. */
  lemma {:induction false} EffectiveMonotone(roles: seq<string>, more: seq<string>)
    requires forall i :: 0 <= i < |roles| ==> roles[i] in more
    ensures Effective(roles) <= Effective(more)
    decreases |roles|
  {
    if roles != [] {
      EffectiveMonotone(roles[1..], more);
      var k :| 0 <= k < |more| && more[k] == roles[0];
      HeldNameContributes(more, k);
    }
  }

  /**
   * `requirePermission(p)`: no user or no `roles` claim is 401; otherwise the request
   * passes when some held role grants `p`, and is refused with 403 when none does.
   */
  function RequirePermission(p: Permission, user: Option<Principal>): (r: Verdict)
    ensures r == Respond(401) <==> user.None? || user.value.roles.None?
    ensures r == Next <==> user.Some? && user.value.roles.Some? && p in Effective(user.value.roles.value)
    ensures r != Next && r != Respond(401) ==> r == Respond(403)
  {
    match user
    case None => Respond(401)
    case Some(u) =>
      match u.roles
      case None => Respond(401)
      case Some(roles) =>
        UnionOfRoles(roles, p);
        if AnyGrants(roles, p) then Next else Respond(403)
  }

  /** Adding roles to a user never turns an allow into a deny. */
  lemma AddingRolesKeepsAllow(p: Permission, id: string, roles: seq<string>, more: seq<string>)
    requires forall i :: 0 <= i < |roles| ==> roles[i] in more
    requires RequirePermission(p, Some(Principal(id, Some(roles)))) == Next
    ensures RequirePermission(p, Some(Principal(id, Some(more)))) == Next
  {
    EffectiveMonotone(roles, more);
  }

  /** A present but empty role list is refused with 403, not 401. */
  lemma EmptyRolesForbidden(p: Permission, id: string)
    ensures RequirePermission(p, Some(Principal(id, Some([])))) == Respond(403)
  {
  }

  /**
   * `requireAdmin`: the gate for `delete:projects`, built on the corrected permission gate
   * `RequirePermission`. On that gate it never throws, and it passes exactly the users whose
   * role list names ADMIN, since only ADMIN holds `delete:projects`. The gate as written
   * throws for inherited role names such as `toString` (`InheritedRoleNameThrows`).
   */
  function RequireAdmin(user: Option<Principal>): (r: Verdict)
    ensures r != Thrown
    ensures r == Next <==> user.Some? && user.value.roles.Some? && "ADMIN" in user.value.roles.value
  {
    if user.Some? && user.value.roles.Some? then
      OnlyAdminGrants(user.value.roles.value, DeleteProjects);
      RequirePermission(DeleteProjects, user)
    else
      RequirePermission(DeleteProjects, user)
  }

  /** For the two permissions only ADMIN holds, a role list grants them exactly when it names ADMIN. */
  lemma {:induction false} OnlyAdminGrants(roles: seq<string>, p: Permission)
    requires p == DeleteProjects || p == ViewAnalytics
    ensures p in Effective(roles) <==> "ADMIN" in roles
    decreases |roles|
  {
    if roles != [] {
      OnlyAdminGrants(roles[1..], p);
      assert roles == [roles[0]] + roles[1..];
    }
  }

  /** `write:tasks` is held exactly by ADMIN and MANAGER. */
  lemma {:induction false} WriteTasksHolders(roles: seq<string>)
    ensures WriteTasks in Effective(roles) <==> AnyAllowed(roles, ["ADMIN", "MANAGER"])
    decreases |roles|
  {
    if roles != [] {
      WriteTasksHolders(roles[1..]);
      assert roles == [roles[0]] + roles[1..];
    }
  }

  /**
   * For a user whose token carries a role list, `authorizeRoles("ADMIN", "MANAGER")` and
   * the corrected `requirePermission("write:tasks")` take the same decision, and the
   * corrected `requireAdmin` is `authorizeRoles("ADMIN")`. As written, the permission gate
   * throws where the role gate answers 403 for inherited role names such as `toString`.
   */
  lemma GateEquivalences(u: Principal)
    requires u.roles.Some?
    ensures AuthorizeRoles(["ADMIN", "MANAGER"], Some(u)) == RequirePermission(WriteTasks, Some(u))
    ensures RequireAdmin(Some(u)) == AuthorizeRoles(["ADMIN"], Some(u))
  {
    WriteTasksHolders(u.roles.value);
  }

  /** Without a user or without a role list the two gates answer differently. */
  lemma GatesDifferWithoutRoles(id: string)
    ensures AuthorizeRoles(["ADMIN"], None) == Respond(403) && RequireAdmin(None) == Respond(401)
    ensures AuthorizeRoles(["ADMIN"], Some(Principal(id, None))) == Thrown
    ensures RequireAdmin(Some(Principal(id, None))) == Respond(401)
  {
  }

  /**
   * The names every plain JavaScript object inherits from `Object.prototype`. Looked up
   * in the permission table they yield a function or an object, which is truthy but
   * has no `includes`.
   */
  predicate InheritedName(name: string) {
    name in {"constructor", "hasOwnProperty", "isPrototypeOf", "propertyIsEnumerable",
             "toLocaleString", "toString", "valueOf", "__proto__",
             "__defineGetter__", "__defineSetter__", "__lookupGetter__", "__lookupSetter__"}
  }

  /**
   * The `some` callback as written, role by role: `None` when the lookup found an inherited
   * member and `.includes` was called on it, which throws.
   */
  function AnyGrantsAsWritten(roles: seq<string>, p: Permission): (r: Option<bool>)
    ensures (forall i :: 0 <= i < |roles| ==> !InheritedName(roles[i])) ==> r == Some(AnyGrants(roles, p))
    decreases |roles|
  {
    if roles == [] then Some(false)
    else if Grants(roles[0], p) then Some(true)
    else if InheritedName(roles[0]) then None
    else AnyGrantsAsWritten(roles[1..], p)
  }

  /** `requirePermission` as written, where an inherited name in the role list throws instead of refusing. */
  function RequirePermissionAsWritten(p: Permission, user: Option<Principal>): (r: Verdict)
    ensures user.Some? && user.value.roles.Some? && (forall i :: 0 <= i < |user.value.roles.value| ==> !InheritedName(user.value.roles.value[i]))
            ==> r == RequirePermission(p, user)
  {
    match user
    case None => Respond(401)
    case Some(u) =>
      match u.roles
      case None => Respond(401)
      case Some(roles) =>
        match AnyGrantsAsWritten(roles, p)
        case None => Thrown
        case Some(b) =>
          UnionOfRoles(roles, p);
          if b then Next else Respond(403)
  }

  /** A role named `toString` makes the gate throw where the table promises a plain 403. */
  lemma InheritedRoleNameThrows(id: string)
    ensures RequirePermissionAsWritten(ReadTasks, Some(Principal(id, Some(["toString"])))) == Thrown
    ensures RequirePermission(ReadTasks, Some(Principal(id, Some(["toString"])))) == Respond(403)
  {
    assert InheritedName("toString");
    assert RoleNamed("toString").None?;
    assert !AnyGrants(["toString"], ReadTasks);
  }
}
