/**
 * The routers: every endpoint first runs `authenticateToken`, then the gate its route
 * declares (none, a role-name gate, or a permission gate), then its handler. Each
 * router's table maps its endpoints to their gates; the activity-log router also
 * carries its own handler, the capped newest-first listing.
 */
module Routes {
  import opened Wrappers
  import opened Seqs
  import opened Domain
  import opened Auth
  import opened Rbac

  /** What a route puts between authentication and its handler. */
  datatype Gate = AuthOnly | RoleGate(allowed: seq<string>) | PermissionGate(p: Permission)

  const AdminOrManager: seq<string> := ["ADMIN", "MANAGER"]
  const AdminOnly: seq<string> := ["ADMIN"]

  /** The gate's decision for an authenticated user. */
  function GateVerdict(g: Gate, u: Principal): Verdict {
    match g
    case AuthOnly => Next
    case RoleGate(allowed) => AuthorizeRoles(allowed, Some(u))
    case PermissionGate(p) => RequirePermission(p, Some(u))
  }

  /** `authenticateToken` followed by the route's gate: the handler runs only on `Next`. */
  function Admit(header: Option<string>, verify: string -> Option<Principal>, g: Gate): (r: Verdict)
    ensures ExtractToken(header).None? ==> r == Respond(401)
    ensures r == Next <==>
              AuthenticateToken(header, verify).Authenticated?
              && GateVerdict(g, AuthenticateToken(header, verify).user) == Next
  {
    match AuthenticateToken(header, verify)
    case Rejected(status) => Respond(status)
    case Authenticated(u) => GateVerdict(g, u)
  }

  // ---------------------------------------------------------------- projects

  datatype ProjectEndpoint = CreateProject | ListProjects | GetProject | UpdateProject | DeleteProject

  function ProjectGate(e: ProjectEndpoint): Gate {
    match e
    case CreateProject => RoleGate(AdminOrManager)
    case ListProjects => AuthOnly
    case GetProject => AuthOnly
    case UpdateProject => RoleGate(AdminOrManager)
    case DeleteProject => RoleGate(AdminOnly)
  }

  /**
   * For a user with a role list: listing and detail are open to everyone authenticated,
   * create and update need ADMIN or MANAGER, delete needs ADMIN; a refusal is 403.
   */
  lemma ProjectRouteAccess(u: Principal, e: ProjectEndpoint)
    requires u.roles.Some?
    ensures GateVerdict(ProjectGate(e), u) == Next <==>
              match e
              case ListProjects | GetProject => true
              case CreateProject | UpdateProject => "ADMIN" in u.roles.value || "MANAGER" in u.roles.value
              case DeleteProject => "ADMIN" in u.roles.value
    ensures GateVerdict(ProjectGate(e), u) != Next ==> GateVerdict(ProjectGate(e), u) == Respond(403)
  {
    AllowedNames(u.roles.value);
  }

  /** A VIEWER or a MANAGER cannot delete a project. */
  lemma OnlyAdminDeletesProjects(id: string)
    ensures GateVerdict(ProjectGate(DeleteProject), Principal(id, Some(["VIEWER"]))) == Respond(403)
    ensures GateVerdict(ProjectGate(DeleteProject), Principal(id, Some(["MANAGER"]))) == Respond(403)
    ensures GateVerdict(ProjectGate(DeleteProject), Principal(id, Some(["ADMIN"]))) == Next
  {
    ProjectRouteAccess(Principal(id, Some(["VIEWER"])), DeleteProject);
    ProjectRouteAccess(Principal(id, Some(["MANAGER"])), DeleteProject);
    ProjectRouteAccess(Principal(id, Some(["ADMIN"])), DeleteProject);
  }

  // ---------------------------------------------------------------- tasks

  datatype TaskEndpoint = ListTasks | CreateTask | UpdateTask | DeleteTask

  function TaskGate(e: TaskEndpoint): Gate {
    match e
    case ListTasks => AuthOnly
    case CreateTask => RoleGate(AdminOrManager)
    case UpdateTask => AuthOnly
    case DeleteTask => RoleGate(AdminOrManager)
  }

  /**
   * Listing and update have no role gate (update is decided by the handler's
   * ADMIN/MANAGER-or-assignee rule); create and delete need ADMIN or MANAGER.
   */
  lemma TaskRouteAccess(u: Principal, e: TaskEndpoint)
    requires u.roles.Some?
    ensures GateVerdict(TaskGate(e), u) == Next <==>
              match e
              case ListTasks | UpdateTask => true
              case CreateTask | DeleteTask => "ADMIN" in u.roles.value || "MANAGER" in u.roles.value
    ensures GateVerdict(TaskGate(e), u) != Next ==> GateVerdict(TaskGate(e), u) == Respond(403)
  {
    AllowedNames(u.roles.value);
  }

  // ---------------------------------------------------------------- tags

  datatype TagEndpoint = ListTags | CreateTag | UpdateTag | DeleteTag

  function TagGate(e: TagEndpoint): Gate {
    match e
    case ListTags => AuthOnly
    case CreateTag => RoleGate(AdminOrManager)
    case UpdateTag => RoleGate(AdminOrManager)
    case DeleteTag => RoleGate(AdminOnly)
  }

  /** Listing is open; create and update need ADMIN or MANAGER; delete needs ADMIN. */
  lemma TagRouteAccess(u: Principal, e: TagEndpoint)
    requires u.roles.Some?
    ensures GateVerdict(TagGate(e), u) == Next <==>
              match e
              case ListTags => true
              case CreateTag | UpdateTag => "ADMIN" in u.roles.value || "MANAGER" in u.roles.value
              case DeleteTag => "ADMIN" in u.roles.value
    ensures GateVerdict(TagGate(e), u) != Next ==> GateVerdict(TagGate(e), u) == Respond(403)
  {
    AllowedNames(u.roles.value);
  }

  // ---------------------------------------------------------------- users

  datatype UserEndpoint = Me | ListUsers | DeleteUser

  function UserGate(e: UserEndpoint): Gate {
    match e
    case Me => AuthOnly
    case ListUsers => RoleGate(AdminOrManager)
    case DeleteUser => RoleGate(AdminOnly)
  }

  /** `/me` needs only authentication; listing needs ADMIN or MANAGER; deleting needs ADMIN. */
  lemma UserRouteAccess(u: Principal, e: UserEndpoint)
    requires u.roles.Some?
    ensures GateVerdict(UserGate(e), u) == Next <==>
              match e
              case Me => true
              case ListUsers => "ADMIN" in u.roles.value || "MANAGER" in u.roles.value
              case DeleteUser => "ADMIN" in u.roles.value
  {
    AllowedNames(u.roles.value);
  }

  /** Hence a MANAGER may list users but not delete them, and a VIEWER may do neither. */
  lemma ManagerListsViewerDoesNot(id: string)
    ensures GateVerdict(UserGate(ListUsers), Principal(id, Some(["MANAGER"]))) == Next
    ensures GateVerdict(UserGate(DeleteUser), Principal(id, Some(["MANAGER"]))) == Respond(403)
    ensures GateVerdict(UserGate(ListUsers), Principal(id, Some(["VIEWER"]))) == Respond(403)
    ensures GateVerdict(UserGate(DeleteUser), Principal(id, Some(["VIEWER"]))) == Respond(403)
  {
    UserRouteAccess(Principal(id, Some(["MANAGER"])), ListUsers);
    UserRouteAccess(Principal(id, Some(["MANAGER"])), DeleteUser);
    UserRouteAccess(Principal(id, Some(["VIEWER"])), ListUsers);
    UserRouteAccess(Principal(id, Some(["VIEWER"])), DeleteUser);
  }

  // ---------------------------------------------------------------- analytics

  datatype AnalyticsEndpoint = ProjectProgress | UserPerformance

  function AnalyticsGate(e: AnalyticsEndpoint): Gate {
    match e
    case ProjectProgress => PermissionGate(ViewAnalytics)
    case UserPerformance => PermissionGate(ViewAnalytics)
  }

  /**
   * On the corrected permission gate, both analytics endpoints pass exactly the users whose
   * role list names ADMIN, the only role holding `view:analytics`, and refuse everyone else
   * with 403; so a caller passes one exactly when it passes the other. As written, an
   * inherited role name such as `toString` makes the gate throw instead (a 500).
   */
  lemma AnalyticsRouteAccess(u: Principal, e: AnalyticsEndpoint)
    requires u.roles.Some?
    ensures GateVerdict(AnalyticsGate(e), u) == Next <==> "ADMIN" in u.roles.value
    ensures GateVerdict(AnalyticsGate(e), u) == GateVerdict(AnalyticsGate(ProjectProgress), u)
    ensures GateVerdict(AnalyticsGate(e), u) != Next ==> GateVerdict(AnalyticsGate(e), u) == Respond(403)
  {
    OnlyAdminGrants(u.roles.value, ViewAnalytics);
  }

  /** MANAGER and VIEWER are refused analytics with 403. */
  lemma AnalyticsRefusesManagerAndViewer(id: string, e: AnalyticsEndpoint)
    ensures GateVerdict(AnalyticsGate(e), Principal(id, Some(["MANAGER"]))) == Respond(403)
    ensures GateVerdict(AnalyticsGate(e), Principal(id, Some(["VIEWER"]))) == Respond(403)
  {
    AnalyticsRouteAccess(Principal(id, Some(["MANAGER"])), e);
    AnalyticsRouteAccess(Principal(id, Some(["VIEWER"])), e);
  }

  // ---------------------------------------------------------------- comments

  datatype CommentEndpoint = ListComments | CreateComment | UpdateComment | DeleteComment

  function CommentGate(e: CommentEndpoint): Gate {
    match e
    case ListComments => AuthOnly
    case CreateComment => AuthOnly
    case UpdateComment => AuthOnly
    case DeleteComment => AuthOnly
  }

  /**
   * No comment route has a role gate: every authenticated user, whatever its roles, may
   * list and create, and the handlers' author-or-ADMIN/MANAGER rule is the only check on
   * update and delete.
   */
  lemma CommentRouteAccess(u: Principal, e: CommentEndpoint)
    ensures GateVerdict(CommentGate(e), u) == Next
  {
  }

  // ---------------------------------------------------------------- activity log

  const LogGate: Gate := RoleGate(AdminOrManager)
  const LogPageSize: nat := 100

  /** `orderBy: { createdAt: "desc" }, take: 100` over a log kept in the order it was written. */
  function RecentLogs(logs: seq<Activity>): (r: seq<Activity>)
    ensures |r| == if |logs| < LogPageSize then |logs| else LogPageSize
    ensures forall i :: 0 <= i < |r| ==> r[i] == logs[|logs| - 1 - i]
  {
    var n := if |logs| < LogPageSize then |logs| else LogPageSize;
    Reverse(logs)[..n]
  }

  /** `GET /api/logs` for an authenticated user: the role gate, then the newest entries. */
  function ListLogs(u: Principal, logs: seq<Activity>): (r: Reply<seq<Activity>>)
    ensures r.Ok? ==> r.status == 200 && r.body == RecentLogs(logs)
  {
    match GateVerdict(LogGate, u)
    case Next => Ok(200, RecentLogs(logs))
    case Respond(status) => Err(status)
    case Thrown => Err(500)
  }

  /**
   * ADMIN or MANAGER get the listing; anyone else is refused outright with 403 (nothing
   * is filtered), and a user without a role list makes the gate throw.
   */
  lemma ListLogsAccess(u: Principal, logs: seq<Activity>)
    ensures ListLogs(u, logs).Ok? <==> u.roles.Some? && ("ADMIN" in u.roles.value || "MANAGER" in u.roles.value)
    ensures ListLogs(u, logs).Err? ==> ListLogs(u, logs).status == (if u.roles.None? then 500 else 403)
  {
    if u.roles.Some? {
      AllowedNames(u.roles.value);
    }
  }

  /** Every router authenticates first: without a token each endpoint answers 401. */
  lemma EveryRouteAuthenticates(header: Option<string>, verify: string -> Option<Principal>, g: Gate)
    requires ExtractToken(header).None?
    ensures Admit(header, verify, g) == Respond(401)
  {
  }
}
