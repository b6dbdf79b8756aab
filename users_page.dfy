/**
 * The team page: loading the user list, the current user's role read from the stored
 * user, the case-insensitive search, the role badge, and deleting a user.
 */
module UsersPage {
  import opened Wrappers
  import opened Seqs
  import opened Strings
  import opened Domain
  import opened Auth
  import opened ClientTypes

  const AccessDenied := "Access Denied: You need ADMIN or MANAGER permissions to view this list."
  const LoadFailed := "Failed to load team members. Please check backend logs."
  const DeleteFailedText := "Failed to delete user."
  const DeletedText := "User deleted successfully."

  // ---------------------------------------------------------------- loading

  /** What `GET /users` gave: the list, or a failure with the response status if there was a response. */
  datatype FetchOutcome = Fetched(users: seq<ClientUser>) | FetchFailed(status: Option<int>)

  /** The list and the error banner ("" shows none). */
  datatype ListState = ListState(users: seq<ClientUser>, error: string)

  /**
   * `fetchUsers`: a success replaces the list and clears the banner; a failure keeps
   * the list and shows the access-denied text exactly when the server answered 403,
   * the generic load failure otherwise.
   */
  function AfterFetch(s: ListState, o: FetchOutcome): (r: ListState)
    ensures r.error == "" <==> o.Fetched?
    ensures o.Fetched? ==> r.users == o.users
    ensures o.FetchFailed? ==> r.users == s.users
    ensures o.FetchFailed? ==> (r.error == AccessDenied <==> o.status == Some(403))
    ensures o.FetchFailed? && r.error != AccessDenied ==> r.error == LoadFailed
  {
    match o
    case Fetched(users) => ListState(users, "")
    case FetchFailed(status) =>
      ListState(s.users, if status == Some(403) then AccessDenied else LoadFailed)
  }

  /** The server's refusal of a non-manager is exactly what brings up the access-denied banner. */
  lemma ViewerSeesAccessDenied(s: ListState, id: string, roles: seq<string>)
    requires AuthorizeRoles(["ADMIN", "MANAGER"], Some(Principal(id, Some(roles)))) != Next
    ensures AfterFetch(s, FetchFailed(Some(403))).error == AccessDenied
    ensures "ADMIN" !in roles && "MANAGER" !in roles
  {
    AllowedNames(roles);
  }

  // ---------------------------------------------------------------- current role

  /**
   * The role the page acts on: the first role name of the stored user, or "" when there
   * is no stored user, it has no role list, or the list is empty.
   */
  function CurrentUserRole(stored: Option<seq<string>>): (r: string)
    ensures stored.Some? && |stored.value| > 0 ==> r == stored.value[0]
    ensures stored.None? || |stored.value| == 0 ==> r == ""
  {
    match stored
    case None => ""
    case Some(rs) => if |rs| > 0 then rs[0] else ""
  }

  /** The create button and the delete buttons are shown when the current role is ADMIN. */
  predicate ShowAdminControls(stored: Option<seq<string>>) {
    CurrentUserRole(stored) == "ADMIN"
  }

  /**
   * The controls appear only for a user the server's ADMIN gate admits, and exactly when
   * the first role is ADMIN.
   */
  lemma AdminControlsImplyServerAdmin(id: string, stored: Option<seq<string>>)
    ensures ShowAdminControls(stored) <==> stored.Some? && |stored.value| > 0 && stored.value[0] == "ADMIN"
    ensures ShowAdminControls(stored) ==> AuthorizeRoles(["ADMIN"], Some(Principal(id, stored))) == Next
  {
    if ShowAdminControls(stored) {
      AllowedNames(stored.value);
      assert stored.value[0] in stored.value;
    }
  }

  /**
   * Only the first role decides: an administrator whose first role is MANAGER gets the
   * ADMIN badge but no admin controls.
   */
  lemma FirstRoleOnly()
    ensures RoleBadge(["MANAGER", "ADMIN"]) == AdminBadge
    ensures !ShowAdminControls(Some(["MANAGER", "ADMIN"]))
  {
    assert ["MANAGER", "ADMIN"][1] == "ADMIN";
  }

  // ---------------------------------------------------------------- badge

  datatype Badge = AdminBadge | ManagerBadge | ViewerBadge

  /** `getRoleBadge`: ADMIN wins over MANAGER, and any other role list shows VIEWER. */
  function RoleBadge(roles: seq<string>): (r: Badge)
    ensures r == AdminBadge <==> "ADMIN" in roles
    ensures r == ManagerBadge <==> "ADMIN" !in roles && "MANAGER" in roles
    ensures r == ViewerBadge <==> "ADMIN" !in roles && "MANAGER" !in roles
  {
    if exists i :: 0 <= i < |roles| && roles[i] == "ADMIN" then AdminBadge
    else if exists i :: 0 <= i < |roles| && roles[i] == "MANAGER" then ManagerBadge
    else ViewerBadge
  }

  /** The badge agrees with the server's role gates: ADMIN with the ADMIN gate, any non-VIEWER badge with the ADMIN-or-MANAGER gate. */
  lemma BadgeMatchesServer(id: string, roles: seq<string>)
    ensures RoleBadge(roles) == AdminBadge <==> AuthorizeRoles(["ADMIN"], Some(Principal(id, Some(roles)))) == Next
    ensures RoleBadge(roles) != ViewerBadge <==>
              AuthorizeRoles(["ADMIN", "MANAGER"], Some(Principal(id, Some(roles)))) == Next
  {
    AllowedNames(roles);
  }

  // ---------------------------------------------------------------- search

  /** The text searched: first name, last name and email separated by spaces. */
  function SearchText(u: ClientUser): string {
    u.firstName + " " + u.lastName + " " + u.email
  }

  predicate UserMatches(term: string, u: ClientUser) {
    Includes(Lower(SearchText(u)), Lower(term))
  }

  function Matching(term: string): ClientUser -> bool {
    (u: ClientUser) => UserMatches(term, u)
  }

  /** `filteredUsers`: the users whose names or email contain the term, ignoring case, in list order. */
  function FilterUsers(users: seq<ClientUser>, term: string): (r: seq<ClientUser>)
    ensures forall u :: u in r <==> u in users && UserMatches(term, u)
    ensures IsSubsequence(r, users)
  {
    FilterMembers(users, Matching(term));
    FilterIsSubsequence(users, Matching(term));
    Filter(users, Matching(term))
  }

  /** An empty search box lists everyone. */
  lemma EmptySearchKeepsAll(users: seq<ClientUser>)
    ensures FilterUsers(users, "") == users
  {
    forall i | 0 <= i < |users| ensures Matching("")(users[i]) {
      IncludesEmpty(Lower(SearchText(users[i])));
    }
    FilterKeepsAll(users, Matching(""));
  }

  /** The search ignores the case of the term. */
  lemma SearchIgnoresCase(users: seq<ClientUser>, term: string)
    ensures FilterUsers(users, Lower(term)) == FilterUsers(users, term)
  {
    LowerProperties(term, "");
    FilterExt(users, Matching(Lower(term)), Matching(term));
  }

  /** `s` occurs in `p + s`. */
  lemma IncludesSuffix(p: string, s: string)
    ensures Includes(p + s, s)
  {
    assert (p + s)[|p|..|p| + |s|] == s;
    assert OccursAt(p + s, s, |p|);
    IncludesIff(p + s, s);
  }

  /** Searching for a user's email, in any case, finds that user. */
  lemma SearchByEmailFinds(users: seq<ClientUser>, u: ClientUser, term: string)
    requires u in users && Lower(term) == Lower(u.email)
    ensures u in FilterUsers(users, term)
  {
    var front := u.firstName + " " + u.lastName + " ";
    assert SearchText(u) == front + u.email;
    LowerProperties(front, u.email);
    IncludesSuffix(Lower(front), Lower(u.email));
  }

  // ---------------------------------------------------------------- delete

  /** The result of `DELETE /users/:id`; a failure carries the response body's `error` value. */
  datatype DeleteOutcome = DeleteOk | DeleteFailed(error: Field)

  /** The list afterwards, whether the request was sent, and what was alerted. */
  datatype DeleteResult = DeleteResult(users: seq<ClientUser>, requested: bool, alert: Option<Field>)

  /**
   * `handleDelete`: nothing happens unless the user confirms; on success the user is
   * dropped from the list and a success message shown; on failure the list is kept and
   * the server's error, or a fixed text when it has none, is shown.
   */
  function HandleDelete(users: seq<ClientUser>, id: string, confirmed: bool, outcome: DeleteOutcome): (r: DeleteResult)
    ensures r.requested == confirmed
    ensures !confirmed ==> r.users == users && r.alert.None?
    ensures confirmed ==> r.alert.Some? && Truthy(r.alert.value)
    ensures confirmed && outcome.DeleteOk? ==>
              && (forall u :: u in r.users <==> u in users && u.id != id)
              && IsSubsequence(r.users, users)
              && r.alert == Some(Str(DeletedText))
    ensures confirmed && outcome.DeleteFailed? ==>
              && r.users == users
              && (Truthy(outcome.error) ==> r.alert == Some(outcome.error))
              && (!Truthy(outcome.error) ==> r.alert == Some(Str(DeleteFailedText)))
  {
    if !confirmed then DeleteResult(users, false, None)
    else match outcome
      case DeleteOk =>
        var keep := (u: ClientUser) => u.id != id;
        FilterMembers(users, keep);
        FilterIsSubsequence(users, keep);
        DeleteResult(Filter(users, keep), true, Some(Str(DeletedText)))
      case DeleteFailed(error) =>
        DeleteResult(users, true, Some(OrElse(error, DeleteFailedText)))
  }
}
