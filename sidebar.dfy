/**
 * The navigation sidebar: the menu built from the stored user's roles, and logout,
 * which forgets the stored token and user.
 */
module Sidebar {
  import opened Wrappers
  import opened Seqs

  /** `user?.roles?.some(r => r.name === "ADMIN")`; no stored user or no role list is false. */
  predicate IsAdmin(roles: Option<seq<string>>) {
    roles.Some? && exists i :: 0 <= i < |roles.value| && roles.value[i] == "ADMIN"
  }

  /** The same test for ADMIN or MANAGER. */
  predicate IsAdminOrManager(roles: Option<seq<string>>) {
    roles.Some? && exists i :: 0 <= i < |roles.value| && (roles.value[i] == "ADMIN" || roles.value[i] == "MANAGER")
  }

  /** Every administrator counts as administrator-or-manager; without a stored role list both are false. */
  lemma AdminIsAdminOrManager(roles: Option<seq<string>>)
    ensures IsAdmin(roles) ==> IsAdminOrManager(roles)
    ensures roles.None? ==> !IsAdmin(roles) && !IsAdminOrManager(roles)
  {
  }

  datatype MenuItem = MenuItem(caption: string, path: string)

  const Dashboard := MenuItem("Dashboard", "/dashboard")
  const Projects := MenuItem("Projects", "/projects")
  const TasksList := MenuItem("Tasks List", "/tasks")
  const BoardView := MenuItem("Board View", "/tasks/board")
  const Team := MenuItem("Team", "/users")
  const Settings := MenuItem("Settings", "/settings")

  /**
   * `menuItems` as written: the five fixed entries ending with Team, one more Team entry for
   * an administrator or manager, one more for an administrator, then Settings.
   */
  function MenuItems(roles: Option<seq<string>>): (r: seq<MenuItem>)
    ensures |r| == 6 + (if IsAdminOrManager(roles) then 1 else 0) + (if IsAdmin(roles) then 1 else 0)
    ensures r[0] == Dashboard && r[|r| - 1] == Settings
    ensures r[..5] == [Dashboard, Projects, TasksList, BoardView, Team]
    ensures forall i :: 4 <= i < |r| - 1 ==> r[i] == Team
  {
    [Dashboard, Projects, TasksList, BoardView, Team]
      + (if IsAdminOrManager(roles) then [Team] else [])
      + (if IsAdmin(roles) then [Team] else [])
      + [Settings]
  }

  function PathOf(m: MenuItem): string { m.path }

  function OnPath(path: string): MenuItem -> bool {
    (m: MenuItem) => m.path == path
  }

  function NotTeam(): MenuItem -> bool {
    (m: MenuItem) => m != Team
  }

  /** The four fixed entries before the first Team link. */
  const Leading := [Dashboard, Projects, TasksList, BoardView]

  /** The Team links: the fixed one and the role-dependent ones. */
  function TeamLinks(roles: Option<seq<string>>): (r: seq<MenuItem>)
    ensures forall i :: 0 <= i < |r| ==> r[i] == Team
  {
    [Team] + (if IsAdminOrManager(roles) then [Team] else []) + (if IsAdmin(roles) then [Team] else [])
  }

  /** The menu is the leading entries, the Team links and Settings. */
  lemma MenuShape(roles: Option<seq<string>>)
    ensures MenuItems(roles) == Leading + TeamLinks(roles) + [Settings]
  {
  }

  /** Every user sees the same entries apart from the Team links: Dashboard, Projects, Tasks List, Board View, Settings. */
  lemma OtherEntriesFixed(roles: Option<seq<string>>)
    ensures Filter(MenuItems(roles), NotTeam()) == Leading + [Settings]
  {
    MenuShape(roles);
    FilterAppend(Leading + TeamLinks(roles), [Settings], NotTeam());
    FilterAppend(Leading, TeamLinks(roles), NotTeam());
    FilterKeepsAll(Leading, NotTeam());
    FilterDropsAll(TeamLinks(roles), NotTeam());
    FilterKeepsAll([Settings], NotTeam());
  }

  /** The links to the team page: one for everybody, two for a manager, three for an administrator. */
  lemma TeamLinkCount(roles: Option<seq<string>>)
    ensures Count(MenuItems(roles), OnPath("/users")) ==
              1 + (if IsAdminOrManager(roles) then 1 else 0) + (if IsAdmin(roles) then 1 else 0)
  {
    MenuShape(roles);
    FilterAppend(Leading + TeamLinks(roles), [Settings], OnPath("/users"));
    FilterAppend(Leading, TeamLinks(roles), OnPath("/users"));
    FilterDropsAll(Leading, OnPath("/users"));
    FilterKeepsAll(TeamLinks(roles), OnPath("/users"));
    FilterDropsAll([Settings], OnPath("/users"));
  }

  /** An administrator's menu holds three identical Team links, all keyed by the same path. */
  lemma AdminSeesTeamThrice()
    ensures Count(MenuItems(Some(["ADMIN"])), OnPath("/users")) == 3
    ensures !DistinctKeys(MenuItems(Some(["ADMIN"])), PathOf)
  {
    var roles := Some(["ADMIN"]);
    assert roles.value[0] == "ADMIN";
    TeamLinkCount(roles);
    var r := MenuItems(roles);
    assert r[4] == Team && r[5] == Team;
  }

  /** The menu with a single Team link for everybody. */
  function MenuItemsCorrected(roles: Option<seq<string>>): (r: seq<MenuItem>)
    ensures |r| == 6 && r[0] == Dashboard && r[5] == Settings
    ensures DistinctKeys(r, PathOf)
    ensures Filter(r, NotTeam()) == Filter(MenuItems(roles), NotTeam())
    ensures Count(r, OnPath("/users")) == 1
  {
    var r := Leading + [Team] + [Settings];
    OtherEntriesFixed(roles);
    TeamLinkCount(None);
    assert TeamLinks(None) == [Team];
    MenuShape(None);
    assert r == MenuItems(None);
    OtherEntriesFixed(None);
    r
  }

  /** The browser's local storage: a map from key to stored text. */
  class LocalStorage {
    var items: map<string, string>

    constructor (initial: map<string, string>)
      ensures items == initial
    {
      items := initial;
    }

    /** `removeItem`: forgets one key, and nothing else. */
    method RemoveItem(key: string)
      modifies this
      ensures items == old(items) - {key}
    {
      items := items - {key};
    }
  }

  /**
   * `handleLogout`: removes the token and the stored user, keeps every other key with its
   * value, and returns the page navigated to.
   */
  method HandleLogout(storage: LocalStorage) returns (target: string)
    modifies storage
    ensures "token" !in storage.items && "user" !in storage.items
    ensures forall k :: k != "token" && k != "user" ==>
              (k in storage.items <==> k in old(storage.items))
    ensures forall k :: k in storage.items ==> storage.items[k] == old(storage.items)[k]
    ensures target == "/login"
  {
    storage.RemoveItem("token");
    storage.RemoveItem("user");
    target := "/login";
  }
}
