# Access rules and client logic of a task-management platform

This project is a Dafny model of the core of a full-stack project and task
manager. It covers an Express/Prisma back end with JWT authentication and
role-based access, and a React front end. The model covers:

- **Access control.** Bearer-token extraction and `authorizeRoles`
  (`Auth`). The ADMIN / MANAGER / VIEWER permission table with
  `requirePermission` and `requireAdmin` (`Rbac`). The endpoint-to-gate
  tables of the route files, and the capped, newest-first activity-log
  listing (`Routes`).
- **Controllers.** Handlers for tasks, projects, comments and tags
  (`TaskController`, `ProjectController`, `CommentController`,
  `TagController`).
  - Each is a method over an in-memory `Database.Store`. The store's
    sequences are reassigned in place, in creation order, and an activity
    log is appended to.
  - Each method states every status code it can answer and the exact new
    store it leaves.
  - The pure rules beside them are functions with lemmas: request-body
    validation, visibility scope, authorization, field update and the
    activity-log rule.
- **Front end**, one module per page or component:
  - `TasksPage`: the filter pipeline, the sort comparator, `handleSort`,
    `canManage` and the checkbox toggles;
  - `TasksKanban`: the drag-and-drop list update and the column counts;
  - `UsersPage`: search, role badge, admin gating, delete;
  - `SettingsPage`: profile form validation;
  - `RecentActivity`: the activity feed text;
  - `DashboardStats`: the chart values and the completion percentage;
  - `Sidebar`: the menu and logout;
  - `CreateUserModal` and `EditTaskModal`: the two modal dialogs.

Shared modules:

- `Wrappers`: `Option`.
- `Strings`: ASCII lower-casing, `includes`, JavaScript `split`/`join`,
  first-occurrence `replace` and lexicographic order.
- `Seqs`: filter, count, subsequence and key-based lookup with their laws.
- `Domain`: the status and priority enumerations with their wire names,
  JSON request fields, and the optional/nullable field-validation rules.
- `ClientTypes`: the front end's task shape.

Things the program gets from outside become parameters:

- the JWT verifier (`verify: string -> Option<Principal>`);
- fresh database ids (`newId`, required to be unused);
- Zod's `uuid` and `datetime` checks (`Formats`);
- `toISOString` (`toIso`);
- the outcome of each HTTP call a front-end handler makes (`putSucceeds`,
  `failure`, `outcome`).

## Model

| member | source | states |
|---|---|---|
| Domain.ParseStatus | packages/shared-types/index.ts:1-26 | a string parses to a task status exactly when it is that status's wire name (TODO, IN_PROGRESS, DONE) |
| Domain.ParsePriority | packages/shared-types/index.ts:1-26 | a string parses to a priority exactly when it is that priority's wire name (LOW, MEDIUM, HIGH) |
| Domain.ParseProjectStatus | apps/backend/src/controllers/projectController.ts:7-12 | only ACTIVE and ARCHIVED are accepted by the project schema; COMPLETED is never produced |
| Domain.OptionalString | apps/backend/src/controllers/taskController.ts:8-17 | an optional string field accepts absence as "not supplied" and a string that passes its check as that string; null and non-strings are rejected |
| Domain.NullableString | apps/backend/src/controllers/taskController.ts:8-17 | a nullable optional field distinguishes absent, null and a checked string, and rejects everything else |
| Domain.RequiredString | apps/backend/src/controllers/projectController.ts:7-12 | a required string field is accepted exactly when it is a string passing its check |
| Domain.OptionalEnum | apps/backend/src/controllers/taskController.ts:8-17 | an optional enum field is accepted when absent or when its string parses, and carries the parsed value |
| Auth.ExtractToken | apps/backend/src/middleware/authMiddleware.ts:19-22 | no header gives no token; a token found is non-empty and has no space |
| Auth.TokenIsSecondField | apps/backend/src/middleware/authMiddleware.ts:19-22 | the token is the second space-separated field whatever the scheme word is, and later fields are ignored |
| Auth.NoSpaceNoToken | apps/backend/src/middleware/authMiddleware.ts:19-22 | a header with no space yields no token (401) |
| Auth.DoubleSpaceNoToken | apps/backend/src/middleware/authMiddleware.ts:19-22 | two spaces after the scheme make the second field empty, so no token |
| Auth.AuthenticateToken | apps/backend/src/middleware/authMiddleware.ts:14-34 | 401 exactly when no token is extracted; 403 exactly when a token fails verification; otherwise the verified claims become the request's user |
| Auth.AnyAllowed | apps/backend/src/middleware/authMiddleware.ts:39-45 | true exactly when some held role name is in the allowed list |
| Auth.AuthorizeRoles | apps/backend/src/middleware/authMiddleware.ts:37-47 | passes exactly when a user exists and one of its role names is allowed; a user without a roles field makes the check throw; every other case is 403 |
| Auth.EmptyRolesRefused | apps/backend/src/middleware/authMiddleware.ts:41 | an empty role list is refused by every gate |
| Auth.RoleNamesAreCaseSensitive | apps/backend/src/middleware/authMiddleware.ts:41-43 | "admin" does not pass an ADMIN gate |
| Auth.AllowedNames | apps/backend/src/middleware/authMiddleware.ts:39-45 | the ADMIN/MANAGER and ADMIN-only gates test membership of those names |
| Rbac.PermissionTable | apps/backend/src/middleware/rbacMiddleware.ts:23-43 | ADMIN holds all eight permissions, MANAGER six (all but delete:projects and view:analytics), VIEWER read:projects and read:tasks; VIEWER ⊆ MANAGER ⊆ ADMIN |
| Rbac.RoleNamed | apps/backend/src/middleware/rbacMiddleware.ts:23-43 | a name denotes a role exactly when it is that role's table key |
| Rbac.UnionOfRoles | apps/backend/src/middleware/rbacMiddleware.ts:57-61 | some held role grants p exactly when p is in the union of the held roles' permissions |
| Rbac.UnknownRoleIsInert | apps/backend/src/middleware/rbacMiddleware.ts:58-60 | a role name outside the table adds no permission |
| Rbac.HeldNameContributes | apps/backend/src/middleware/rbacMiddleware.ts:57-61 | every held role's permissions are part of the effective set |
| Rbac.EffectiveMonotone | apps/backend/src/middleware/rbacMiddleware.ts:57-61 | more role names never shrink the effective permission set |
| Rbac.RequirePermission | apps/backend/src/middleware/rbacMiddleware.ts:48-71 | 401 exactly when there is no user or no roles field; passes exactly when p is effective; otherwise 403 |
| Rbac.AddingRolesKeepsAllow | apps/backend/src/middleware/rbacMiddleware.ts:57-61 | adding roles never turns an allow into a deny |
| Rbac.EmptyRolesForbidden | apps/backend/src/middleware/rbacMiddleware.ts:52-67 | a present but empty role list gives 403, not 401 |
| Rbac.RequireAdmin | apps/backend/src/middleware/rbacMiddleware.ts:76 | on the corrected permission gate (see Findings), the admin gate never throws and passes exactly when ADMIN is among the roles; as written it throws on inherited role names |
| Rbac.OnlyAdminGrants | apps/backend/src/middleware/rbacMiddleware.ts:23-43 | delete:projects and view:analytics are effective exactly for holders of ADMIN |
| Rbac.WriteTasksHolders | apps/backend/src/middleware/rbacMiddleware.ts:23-43 | write:tasks is effective exactly when ADMIN or MANAGER is held |
| Rbac.GateEquivalences | apps/backend/src/middleware/authMiddleware.ts:37-47 | for a user with roles, the ADMIN/MANAGER role gate agrees with the corrected requirePermission(write:tasks), and the corrected requireAdmin with the ADMIN role gate (see Findings) |
| Rbac.GatesDifferWithoutRoles | apps/backend/src/middleware/rbacMiddleware.ts:52-54 | with no user or no roles field the two gate families answer differently (403 or a throw against 401) |
| Rbac.AnyGrantsAsWritten | apps/backend/src/middleware/rbacMiddleware.ts:57-61 | the lookup as written agrees with the corrected one when no role name is an inherited object property |
| Rbac.RequirePermissionAsWritten | apps/backend/src/middleware/rbacMiddleware.ts:48-71 | the middleware as written agrees with Rbac.RequirePermission for role names that are not inherited object properties |
| Rbac.InheritedRoleNameThrows | apps/backend/src/middleware/rbacMiddleware.ts:57-61 | a role named "toString" makes the written middleware throw, while the corrected one answers 403 |
| Routes.Admit | apps/backend/src/routes/projectRoutes.ts:11 | a request without a token gets 401; a request passes exactly when it authenticates and its gate passes |
| Routes.ProjectRouteAccess | apps/backend/src/routes/projectRoutes.ts:11-34 | list and detail are open to every role; create and update need ADMIN or MANAGER; delete needs ADMIN; any refusal is 403 |
| Routes.OnlyAdminDeletesProjects | apps/backend/src/routes/projectRoutes.ts:34 | VIEWER and MANAGER get 403 on project delete; ADMIN passes |
| Routes.TaskRouteAccess | apps/backend/src/routes/taskRoutes.ts:10-19 | list and update have no role gate; create and delete need ADMIN or MANAGER |
| Routes.TagRouteAccess | apps/backend/src/routes/tagRoutes.ts:10-15 | listing tags is open; create and update need ADMIN or MANAGER; delete needs ADMIN |
| Routes.UserRouteAccess | apps/backend/src/routes/userRoutes.ts:10-22 | /me is open; listing users needs ADMIN or MANAGER; deleting needs ADMIN |
| Routes.ManagerListsViewerDoesNot | apps/backend/src/routes/userRoutes.ts:11-22 | MANAGER can list but not delete users; VIEWER can do neither |
| Routes.AnalyticsRouteAccess | apps/backend/src/routes/analyticsRoutes.ts:12-28 | on the corrected permission gate (see Findings), both analytics endpoints pass exactly for ADMIN, refuse others with 403 and share one gate |
| Routes.AnalyticsRefusesManagerAndViewer | apps/backend/src/routes/analyticsRoutes.ts:16-28 | MANAGER and VIEWER get 403 on analytics |
| Routes.CommentRouteAccess | apps/backend/src/routes/commentRoutes.ts:11-23 | no comment route has a role gate |
| Routes.RecentLogs | apps/backend/src/routes/logRoutes.ts:35-36 | at most 100 entries, newest first |
| Routes.ListLogs | apps/backend/src/routes/logRoutes.ts:21-44 | a successful listing is 200 with the capped newest-first entries |
| Routes.ListLogsAccess | apps/backend/src/routes/logRoutes.ts:26 | the listing succeeds exactly for ADMIN or MANAGER; other callers get 403 (500 without a roles field) |
| Routes.EveryRouteAuthenticates | apps/backend/src/routes/projectRoutes.ts:11 | whatever the gate, a missing token is answered 401 |
| Database.Store.constructor | apps/backend/src/controllers/taskController.ts:1-5 | a fresh store is empty and satisfies the store invariant (distinct ids) |
| TaskController.ParseTaskBody | apps/backend/src/controllers/taskController.ts:8-17 | accepts exactly the bodies whose title is absent or a non-empty string, description and projectId absent or strings, status and priority absent or enum names, assigneeId and dueDate absent, null or a uuid/datetime string, and tags not malformed; every field is carried through (null kept apart from absent) |
| TaskController.GetTasks | apps/backend/src/controllers/taskController.ts:20-43 | ADMIN and MANAGER see every task; anyone else sees exactly the tasks assigned to them |
| TaskController.GetTasksOrder | apps/backend/src/controllers/taskController.ts:22-36 | the listing is newest first: all tasks reversed, or the caller's assigned tasks reversed |
| TaskController.CreateTaskDefaults | apps/backend/src/controllers/taskController.ts:63-67 | status defaults to TODO, priority to MEDIUM, and dueDate to null when not supplied |
| TaskController.CreateTask | apps/backend/src/controllers/taskController.ts:46-79 | 400 exactly when title or projectId is missing or empty, or the body fails the schema; 500 exactly when the body is acceptable and the project does not exist, the body's tags being ignored; on 201 exactly one task is appended and one TASK_CREATED entry logged; other stores are unchanged |
| TaskController.UpdateChangesOnlySupplied | apps/backend/src/controllers/taskController.ts:104-120 | only supplied fields change; an absent or null dueDate keeps the stored date; a null assigneeId clears the assignee |
| TaskController.UpdateLogRule | apps/backend/src/controllers/taskController.ts:123-152 | a status entry is logged only for a supplied and changed status, a priority entry likewise, and a details entry only when neither is supplied |
| TaskController.UpdateTask | apps/backend/src/controllers/taskController.ts:82-161 | 400 for an invalid body before 404 for an unknown id, before 403 unless the caller is ADMIN, MANAGER or the stored assignee; on 200 exactly that task is replaced by its update and the log rule's entries appended; otherwise the tasks are unchanged |
| TaskController.DeleteTask | apps/backend/src/controllers/taskController.ts:164-181 | 404 for an unknown id; otherwise exactly that task is removed, the others are kept in order, and a TASK_DELETED entry is logged |
| ProjectController.ParseProjectBody | apps/backend/src/controllers/projectController.ts:7-12 | accepts exactly the bodies with a string name of at least 3 characters, description absent or a string, status absent or ACTIVE/ARCHIVED, ownerId absent or a uuid string; every field is carried through; COMPLETED is not an accepted status |
| ProjectController.CreateProject | apps/backend/src/controllers/projectController.ts:14-39 | 400 exactly when the body is invalid; on 201 one project is appended whose owner is the requester, whatever ownerId the body holds |
| ProjectController.GetProjects | apps/backend/src/controllers/projectController.ts:41-77 | ADMIN and MANAGER see every project; anyone else sees exactly the projects holding a task assigned to them |
| ProjectController.GetProjectsOrder | apps/backend/src/controllers/projectController.ts:62-70 | the listing is newest first: read from its end it keeps the table's order, and for ADMIN and MANAGER it is the whole table reversed |
| ProjectController.ProjectsFollowVisibleTasks | apps/backend/src/controllers/projectController.ts:47-60 | for other callers, a project is listed exactly when one of the tasks they can list belongs to it |
| ProjectController.ProjectUpdateKeepsOmitted | apps/backend/src/controllers/projectController.ts:92-96 | the name is replaced; an omitted description or status keeps the stored value; an absent or equal ownerId keeps the owner |
| ProjectController.UpdateProject | apps/backend/src/controllers/projectController.ts:79-129 | 400 for an invalid body, then 404 for an unknown id, then 403 when a different ownerId is sent by a non-ADMIN; on 200 exactly that project is updated and nothing else changes |
| ProjectController.DeleteProject | apps/backend/src/controllers/projectController.ts:131-149 | 404 for an unknown id; otherwise the project and exactly its tasks are removed, and tasks of other projects are kept |
| ProjectController.GetProjectById | apps/backend/src/controllers/projectController.ts:151-201 | an empty id gives 400 and an id no project has gives 404; a caller without a role list gets 500 for an existing project; a success returns the stored project with that id and exactly its tasks; failures are 400, 404 or 500 |
| ProjectController.GetProjectByIdOrder | apps/backend/src/controllers/projectController.ts:162-164 | the project's tasks come newest first: read from the end they keep the task table's order |
| ProjectController.DetailMasking | apps/backend/src/controllers/projectController.ts:179-194 | a caller without ADMIN or MANAGER and without a task in the project gets the same 404 as for a nonexistent id |
| ProjectController.DetailAgreesWithListing | apps/backend/src/controllers/projectController.ts:151-201 | the detail succeeds exactly when the project appears in the caller's listing |
| CommentController.ParseCommentBody | apps/backend/src/controllers/commentController.ts:8-11 | a comment body is accepted exactly with non-empty string content and a uuid taskId |
| CommentController.GetCommentsForTask | apps/backend/src/controllers/commentController.ts:16-44 | 400 exactly when taskId is missing, empty or not a string; otherwise exactly the task's comments, oldest first |
| CommentController.CreateComment | apps/backend/src/controllers/commentController.ts:49-87 | 400 exactly for an invalid body, 500 for an unknown task; on 201 one comment authored by the requester is appended and logged |
| CommentController.UpdateComment | apps/backend/src/controllers/commentController.ts:92-137 | 400 for missing, non-string or blank content before 404 for an unknown id, before 403 unless the caller is ADMIN, MANAGER or the author; on 200 only that comment's content changes |
| CommentController.UnicodeSpacesAreBlank | apps/backend/src/controllers/commentController.ts:98 | content of ideographic, em, medium mathematical or Ogham spaces counts as blank, content with a visible character among them does not |
| CommentController.DeleteComment | apps/backend/src/controllers/commentController.ts:142-176 | 404 for an unknown id before 403 unless the caller is ADMIN, MANAGER or the author; on 204 exactly that comment is removed |
| TagController.HexRunIff | apps/backend/src/controllers/tagController.ts:12 | the hex-run matcher accepts exactly n hex digits |
| TagController.MatchColor | apps/backend/src/controllers/tagController.ts:10-13 | a colour matches exactly when it is '#' and then 3 or 6 hex digits, in either case |
| TagController.ColorExamples | apps/backend/src/controllers/tagController.ts:12 | #fff, #A1b2C3 and #000000 match; #ffff, fff, #ggg and # do not |
| TagController.ParseTag | apps/backend/src/controllers/tagController.ts:8-14 | accepted exactly with a 1 to 20 character name (or, in the update schema, no name) and an absent or valid colour |
| TagController.ApplyTagPatch | apps/backend/src/controllers/tagController.ts:47-52 | a patch keeps the tag's id |
| TagController.PatchLaws | apps/backend/src/controllers/tagController.ts:47-52 | an empty patch is the identity and a patch is idempotent; supplied fields replace and omitted ones stay |
| TagController.GetTags | apps/backend/src/controllers/tagController.ts:17-24 | every stored tag is listed |
| TagController.CreateTag | apps/backend/src/controllers/tagController.ts:27-41 | 400 exactly for an invalid body, creating nothing; on 201 one tag is appended and logged |
| TagController.UpdateTag | apps/backend/src/controllers/tagController.ts:44-59 | 400 for an invalid field or an unknown id; on 200 exactly that tag is patched |
| TagController.Unlink | apps/backend/src/controllers/tagController.ts:62-72 | unlinking keeps every task and removes only that tag id from each task's tags |
| TagController.DeleteTag | apps/backend/src/controllers/tagController.ts:62-72 | 500 for an unknown id; on 204 exactly that tag is removed and unlinked from tasks |
| ClientTypes.OrElse | apps/frontend/src/components/EditTaskModal.tsx:57 | a truthy value wins over the fallback text |
| TasksPage.Toggle | apps/frontend/src/pages/TasksPage.tsx:73-87 | a value is added when absent and removed when present; other values keep their membership |
| TasksPage.ToggleTwice | apps/frontend/src/pages/TasksPage.tsx:73-87 | toggling twice restores membership |
| TasksPage.PassesAllIsSelected | apps/frontend/src/pages/TasksPage.tsx:94-123 | passing all five stages is the same as meeting the combined search, dropdown and checkbox criteria |
| TasksPage.Advance | apps/frontend/src/pages/TasksPage.tsx:94-123 | running an active stage on the previous stages' result gives the stages-so-far filter |
| TasksPage.Skip | apps/frontend/src/pages/TasksPage.tsx:94-123 | an inactive stage (empty term, "" dropdown, empty checkbox group) filters nothing |
| TasksPage.RunStage | apps/frontend/src/pages/TasksPage.tsx:94-123 | one stage turns the result of the earlier stages into the result of the stages so far |
| TasksPage.FilterTasks | apps/frontend/src/pages/TasksPage.tsx:90-123 | the stage-by-stage filter keeps exactly the selected tasks, as a subsequence of the list |
| TasksPage.SelectedTasks | apps/frontend/src/pages/TasksPage.tsx:94-123 | the filtered list holds exactly the selected tasks and is a subsequence |
| TasksPage.Weight | apps/frontend/src/pages/TasksPage.tsx:139-143 | HIGH weighs 3, MEDIUM 2 and LOW 1 |
| TasksPage.Compare | apps/frontend/src/pages/TasksPage.tsx:126-149 | the comparator answers -1, 0 or 1, and 0 exactly when neither key is below the other |
| TasksPage.BelowAsymmetric | apps/frontend/src/pages/TasksPage.tsx:145-147 | the key order is irreflexive and asymmetric |
| TasksPage.CompareLaws | apps/frontend/src/pages/TasksPage.tsx:145-147 | ascending comparison is antisymmetric; descending negates it; a non-zero result means the keys differ |
| TasksPage.Insert | apps/frontend/src/pages/TasksPage.tsx:126-149 | an insertion step adds exactly the element |
| TasksPage.SortSpec | apps/frontend/src/pages/TasksPage.tsx:126-149 | sorting is a permutation |
| TasksPage.SortTasks | apps/frontend/src/pages/TasksPage.tsx:126-149 | the sorting loop computes the specification's stable insertion sort |
| TasksPage.ApplyFilters | apps/frontend/src/pages/TasksPage.tsx:90-160 | the result is a permutation of the selected tasks: in list order without a sort, or the stable sort of them with one |
| TasksPage.KeyKind | apps/frontend/src/pages/TasksPage.tsx:127-143 | only priority has a numeric key; only a missing due date has no key |
| TasksPage.NotAfterTransitive | apps/frontend/src/pages/TasksPage.tsx:145-147 | with every key present the order is transitive |
| TasksPage.NotAfterTotal | apps/frontend/src/pages/TasksPage.tsx:145-147 | with every key present the order is total, and ties have equal keys |
| TasksPage.InsertSorted | apps/frontend/src/pages/TasksPage.tsx:126-149 | inserting into a sorted list keeps it sorted |
| TasksPage.SortSpecSorted | apps/frontend/src/pages/TasksPage.tsx:126-149 | when no key is missing, the result is sorted by the comparator |
| TasksPage.InsertStable | apps/frontend/src/pages/TasksPage.tsx:145-147 | an insertion puts the new element after every element with an equal key |
| TasksPage.SortSpecStable | apps/frontend/src/pages/TasksPage.tsx:145-147 | tasks with equal keys keep their filter order |
| TasksPage.StatusNamesOrdered | apps/frontend/src/pages/TasksPage.tsx:145-146 | as strings DONE < IN_PROGRESS < TODO |
| TasksPage.StatusCompare | apps/frontend/src/pages/TasksPage.tsx:145-147 | tasks of different status compare by status name, and descending flips the result |
| TasksPage.StatusSortOrder | apps/frontend/src/pages/TasksPage.tsx:145-146 | an ascending status sort lists DONE, IN_PROGRESS, TODO and a descending one the reverse |
| TasksPage.PrioritySortOrder | apps/frontend/src/pages/TasksPage.tsx:139-146 | an ascending priority sort lists LOW, MEDIUM, HIGH and a descending one the reverse |
| TasksPage.SortSpecSnoc | apps/frontend/src/pages/TasksPage.tsx:126-149 | sorting a list extended by one element inserts that element into the sorted prefix |
| TasksPage.InsertStep | apps/frontend/src/pages/TasksPage.tsx:145-147 | an element goes before a strictly greater last element and after any other |
| TasksPage.SortSpecPair | apps/frontend/src/pages/TasksPage.tsx:126-149 | a two-element sort is one insertion |
| TasksPage.SortSpecTriple | apps/frontend/src/pages/TasksPage.tsx:126-149 | a three-element sort is the insertion of the last element into the sorted pair |
| TasksPage.AscFirstInsertion | apps/frontend/src/pages/TasksPage.tsx:145-146 | ascending: IN_PROGRESS goes before TODO |
| TasksPage.AscSecondInsertion | apps/frontend/src/pages/TasksPage.tsx:145-146 | ascending: DONE goes before IN_PROGRESS and TODO |
| TasksPage.DescInsertions | apps/frontend/src/pages/TasksPage.tsx:145-146 | descending: TODO, IN_PROGRESS, DONE keep that order |
| TasksPage.StatusSortExample | tests/tasks.spec.ts:413-420 | [TODO, IN_PROGRESS, DONE] sorts to DONE, IN_PROGRESS, TODO ascending and stays as it is descending |
| TasksPage.HandleSort | apps/frontend/src/pages/TasksPage.tsx:162-169 | the new key is the clicked one, descending exactly when the current config is that key ascending |
| TasksPage.HandleSortAlternates | apps/frontend/src/pages/TasksPage.tsx:162-169 | clicking the same header alternates the direction; the first click is ascending |
| TasksPage.CanManage | apps/frontend/src/pages/TasksPage.tsx:171-173 | the manage controls show exactly for ADMIN or MANAGER |
| TasksPage.CanManageMatchesServer | apps/frontend/src/pages/TasksPage.tsx:171-173 | the client's manage check agrees with the server's ADMIN/MANAGER gate |
| TasksPage.RemoveTask | apps/frontend/src/pages/TasksPage.tsx:179 | deleting removes exactly the tasks with that id and keeps the rest in order |
| TasksKanban.Restatus | apps/frontend/src/pages/TasksKanbanPage.tsx:65-69 | only the dragged task's status changes, to the destination; length, order and other fields stay |
| TasksKanban.OnDragEnd | apps/frontend/src/pages/TasksKanbanPage.tsx:51-82 | no destination, the same place or an unknown id leave the list unchanged; a move restatuses the dragged task and issues its PUT |
| TasksKanban.MovedIff | apps/frontend/src/pages/TasksKanbanPage.tsx:54-69 | a move happens exactly with a destination different from the source and a known task id |
| TasksKanban.ReorderKeepsList | apps/frontend/src/pages/TasksKanbanPage.tsx:65-69 | a move within one column leaves the list as it was |
| TasksKanban.ColumnCountsSum | apps/frontend/src/pages/TasksKanbanPage.tsx:12-34 | the three column counts sum to the number of tasks |
| TasksKanban.RestatusCounts | apps/frontend/src/pages/TasksKanbanPage.tsx:114 | how a restatus changes each column's count |
| TasksKanban.MoveShiftsCounts | apps/frontend/src/pages/TasksKanbanPage.tsx:114 | moving one task takes one from its column and adds one to the destination |
| TasksKanban.OnlyOne | apps/frontend/src/pages/TasksKanbanPage.tsx:62-63 | with distinct ids, a property only that id can have is counted once |
| TasksKanban.NoneOf | apps/frontend/src/pages/TasksKanbanPage.tsx:62-63 | a property no task has is counted zero times |
| UsersPage.AfterFetch | apps/frontend/src/pages/UsersPage.tsx:33-39 | a fetch error shows the access-denied text exactly for a 403, and the generic text otherwise |
| UsersPage.ViewerSeesAccessDenied | apps/frontend/src/pages/UsersPage.tsx:33-39 | a caller the server refuses holds neither ADMIN nor MANAGER and sees the access-denied text |
| UsersPage.CurrentUserRole | apps/frontend/src/pages/UsersPage.tsx:51 | the page's role is the first stored role name, or "" |
| UsersPage.AdminControlsImplyServerAdmin | apps/frontend/src/pages/UsersPage.tsx:126 | the admin controls show exactly when the first role is ADMIN, and then the server's ADMIN gate passes |
| UsersPage.FirstRoleOnly | apps/frontend/src/pages/UsersPage.tsx:79-99 | [MANAGER, ADMIN] gets the ADMIN badge but no admin controls |
| UsersPage.RoleBadge | apps/frontend/src/pages/UsersPage.tsx:79-99 | ADMIN if any role is ADMIN, else MANAGER if any is MANAGER, else VIEWER |
| UsersPage.BadgeMatchesServer | apps/frontend/src/pages/UsersPage.tsx:79-99 | the ADMIN badge agrees with the ADMIN gate, and a non-VIEWER badge with the ADMIN/MANAGER gate |
| UsersPage.FilterUsers | apps/frontend/src/pages/UsersPage.tsx:73-77 | a user is kept exactly when it matches the term, in list order |
| UsersPage.EmptySearchKeepsAll | apps/frontend/src/pages/UsersPage.tsx:73-77 | an empty term keeps everyone in order |
| UsersPage.SearchIgnoresCase | apps/frontend/src/pages/UsersPage.tsx:74-76 | the term's case does not matter |
| UsersPage.IncludesSuffix | apps/frontend/src/pages/UsersPage.tsx:74-76 | a text includes each of its suffixes |
| UsersPage.SearchByEmailFinds | apps/frontend/src/pages/UsersPage.tsx:73-77 | searching for a user's email, in any case, finds that user |
| UsersPage.HandleDelete | apps/frontend/src/pages/UsersPage.tsx:59-71 | nothing happens without confirmation; a successful delete removes exactly the users with that id and says so; a failed one keeps the list and reports the failure |
| SettingsPage.Validate | apps/frontend/src/pages/SettingsPage.tsx:42-58 | sent exactly when the new password is empty or matches and has at least 6 characters; the payload has the names and a password only when one is given; a mismatch is reported before shortness |
| SettingsPage.MismatchCheckedFirst | apps/frontend/src/pages/SettingsPage.tsx:48-57 | any mismatched pair reports the mismatch, even when short |
| SettingsPage.RejectedExamples | tests/settings.spec.ts:35-52 | password123/wrongpassword reports a mismatch and 111/111 reports too short |
| SettingsPage.ConfirmationAloneIgnored | apps/frontend/src/pages/SettingsPage.tsx:47 | with no new password, the confirmation is ignored and no password is sent |
| SettingsPage.SettingsForm.constructor | apps/frontend/src/pages/SettingsPage.tsx:12-16 | all fields start empty and nothing is loading |
| SettingsPage.SettingsForm.ProfileLoaded | apps/frontend/src/pages/SettingsPage.tsx:24-33 | loading the profile fills the names and email and keeps the rest |
| SettingsPage.SettingsForm.HandleUpdateProfile | apps/frontend/src/pages/SettingsPage.tsx:35-70 | a refused form sends nothing and alerts the reason; a sent one that succeeds sets the success text and clears both password fields; a failure alerts the error text |
| RecentActivity.Initials | apps/frontend/src/components/RecentActivity.tsx:35-36 | the first character of the first name and then of the last name |
| RecentActivity.Detail | apps/frontend/src/components/RecentActivity.tsx:44 | the detail line is never empty |
| RecentActivity.Render | apps/frontend/src/components/RecentActivity.tsx:24-44 | an empty list shows "No recent activity found."; otherwise one row per entry with its initials, name, headline and detail |
| RecentActivity.LowerNoUnderscore | apps/frontend/src/components/RecentActivity.tsx:41 | lower-casing adds no underscore |
| RecentActivity.ActionParts | apps/frontend/src/components/RecentActivity.tsx:41-44 | for an action a:b where neither a nor b holds a further ':', the headline reads only a, and the detail is b, or "Action performed" when b is empty or the colon is missing |
| RecentActivity.HeadlineWords | apps/frontend/src/components/RecentActivity.tsx:41 | W1_W2 gives "w1 w2" |
| RecentActivity.OnlyFirstUnderscore | apps/frontend/src/components/RecentActivity.tsx:41 | only the first underscore becomes a space: A_B_C gives "a b_c" |
| RecentActivity.LowerWord | apps/frontend/src/components/RecentActivity.tsx:41 | lower-casing is character by character |
| RecentActivity.TwoWordAction | apps/frontend/src/components/RecentActivity.tsx:41-44 | an action W1_W2:rest reads the lower-cased words joined by a space, with rest as its detail or the fixed text when rest is empty |
| RecentActivity.TaskCreatedExample | apps/frontend/src/components/RecentActivity.tsx:41-44 | TASK_CREATED reads "task created" with the default detail |
| RecentActivity.UserDeletedExample | apps/frontend/src/components/RecentActivity.tsx:41-44 | "USER_DELETED: ann@x.io" reads "user deleted" with detail " ann@x.io" |
| DashboardStats.GroupCounts | apps/backend/src/routes/dashboardRoutes.ts:29-32 | the stats map has a key exactly for each status that occurs, valued by its count |
| DashboardStats.CountAbsent | apps/frontend/src/components/DashboardStats.tsx:17-25 | a status that does not occur counts zero |
| DashboardStats.StatusCountsSum | apps/frontend/src/components/DashboardStats.tsx:17-27 | the three status counts sum to the number of tasks |
| DashboardStats.TotalIsTaskCount | apps/frontend/src/components/DashboardStats.tsx:27 | the total of the chart values is the number of tasks |
| DashboardStats.NearestPercent | apps/frontend/src/components/DashboardStats.tsx:29-32 | a percentage within half a unit of the exact value is in 0..100 when done ≤ total |
| DashboardStats.RoundPercent | apps/frontend/src/components/DashboardStats.tsx:29-32 | the rounded percentage is within half a unit of the exact one, and in 0..100 when done ≤ total |
| DashboardStats.RoundPercentZero | apps/frontend/src/components/DashboardStats.tsx:29-32 | the rounded percentage is 0 exactly when under half a percent is done |
| DashboardStats.RoundPercentFull | apps/frontend/src/components/DashboardStats.tsx:29-32 | all tasks done rounds to 100 |
| DashboardStats.RoundPercentEnds | apps/frontend/src/components/DashboardStats.tsx:29-32 | none done gives 0, all done gives 100, and the result is 0 exactly below half a percent |
| DashboardStats.CompletionAsWritten | apps/frontend/src/components/DashboardStats.tsx:29-32 | the component as written gives 0 when there are no tasks and NaN exactly when tasks exist but DONE is absent |
| DashboardStats.Completion | apps/frontend/src/components/DashboardStats.tsx:29-32 | the corrected completion is in 0..100, 0 with no tasks or no DONE, and within half a unit of the exact percentage |
| DashboardStats.CompletionAgrees | apps/frontend/src/components/DashboardStats.tsx:29-32 | when DONE is present or there are no tasks, the written and corrected values agree |
| DashboardStats.CompletionNaNExample | apps/frontend/src/components/DashboardStats.tsx:31 | one TODO task: the stats map has no DONE key and the written completion is NaN; the corrected one is 0 |
| DashboardStats.CompletionOfTasks | apps/frontend/src/components/DashboardStats.tsx:29-32 | over real stats, completion is 0 exactly when under half a percent is done, and 100 when all are done |
| Sidebar.AdminIsAdminOrManager | apps/frontend/src/components/Sidebar.tsx:14-19 | isAdmin implies isAdminOrManager; with no stored user both are false |
| Sidebar.MenuItems | apps/frontend/src/components/Sidebar.tsx:27-38 | six entries plus one per role flag; Dashboard first and Settings last; Team fills the positions after the fixed four |
| Sidebar.TeamLinks | apps/frontend/src/components/Sidebar.tsx:32-36 | the role-dependent block holds only Team entries |
| Sidebar.MenuShape | apps/frontend/src/components/Sidebar.tsx:27-38 | the menu is the fixed leading entries, the Team block and Settings |
| Sidebar.OtherEntriesFixed | apps/frontend/src/components/Sidebar.tsx:27-38 | the non-Team entries are the same for every user |
| Sidebar.TeamLinkCount | apps/frontend/src/components/Sidebar.tsx:32-36 | the number of /users entries is 1 + [ADMIN or MANAGER] + [ADMIN] |
| Sidebar.AdminSeesTeamThrice | apps/frontend/src/components/Sidebar.tsx:32-36 | an ADMIN gets three /users entries, so the path keys repeat |
| Sidebar.MenuItemsCorrected | apps/frontend/src/components/Sidebar.tsx:48-50 | the corrected menu has six entries with distinct paths, the same non-Team entries and one Team link |
| Sidebar.LocalStorage.constructor | apps/frontend/src/components/Sidebar.tsx:21-25 | storage starts with the given items |
| Sidebar.LocalStorage.RemoveItem | apps/frontend/src/components/Sidebar.tsx:22-23 | removing a key drops only that key |
| Sidebar.HandleLogout | apps/frontend/src/components/Sidebar.tsx:21-25 | token and user are removed, every other key and value stays, and the target is /login |
| CreateUserModal.DisplayMessage | apps/frontend/src/components/CreateUserModal.tsx:41-51 | an array error joins its messages with ", "; a string is shown as is; an object's non-empty message is shown; anything else shows "Failed to create user" |
| CreateUserModal.JoinWithEmpty | apps/frontend/src/components/CreateUserModal.tsx:44-46 | a join is empty exactly for no parts or one empty part |
| CreateUserModal.BannerHiddenCases | apps/frontend/src/components/CreateUserModal.tsx:73 | the banner is hidden exactly for an empty string, an empty array, or an array of one empty message |
| CreateUserModal.TwoIssues | apps/frontend/src/components/CreateUserModal.tsx:44-46 | two issues read "a, b" |
| CreateUserModal.CreateUserDialog.constructor | apps/frontend/src/components/CreateUserModal.tsx:19-25 | the form starts empty with role VIEWER |
| CreateUserModal.CreateUserDialog.HandleSubmit | apps/frontend/src/components/CreateUserModal.tsx:29-57 | the form is posted unchanged; the dialog closes exactly on success; on failure the error is the selected display message |
| EditTaskModal.NullIfEmpty | apps/frontend/src/components/EditTaskModal.tsx:52 | "" becomes null and any other text is kept |
| EditTaskModal.InitialForm | apps/frontend/src/components/EditTaskModal.tsx:14-21 | the form copies the task; null description and assignee become ""; the due date is the text before 'T' or "" |
| EditTaskModal.SubmitPayload | apps/frontend/src/components/EditTaskModal.tsx:45-53 | the payload carries the form's fields and the task's own projectId; an empty due date is null, another is converted; an empty assignee is null |
| EditTaskModal.AssigneeRoundTrip | apps/frontend/src/components/EditTaskModal.tsx:21-52 | an untouched assignee is sent back as stored (an empty id comes back as null) |
| EditTaskModal.UntouchedSave | apps/frontend/src/components/EditTaskModal.tsx:14-53 | saving an untouched form keeps title, status, priority, project and description |
| EditTaskModal.DueDateRoundTrip | apps/frontend/src/components/EditTaskModal.tsx:20-50 | an untouched due date is sent as the conversion of its day part; a missing one as null |
| EditTaskModal.EditTaskDialog.constructor | apps/frontend/src/components/EditTaskModal.tsx:14-21 | the dialog starts from the task's initial form |
| EditTaskModal.EditTaskDialog.HandleSubmit | apps/frontend/src/components/EditTaskModal.tsx:39-61 | the payload of the current form is sent; the dialog closes exactly on success; on failure the server's error text, or "Failed to update task", is shown |

## Left out

- JWT signing and verification and bcrypt hashing are not modelled. Verification is the parameter `verify`; the auth routes (register, login) are not part of this model.
- The Prisma client is not modelled: query translation, `include`/`select` payloads, the user table and user foreign keys. Response bodies are modelled only where a property is stated about them.
  - Stores are sequences in creation order.
  - Deleting a task does not model the database's cascade to its comments.
  - Tag-name uniqueness is not modelled.
  - The order of `getTags` is unspecified.
- Request bodies that are not JSON objects are not modelled.
- `recordActivity` is modelled as appending (user id, action) to the log. Its extra arguments and its swallowed failures are left out.
- The Zod `uuid` and `datetime` formats are the uninterpreted predicates of `Formats`.
- Dates and the clock are left out: `new Date`, `toISOString` (the parameter `toIso`), locale date formatting and creation timestamps.
- The back end's entry point mounts only the auth, project and task routers. The other route tables are modelled as written, without a claim that they are reachable.
- The analytics and dashboard-statistics queries themselves are left out (Prisma `groupBy`/`_count`). `DashboardStats.GroupCounts` states only the shape of the statistics map.
- String lengths count characters, not UTF-16 code units; lower-casing is ASCII only; string `<` is code-point order.
- DashboardStats.RoundPercent: exact rational rounding, not floating point. The model keeps the result within half a unit of the exact percentage; floating-point ties may round differently.
- TasksPage.SortSpecSorted: sortedness is proved only when no sort key is missing. A null due date compares as neither below nor above anything, so the comparator is not a total order. The resulting order is then implementation-defined; the model's stable insertion sort is one admissible outcome.
- Rbac.RequireAdmin, Rbac.GateEquivalences, Routes.AnalyticsRouteAccess: stated on the corrected permission gate `Rbac.RequirePermission`. As written, an inherited role name such as `toString` makes `requirePermission` throw (a 500), so the admin and analytics gates throw there too, instead of refusing with 403 or agreeing with the role gate (see Findings and `Rbac.InheritedRoleNameThrows`).
- TasksPage.SortKey: the title, project and assignee keys follow the comparator's branches, but no column header of the page issues them; only status, priority, due date and creation date are sortable from the page.
- TasksPage.CanManage: a stored user without a roles field makes the page throw. The model answers false.
- React rendering, hooks and state scheduling are not modelled. Neither are axios, `alert`/`confirm` and JSON parsing of stored values. `alert` and error values that are not strings are modelled only through `Field`.
- The kanban page's refetch after a failed update is not modelled, nor is the drag-and-drop library.
- Concurrency (`Promise.all`) is not modelled.
- The tests, page objects, seed scripts and configuration are not part of this model.

## Findings

| source | as written | input that shows it | evidently intended | confidence | as-written member | corrected member |
|---|---|---|---|---|---|---|
| apps/backend/src/middleware/rbacMiddleware.ts:57-61 | the role name indexes the permission object directly, so inherited properties such as `toString` are found and `.includes` is called on a function | a token whose roles are ["toString"] | unknown role names grant nothing and the answer is 403 | not executed | Rbac.InheritedRoleNameThrows | Rbac.RequirePermission |
| apps/frontend/src/components/DashboardStats.tsx:29-32 | the completion percentage reads DONE without the zero default used for the chart values, and the statistics endpoint emits only statuses that occur | one task in TODO and none DONE | completion 0 | not executed | DashboardStats.CompletionNaNExample | DashboardStats.Completion |
| apps/frontend/src/components/Sidebar.tsx:32-36 | the Team entry is added once unconditionally, again for ADMIN or MANAGER and again for ADMIN, and the path is the React key | a stored user with roles [ADMIN] | one Team link, distinct keys | not executed | Sidebar.AdminSeesTeamThrice | Sidebar.MenuItemsCorrected |
