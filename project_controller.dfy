/**
 * The project handlers: creation owned by the caller, listing scoped to projects that
 * hold one of the caller's tasks, update with the ADMIN-only owner change, deletion
 * together with the project's tasks, and the detail view that hides projects the
 * caller may not see behind the same 404 as a missing one.
 */
module ProjectController {
  import opened Wrappers
  import opened Seqs
  import opened Domain
  import opened Auth
  import opened Database
  import TaskController

  datatype ProjectBody = ProjectBody(name: Field, description: Field, status: Field, ownerId: Field)

  /** A body that passed `projectSchema`; `None` for an absent optional key. */
  datatype ProjectInput = ProjectInput(
    name: string,
    description: Option<string>,
    status: Option<ProjectStatus>,
    ownerId: Option<string>)

  /** `z.string().min(3)`. */
  predicate NameOk(s: string) {
    |s| >= 3
  }

  /**
   * `projectSchema.parse(body)`: a name of at least 3 characters is required (on update
   * too), description is an optional string, status ACTIVE or ARCHIVED, ownerId a uuid.
   */
  function ParseProjectBody(b: ProjectBody, fmt: Formats): (r: Parsed<ProjectInput>)
    ensures r.Accept? ==> b.name == Str(r.value.name) && |r.value.name| >= 3
    ensures !b.name.Str? || |b.name.s| < 3 ==> r.Reject?
    ensures r.Accept? && r.value.status.Some? ==> r.value.status.value != Completed
    ensures r.Accept? <==>
              && b.name.Str? && NameOk(b.name.s)
              && (b.description.Absent? || b.description.Str?)
              && (b.status.Absent? || (b.status.Str? && ParseProjectStatus(b.status.s).Some?))
              && (b.ownerId.Absent? || (b.ownerId.Str? && fmt.isUuid(b.ownerId.s)))
    ensures r.Accept? ==> r.value.description == (if b.description.Str? then Some(b.description.s) else None)
    ensures r.Accept? ==> r.value.status == (if b.status.Str? then ParseProjectStatus(b.status.s) else None)
    ensures r.Accept? ==> r.value.ownerId == (if b.ownerId.Str? then Some(b.ownerId.s) else None)
  {
    var name := RequiredString(b.name, NameOk);
    var description := OptionalString(b.description, AnyString);
    var status := OptionalEnum(b.status, ParseProjectStatus);
    var ownerId := OptionalString(b.ownerId, fmt.isUuid);
    if name.Accept? && description.Accept? && status.Accept? && ownerId.Accept? then
      Accept(ProjectInput(name.value, description.value, status.value, ownerId.value))
    else Reject
  }

  // ---------------------------------------------------------------- createProject

  /** The row `createProject` inserts: the body's fields, with the caller as owner whatever the body says. */
  function NewProject(id: string, input: ProjectInput, ownerId: string): Project {
    Project(id, input.name, input.description, input.status, ownerId)
  }

  /**
   * `POST /api/projects`: 400 when the schema rejects the body; otherwise the project is
   * appended, owned by the caller, and a PROJECT_CREATED entry logged.
   */
  method CreateProject(db: Store, caller: Principal, body: ProjectBody, fmt: Formats, newId: string)
    returns (status: int)
    requires db.Valid()
    requires forall i :: 0 <= i < |db.projects| ==> db.projects[i].id != newId
    modifies db
    ensures db.Valid()
    ensures db.tasks == old(db.tasks) && db.comments == old(db.comments) && db.tags == old(db.tags)
    ensures status == 201 || status == 400
    ensures status == 400 <==> ParseProjectBody(body, fmt).Reject?
    ensures status == 201 ==>
              && db.projects == old(db.projects) + [NewProject(newId, ParseProjectBody(body, fmt).value, caller.userId)]
              && db.projects[|db.projects| - 1].ownerId == caller.userId
              && db.log == old(db.log) + [Activity(caller.userId, "PROJECT_CREATED")]
    ensures status == 400 ==> db.projects == old(db.projects) && db.log == old(db.log)
  {
    var parsed := ParseProjectBody(body, fmt);
    if parsed.Reject? {
      return 400;
    }
    var project := NewProject(newId, parsed.value, caller.userId);
    AppendKeepsDistinct(db.projects, project, ProjectKey);
    ghost var before := db.projects;
    db.projects := db.projects + [project];
    forall i | 0 <= i < |db.tasks| ensures HasProject(db.projects, db.tasks[i].projectId) {
      var pid := db.tasks[i].projectId;
      IndexOfFound(before, ProjectKey, pid);
      IndexOfFound(db.projects, ProjectKey, pid);
    }
    db.log := db.log + [Activity(caller.userId, "PROJECT_CREATED")];
    status := 201;
  }

  // ---------------------------------------------------------------- getProjects

  /** A task of project `projectId` assigned to `userId`. */
  function AssignedInProject(projectId: string, userId: string): Task -> bool {
    (t: Task) => t.projectId == projectId && t.assigneeId == Some(userId)
  }

  /** A project holding at least one task assigned to `userId`. */
  function HoldsTaskOf(tasks: seq<Task>, userId: string): Project -> bool {
    (p: Project) => Count(tasks, AssignedInProject(p.id, userId)) > 0
  }

  /**
   * `GET /api/projects`: ADMIN and MANAGER see every project; anyone else exactly the
   * projects with a task assigned to them; newest first.
   */
  function GetProjects(db: Store, caller: Principal): (r: seq<Project>)
    reads db
    ensures forall p :: p in r <==>
              p in db.projects
              && (IsAdminOrManager(caller)
                  || exists t :: t in db.tasks && t.projectId == p.id && t.assigneeId == Some(caller.userId))
  {
    if IsAdminOrManager(caller) then
      ReverseMembers(db.projects);
      Reverse(db.projects)
    else
      var visible := Filter(db.projects, HoldsTaskOf(db.tasks, caller.userId));
      FilterMembers(db.projects, HoldsTaskOf(db.tasks, caller.userId));
      ReverseMembers(visible);
      assert forall p :: HoldsTaskOf(db.tasks, caller.userId)(p) <==>
               exists t :: t in db.tasks && t.projectId == p.id && t.assigneeId == Some(caller.userId) by {
        forall p ensures HoldsTaskOf(db.tasks, caller.userId)(p) <==>
                  exists t :: t in db.tasks && t.projectId == p.id && t.assigneeId == Some(caller.userId) {
          CountPositive(db.tasks, AssignedInProject(p.id, caller.userId));
        }
      }
      Reverse(visible)
  }

  /**
   * Newest first: read from the end, the listing keeps the order of the project table;
   * for ADMIN and MANAGER it is that whole table reversed.
   */
  lemma GetProjectsOrder(db: Store, caller: Principal)
    ensures IsSubsequence(Reverse(GetProjects(db, caller)), db.projects)
    ensures IsAdminOrManager(caller) ==>
              |GetProjects(db, caller)| == |db.projects|
              && forall i :: 0 <= i < |db.projects| ==> GetProjects(db, caller)[i] == db.projects[|db.projects| - 1 - i]
  {
    if IsAdminOrManager(caller) {
      var all := (p: Project) => true;
      ReverseTwice(db.projects);
      FilterKeepsAll(db.projects, all);
      FilterIsSubsequence(db.projects, all);
    } else {
      var visible := Filter(db.projects, HoldsTaskOf(db.tasks, caller.userId));
      ReverseTwice(visible);
      FilterIsSubsequence(db.projects, HoldsTaskOf(db.tasks, caller.userId));
    }
  }

  /**
   * The two listings agree: a caller who is neither ADMIN nor MANAGER sees exactly the
   * projects of the tasks it sees.
   */
  lemma ProjectsFollowVisibleTasks(db: Store, caller: Principal, p: Project)
    requires !IsAdminOrManager(caller)
    ensures p in GetProjects(db, caller) <==>
              p in db.projects && exists t :: t in TaskController.GetTasks(db, caller) && t.projectId == p.id
  {
    if p in db.projects && exists t :: t in db.tasks && t.projectId == p.id && t.assigneeId == Some(caller.userId) {
      var t :| t in db.tasks && t.projectId == p.id && t.assigneeId == Some(caller.userId);
      assert t in TaskController.GetTasks(db, caller);
    }
  }

  // ---------------------------------------------------------------- updateProject

  /** `validatedData.ownerId && validatedData.ownerId !== currentProject.ownerId`. */
  predicate OwnerChangeRequested(input: ProjectInput, current: Project) {
    input.ownerId.Some? && input.ownerId.value != "" && input.ownerId.value != current.ownerId
  }

  /**
   * The row after the update: the new name, description and status when given, and
   * the new owner only when an owner change was requested.
   */
  function ApplyProjectUpdate(p: Project, input: ProjectInput): Project {
    Project(p.id, input.name,
            if input.description.Some? then input.description else p.description,
            if input.status.Some? then input.status else p.status,
            if OwnerChangeRequested(input, p) then input.ownerId.value else p.ownerId)
  }

  /** An omitted description or status keeps the stored one; an absent or unchanged ownerId never changes the owner. */
  lemma ProjectUpdateKeepsOmitted(p: Project, input: ProjectInput)
    ensures ApplyProjectUpdate(p, input).id == p.id && ApplyProjectUpdate(p, input).name == input.name
    ensures input.description.None? ==> ApplyProjectUpdate(p, input).description == p.description
    ensures input.status.None? ==> ApplyProjectUpdate(p, input).status == p.status
    ensures input.ownerId.None? || input.ownerId == Some(p.ownerId) ==> ApplyProjectUpdate(p, input).ownerId == p.ownerId
  {
  }

  /**
   * `PUT /api/projects/:id`: 400 for a rejected body, then 404 for an unknown id, then
   * 403 when a different owner is requested by a caller who is not ADMIN; otherwise that
   * project is rewritten and a PROJECT_UPDATED entry logged.
   */
  method UpdateProject(db: Store, caller: Principal, id: string, body: ProjectBody, fmt: Formats)
    returns (status: int)
    requires db.Valid()
    modifies db
    ensures db.Valid()
    ensures db.tasks == old(db.tasks) && db.comments == old(db.comments) && db.tags == old(db.tags)
    ensures status == 200 || status == 400 || status == 403 || status == 404
    ensures status == 400 <==> ParseProjectBody(body, fmt).Reject?
    ensures status == 404 <==> ParseProjectBody(body, fmt).Accept? && IndexOf(old(db.projects), ProjectKey, id).None?
    ensures status == 403 <==>
              && ParseProjectBody(body, fmt).Accept? && IndexOf(old(db.projects), ProjectKey, id).Some?
              && OwnerChangeRequested(ParseProjectBody(body, fmt).value,
                                      old(db.projects)[IndexOf(old(db.projects), ProjectKey, id).value])
              && "ADMIN" !in RolesOrEmpty(caller)
    ensures status == 200 ==>
              var k := IndexOf(old(db.projects), ProjectKey, id).value;
              && db.projects == old(db.projects)[k := ApplyProjectUpdate(old(db.projects)[k], ParseProjectBody(body, fmt).value)]
              && db.log == old(db.log) + [Activity(caller.userId, "PROJECT_UPDATED")]
    ensures status != 200 ==> db.projects == old(db.projects) && db.log == old(db.log)
  {
    var parsed := ParseProjectBody(body, fmt);
    if parsed.Reject? {
      return 400;
    }
    var input := parsed.value;
    var isAdmin := "ADMIN" in RolesOrEmpty(caller);
    var found := IndexOf(db.projects, ProjectKey, id);
    if found.None? {
      return 404;
    }
    var k := found.value;
    var current := db.projects[k];
    if OwnerChangeRequested(input, current) && !isAdmin {
      return 403;
    }
    var updated := ApplyProjectUpdate(current, input);
    UpdateKeepsDistinct(db.projects, k, updated, ProjectKey);
    ghost var before := db.projects;
    db.projects := db.projects[k := updated];
    forall i | 0 <= i < |db.tasks| ensures HasProject(db.projects, db.tasks[i].projectId) {
      var pid := db.tasks[i].projectId;
      IndexOfFound(before, ProjectKey, pid);
      var x :| x in before && x.id == pid;
      var j :| 0 <= j < |before| && before[j] == x;
      assert db.projects[j].id == pid;
      IndexOfFound(db.projects, ProjectKey, pid);
    }
    db.log := db.log + [Activity(caller.userId, "PROJECT_UPDATED")];
    status := 200;
  }

  // ---------------------------------------------------------------- deleteProject

  /** The tasks that survive deleting project `id`. */
  function NotInProject(id: string): Task -> bool {
    (t: Task) => t.projectId != id
  }

  /**
   * `DELETE /api/projects/:id`: 404 for an unknown id; otherwise the project and every
   * task of it go together, the tasks of other projects stay as they were, and a
   * PROJECT_DELETED entry is logged.
   */
  method DeleteProject(db: Store, caller: Principal, id: string) returns (status: int)
    requires db.Valid()
    modifies db
    ensures db.Valid()
    ensures db.comments == old(db.comments) && db.tags == old(db.tags)
    ensures status == 204 || status == 404
    ensures status == 404 <==> IndexOf(old(db.projects), ProjectKey, id).None?
    ensures status == 204 ==>
              && db.projects == Filter(old(db.projects), KeyIsNot(ProjectKey, id))
              && |db.projects| == |old(db.projects)| - 1
              && db.tasks == Filter(old(db.tasks), NotInProject(id))
              && (forall t :: t in db.tasks <==> t in old(db.tasks) && t.projectId != id)
              && db.log == old(db.log) + [Activity(caller.userId, "PROJECT_DELETED")]
    ensures status == 404 ==> db.projects == old(db.projects) && db.tasks == old(db.tasks) && db.log == old(db.log)
  {
    var found := IndexOf(db.projects, ProjectKey, id);
    if found.None? {
      return 404;
    }
    var k := found.value;
    ghost var oldTasks := db.tasks;
    ghost var oldProjects := db.projects;
    var tags := db.tags;
    // deleteMany of the project's tasks, then delete of the project, as one transaction
    var remaining := Filter(db.tasks, NotInProject(id));
    FilterMembers(db.tasks, NotInProject(id));
    FilterKeepsDistinct(db.tasks, NotInProject(id), TaskKey);
    FilterInherits(db.tasks, NotInProject(id), (t: Task) => AllTagsExist(tags, t.tagIds));
    FilterRemovesKey(db.projects, ProjectKey, id, k);
    FilterKeepsDistinct(db.projects, KeyIsNot(ProjectKey, id), ProjectKey);
    FilterMembers(db.projects, KeyIsNot(ProjectKey, id));
    db.tasks := remaining;
    db.projects := db.projects[..k] + db.projects[k + 1..];
    forall i | 0 <= i < |db.tasks| ensures HasProject(db.projects, db.tasks[i].projectId) {
      var t := db.tasks[i];
      assert t in remaining;
      var j :| 0 <= j < |oldTasks| && oldTasks[j] == t;
      assert HasProject(oldProjects, t.projectId);
      IndexOfFound(oldProjects, ProjectKey, t.projectId);
      var x :| x in oldProjects && x.id == t.projectId;
      assert x in db.projects;
      IndexOfFound(db.projects, ProjectKey, t.projectId);
    }
    db.log := db.log + [Activity(caller.userId, "PROJECT_DELETED")];
    status := 204;
  }

  // ---------------------------------------------------------------- getProjectById

  /** A project with its tasks, newest first. */
  datatype ProjectDetail = ProjectDetail(project: Project, tasks: seq<Task>)

  function InProject(id: string): Task -> bool {
    (t: Task) => t.projectId == id
  }

  /**
   * `GET /api/projects/:id`: 400 for an empty id, 404 for an unknown one; a caller
   * without a role list makes `roles.includes` throw (500); a caller who is neither
   * ADMIN nor MANAGER and has no task in the project gets 404 as well.
   */
  function GetProjectById(db: Store, caller: Principal, id: string): (r: Reply<ProjectDetail>)
    reads db
    ensures r.Ok? ==> r.status == 200 && r.body.project in db.projects && r.body.project.id == id
    ensures r.Ok? ==> forall t :: t in r.body.tasks <==> t in db.tasks && t.projectId == id
    ensures r.Err? ==> r.status == 400 || r.status == 404 || r.status == 500
    ensures id == "" ==> r == Err(400)
    ensures id != "" && (forall p :: p in db.projects ==> p.id != id) ==> r == Err(404)
    ensures id != "" && (exists p :: p in db.projects && p.id == id) && caller.roles.None? ==> r == Err(500)
  {
    if id == "" then Err(400)
    else
      IndexOfFound(db.projects, ProjectKey, id);
      match IndexOf(db.projects, ProjectKey, id)
      case None => Err(404)
      case Some(k) =>
        if caller.roles.None? then Err(500)
        else if !IsAdminOrManager(caller) && Count(db.tasks, AssignedInProject(id, caller.userId)) == 0 then Err(404)
        else
          var tasks := Filter(db.tasks, InProject(id));
          FilterMembers(db.tasks, InProject(id));
          ReverseMembers(tasks);
          Ok(200, ProjectDetail(db.projects[k], Reverse(tasks)))
  }

  /**
   * The project's tasks come newest first: read from the end, they keep the order in
   * which the task table holds them.
   */
  lemma GetProjectByIdOrder(db: Store, caller: Principal, id: string)
    ensures var r := GetProjectById(db, caller, id);
            r.Ok? ==> IsSubsequence(Reverse(r.body.tasks), db.tasks)
  {
    var r := GetProjectById(db, caller, id);
    if r.Ok? {
      var tasks := Filter(db.tasks, InProject(id));
      ReverseTwice(tasks);
      FilterIsSubsequence(db.tasks, InProject(id));
    }
  }

  /**
   * Not-found masking: a caller who is neither ADMIN nor MANAGER and has no task in an
   * existing project gets the very answer given for an id that does not exist.
   */
  lemma DetailMasking(db: Store, caller: Principal, id: string, unknown: string)
    requires id != "" && unknown != "" && caller.roles.Some?
    requires IndexOf(db.projects, ProjectKey, unknown).None?
    requires !IsAdminOrManager(caller)
    requires forall t :: t in db.tasks ==> !(t.projectId == id && t.assigneeId == Some(caller.userId))
    ensures GetProjectById(db, caller, id) == GetProjectById(db, caller, unknown) == Err(404)
  {
    CountPositive(db.tasks, AssignedInProject(id, caller.userId));
  }

  /** For a caller with a role list, the detail view opens exactly the projects the listing shows. */
  lemma DetailAgreesWithListing(db: Store, caller: Principal, id: string)
    requires id != "" && caller.roles.Some?
    ensures GetProjectById(db, caller, id).Ok? <==> exists p :: p in GetProjects(db, caller) && p.id == id
  {
    IndexOfFound(db.projects, ProjectKey, id);
    CountPositive(db.tasks, AssignedInProject(id, caller.userId));
    if exists p :: p in GetProjects(db, caller) && p.id == id {
      var p :| p in GetProjects(db, caller) && p.id == id;
      assert p in db.projects;
    }
  }
}
