/**
 * The task handlers: listing scoped to the caller, creation with its defaults, update
 * with the ADMIN/MANAGER-or-assignee rule and its activity entries, and deletion.
 */
module TaskController {
  import opened Wrappers
  import opened Seqs
  import opened Domain
  import opened Auth
  import opened Database

  /** `tags` in a request body: absent, an array of strings, or anything else. */
  datatype TagList = NoTags | TagIds(ids: seq<string>) | BadTags

  datatype TaskBody = TaskBody(
    title: Field,
    description: Field,
    status: Field,
    priority: Field,
    projectId: Field,
    assigneeId: Field,
    dueDate: Field,
    tags: TagList)

  /**
   * A body that passed `taskSchema`: `None` for an absent key and, for the two nullable
   * keys, `Some(None)` for an explicit `null`.
   */
  datatype TaskInput = TaskInput(
    title: Option<string>,
    description: Option<string>,
    status: Option<Status>,
    priority: Option<Priority>,
    projectId: Option<string>,
    assigneeId: Option<Option<string>>,
    dueDate: Option<Option<string>>,
    tags: Option<seq<string>>)

  /**
   * `taskSchema.parse(body)`: every key is optional; a present title is a non-empty
   * string, status and priority are enum names, assigneeId a uuid or null, dueDate a
   * datetime or null, tags an array of strings.
   */
  function ParseTaskBody(b: TaskBody, fmt: Formats): (r: Parsed<TaskInput>)
    ensures r.Accept? ==> r.value.title.Some? ==> r.value.title.value != ""
    ensures r.Accept? && Truthy(b.title) ==> r.value.title.Some?
    ensures r.Accept? && Truthy(b.projectId) ==> r.value.projectId.Some?
    ensures b.title.Null? || b.status.Null? || b.priority.Null? || b.description.Null? ==> r.Reject?
    ensures r.Accept? <==>
              && (b.title.Absent? || (b.title.Str? && b.title.s != ""))
              && (b.description.Absent? || b.description.Str?)
              && (b.status.Absent? || (b.status.Str? && ParseStatus(b.status.s).Some?))
              && (b.priority.Absent? || (b.priority.Str? && ParsePriority(b.priority.s).Some?))
              && (b.projectId.Absent? || b.projectId.Str?)
              && (b.assigneeId.Absent? || b.assigneeId.Null? || (b.assigneeId.Str? && fmt.isUuid(b.assigneeId.s)))
              && (b.dueDate.Absent? || b.dueDate.Null? || (b.dueDate.Str? && fmt.isDatetime(b.dueDate.s)))
              && !b.tags.BadTags?
    ensures r.Accept? ==> r.value.title == (if b.title.Str? then Some(b.title.s) else None)
    ensures r.Accept? ==> r.value.description == (if b.description.Str? then Some(b.description.s) else None)
    ensures r.Accept? ==> r.value.status == (if b.status.Str? then ParseStatus(b.status.s) else None)
    ensures r.Accept? ==> r.value.priority == (if b.priority.Str? then ParsePriority(b.priority.s) else None)
    ensures r.Accept? ==> r.value.projectId == (if b.projectId.Str? then Some(b.projectId.s) else None)
    ensures r.Accept? ==>
              r.value.assigneeId == (if b.assigneeId.Str? then Some(Some(b.assigneeId.s)) else if b.assigneeId.Null? then Some(None) else None)
    ensures r.Accept? ==>
              r.value.dueDate == (if b.dueDate.Str? then Some(Some(b.dueDate.s)) else if b.dueDate.Null? then Some(None) else None)
    ensures r.Accept? ==> r.value.tags == (if b.tags.TagIds? then Some(b.tags.ids) else None)
  {
    var title := OptionalString(b.title, NonEmpty);
    var description := OptionalString(b.description, AnyString);
    var status := OptionalEnum(b.status, ParseStatus);
    var priority := OptionalEnum(b.priority, ParsePriority);
    var projectId := OptionalString(b.projectId, AnyString);
    var assigneeId := NullableString(b.assigneeId, fmt.isUuid);
    var dueDate := NullableString(b.dueDate, fmt.isDatetime);
    var tags: Parsed<Option<seq<string>>> :=
      match b.tags
      case NoTags => Accept(None)
      case TagIds(ids) => Accept(Some(ids))
      case BadTags => Reject;
    if title.Accept? && description.Accept? && status.Accept? && priority.Accept?
       && projectId.Accept? && assigneeId.Accept? && dueDate.Accept? && tags.Accept?
    then
      Accept(TaskInput(title.value, description.value, status.value, priority.value,
                       projectId.value, assigneeId.value, dueDate.value, tags.value))
    else Reject
  }

  /** A nullable date as a truthiness test reads it: the string when present and non-empty. */
  function TruthyDate(d: Option<Option<string>>): Option<string> {
    if d.Some? && d.value.Some? && d.value.value != "" then d.value else None
  }

  /** An optional nullable value as a column receives it on create: absent and null both store null. */
  function StoredOrNull(v: Option<Option<string>>): Option<string> {
    if v.Some? then v.value else None
  }

  // ---------------------------------------------------------------- getTasks

  /** The listing filter for a caller that is neither ADMIN nor MANAGER. */
  function AssignedTo(userId: string): Task -> bool {
    (t: Task) => t.assigneeId == Some(userId)
  }

  /**
   * `GET /api/tasks`: ADMIN and MANAGER see every task, anyone else exactly the tasks
   * assigned to them; newest first.
   */
  function GetTasks(db: Store, caller: Principal): (r: seq<Task>)
    reads db
    ensures forall t :: t in r <==>
              t in db.tasks && (IsAdminOrManager(caller) || t.assigneeId == Some(caller.userId))
    ensures IsAdminOrManager(caller) ==> |r| == |db.tasks|
  {
    if IsAdminOrManager(caller) then
      ReverseMembers(db.tasks);
      Reverse(db.tasks)
    else
      var mine := Filter(db.tasks, AssignedTo(caller.userId));
      FilterMembers(db.tasks, AssignedTo(caller.userId));
      ReverseMembers(mine);
      Reverse(mine)
  }

  /** The listing is the stored table, or its caller-assigned part, read from newest to oldest. */
  lemma GetTasksOrder(db: Store, caller: Principal)
    ensures IsAdminOrManager(caller) ==> forall i :: 0 <= i < |db.tasks| ==>
              GetTasks(db, caller)[i] == db.tasks[|db.tasks| - 1 - i]
    ensures !IsAdminOrManager(caller) ==>
              GetTasks(db, caller) == Reverse(Filter(db.tasks, AssignedTo(caller.userId)))
  {
  }

  // ---------------------------------------------------------------- createTask

  /** `!body.title || !body.projectId` is false and the schema accepts the body. */
  predicate CreateTaskBodyOk(b: TaskBody, fmt: Formats) {
    Truthy(b.title) && Truthy(b.projectId) && ParseTaskBody(b, fmt).Accept?
  }

  /**
   * The row `createTask` inserts: status TODO, priority MEDIUM and a null due date
   * unless given; the body's tags are not linked.
   */
  function NewTask(id: string, input: TaskInput): Task
    requires input.title.Some? && input.projectId.Some?
  {
    Task(id, input.title.value, input.description,
         input.status.GetOr(Todo), input.priority.GetOr(Medium), input.projectId.value,
         StoredOrNull(input.assigneeId), TruthyDate(input.dueDate), [])
  }

  lemma CreateTaskDefaults(id: string, input: TaskInput)
    requires input.title.Some? && input.projectId.Some?
    ensures NewTask(id, input).id == id && NewTask(id, input).title == input.title.value
    ensures NewTask(id, input).status == (if input.status.Some? then input.status.value else Todo)
    ensures NewTask(id, input).priority == (if input.priority.Some? then input.priority.value else Medium)
    ensures input.dueDate.None? || input.dueDate == Some(None) ==> NewTask(id, input).dueDate == None
    ensures input.assigneeId.None? || input.assigneeId == Some(None) ==> NewTask(id, input).assigneeId == None
    ensures NewTask(id, input).tagIds == []
  {
  }

  /**
   * `POST /api/tasks`: 400 when title or projectId is missing or falsy, or the schema
   * rejects the body; 500 when the project does not exist (the insert's foreign key
   * fails); otherwise the new task is appended and a TASK_CREATED entry logged.
   */
  method CreateTask(db: Store, caller: Principal, body: TaskBody, fmt: Formats, newId: string)
    returns (status: int)
    requires db.Valid()
    requires forall i :: 0 <= i < |db.tasks| ==> db.tasks[i].id != newId
    modifies db
    ensures db.Valid()
    ensures db.projects == old(db.projects) && db.comments == old(db.comments) && db.tags == old(db.tags)
    ensures status == 201 || status == 400 || status == 500
    ensures status == 400 <==> !CreateTaskBodyOk(body, fmt)
    ensures status == 500 <==>
              CreateTaskBodyOk(body, fmt) && !HasProject(db.projects, ParseTaskBody(body, fmt).value.projectId.value)
    ensures status == 201 ==>
              && db.tasks == old(db.tasks) + [NewTask(newId, ParseTaskBody(body, fmt).value)]
              && db.log == old(db.log) + [Activity(caller.userId, "TASK_CREATED")]
    ensures status != 201 ==> db.tasks == old(db.tasks) && db.log == old(db.log)
  {
    if !Truthy(body.title) || !Truthy(body.projectId) {
      return 400;
    }
    var parsed := ParseTaskBody(body, fmt);
    if parsed.Reject? {
      return 400;
    }
    var input := parsed.value;
    if !HasProject(db.projects, input.projectId.value) {
      return 500;
    }
    var task := NewTask(newId, input);
    AppendKeepsDistinct(db.tasks, task, TaskKey);
    db.tasks := db.tasks + [task];
    db.log := db.log + [Activity(caller.userId, "TASK_CREATED")];
    status := 201;
  }

  // ---------------------------------------------------------------- updateTask

  /** `isAdminOrManager || isAssignee`, against the task as stored before the update. */
  predicate CanUpdateTask(caller: Principal, current: Task) {
    IsAdminOrManager(caller) || current.assigneeId == Some(caller.userId)
  }

  /**
   * The row after `prisma.task.update`: an absent key leaves its column, a null assignee
   * clears it, a falsy due date leaves it, and a tag list replaces the links.
   */
  function ApplyTaskUpdate(t: Task, input: TaskInput): Task {
    Task(t.id,
         input.title.GetOr(t.title),
         if input.description.Some? then input.description else t.description,
         input.status.GetOr(t.status),
         input.priority.GetOr(t.priority),
         input.projectId.GetOr(t.projectId),
         if input.assigneeId.Some? then input.assigneeId.value else t.assigneeId,
         if TruthyDate(input.dueDate).Some? then TruthyDate(input.dueDate) else t.dueDate,
         input.tags.GetOr(t.tagIds))
  }

  const NoChanges := TaskInput(None, None, None, None, None, None, None, None)

  /** Only supplied fields change; null due dates are ignored but a null assignee clears; an empty body changes nothing. */
  lemma UpdateChangesOnlySupplied(t: Task, input: TaskInput)
    ensures ApplyTaskUpdate(t, input).id == t.id
    ensures input.title.None? ==> ApplyTaskUpdate(t, input).title == t.title
    ensures input.status.None? ==> ApplyTaskUpdate(t, input).status == t.status
    ensures input.priority.None? ==> ApplyTaskUpdate(t, input).priority == t.priority
    ensures input.description.None? ==> ApplyTaskUpdate(t, input).description == t.description
    ensures input.projectId.None? ==> ApplyTaskUpdate(t, input).projectId == t.projectId
    ensures input.assigneeId.None? ==> ApplyTaskUpdate(t, input).assigneeId == t.assigneeId
    ensures input.assigneeId == Some(None) ==> ApplyTaskUpdate(t, input).assigneeId == None
    ensures input.dueDate.None? || input.dueDate == Some(None) ==> ApplyTaskUpdate(t, input).dueDate == t.dueDate
    ensures input.tags.None? ==> ApplyTaskUpdate(t, input).tagIds == t.tagIds
    ensures ApplyTaskUpdate(t, NoChanges) == t
  {
  }

  function StatusEntry(userId: string, s: Status): Activity {
    Activity(userId, "Changed status to " + StatusName(s))
  }

  function PriorityEntry(userId: string, p: Priority): Activity {
    Activity(userId, "Changed priority to " + PriorityName(p))
  }

  function DetailsEntry(userId: string): Activity {
    Activity(userId, "Updated task details")
  }

  /** The entries `updateTask` logs, in order, comparing the body with the task as stored before. */
  function UpdateActivities(userId: string, input: TaskInput, current: Task): seq<Activity> {
    (if input.status.Some? && input.status.value != current.status
     then [StatusEntry(userId, input.status.value)] else [])
    + (if input.priority.Some? && input.priority.value != current.priority
       then [PriorityEntry(userId, input.priority.value)] else [])
    + (if input.status.None? && input.priority.None? then [DetailsEntry(userId)] else [])
  }

  /**
   * A status entry exactly when a status is supplied and differs, a priority entry
   * likewise, and the details entry exactly when neither is supplied; so re-sending the
   * stored status and priority logs nothing.
   */
  lemma UpdateLogRule(userId: string, input: TaskInput, current: Task)
    ensures |UpdateActivities(userId, input, current)| <= 2
    ensures input.status.Some? ==>
              (StatusEntry(userId, input.status.value) in UpdateActivities(userId, input, current)
               <==> input.status.value != current.status)
    ensures input.priority.Some? ==>
              (PriorityEntry(userId, input.priority.value) in UpdateActivities(userId, input, current)
               <==> input.priority.value != current.priority)
    ensures DetailsEntry(userId) in UpdateActivities(userId, input, current)
            <==> input.status.None? && input.priority.None?
    ensures input.status == Some(current.status) && (input.priority.None? || input.priority == Some(current.priority))
            ==> UpdateActivities(userId, input, current) == []
  {
    assert forall s :: StatusEntry(userId, s).action[8] == 's';
    assert forall p :: PriorityEntry(userId, p).action[8] == 'p';
    assert DetailsEntry(userId).action[0] == 'U';
    assert forall s :: StatusEntry(userId, s).action[0] == 'C';
    assert forall p :: PriorityEntry(userId, p).action[0] == 'C';
  }

  /** The project and tags an update points the task at exist (otherwise Prisma's update fails). */
  predicate UpdateTargetsExist(projects: seq<Project>, tags: seq<Tag>, input: TaskInput) {
    && (input.projectId.Some? ==> HasProject(projects, input.projectId.value))
    && (input.tags.Some? ==> AllTagsExist(tags, input.tags.value))
  }

  /**
   * `PUT /api/tasks/:id`: 400 for a body the schema rejects, then 404 for an unknown id,
   * then 403 unless the caller is ADMIN, MANAGER or the stored assignee, then 500 when
   * the new project or a tag does not exist; otherwise that one task is rewritten and
   * the activity entries appended.
   */
  method UpdateTask(db: Store, caller: Principal, id: string, body: TaskBody, fmt: Formats)
    returns (status: int)
    requires db.Valid()
    modifies db
    ensures db.Valid()
    ensures db.projects == old(db.projects) && db.comments == old(db.comments) && db.tags == old(db.tags)
    ensures status == 200 || status == 400 || status == 403 || status == 404 || status == 500
    ensures status == 400 <==> ParseTaskBody(body, fmt).Reject?
    ensures status == 404 <==> ParseTaskBody(body, fmt).Accept? && IndexOf(old(db.tasks), TaskKey, id).None?
    ensures status == 403 <==>
              && ParseTaskBody(body, fmt).Accept? && IndexOf(old(db.tasks), TaskKey, id).Some?
              && !CanUpdateTask(caller, old(db.tasks)[IndexOf(old(db.tasks), TaskKey, id).value])
    ensures status == 500 <==>
              && ParseTaskBody(body, fmt).Accept? && IndexOf(old(db.tasks), TaskKey, id).Some?
              && CanUpdateTask(caller, old(db.tasks)[IndexOf(old(db.tasks), TaskKey, id).value])
              && !UpdateTargetsExist(db.projects, db.tags, ParseTaskBody(body, fmt).value)
    ensures status == 200 ==>
              var k := IndexOf(old(db.tasks), TaskKey, id).value;
              var input := ParseTaskBody(body, fmt).value;
              && db.tasks == old(db.tasks)[k := ApplyTaskUpdate(old(db.tasks)[k], input)]
              && db.log == old(db.log) + UpdateActivities(caller.userId, input, old(db.tasks)[k])
    ensures status != 200 ==> db.tasks == old(db.tasks) && db.log == old(db.log)
  {
    var parsed := ParseTaskBody(body, fmt);
    if parsed.Reject? {
      return 400;
    }
    var input := parsed.value;
    var found := IndexOf(db.tasks, TaskKey, id);
    if found.None? {
      return 404;
    }
    var k := found.value;
    var current := db.tasks[k];
    if !CanUpdateTask(caller, current) {
      return 403;
    }
    if !UpdateTargetsExist(db.projects, db.tags, input) {
      return 500;
    }
    var updated := ApplyTaskUpdate(current, input);
    UpdateKeepsDistinct(db.tasks, k, updated, TaskKey);
    db.tasks := db.tasks[k := updated];
    db.log := db.log + UpdateActivities(caller.userId, input, current);
    status := 200;
  }

  // ---------------------------------------------------------------- deleteTask

  /**
   * `DELETE /api/tasks/:id`: 404 for an unknown id; otherwise exactly that task is
   * removed, every other task kept in order, and a TASK_DELETED entry logged.
   */
  method DeleteTask(db: Store, caller: Principal, id: string) returns (status: int)
    requires db.Valid()
    modifies db
    ensures db.Valid()
    ensures db.projects == old(db.projects) && db.comments == old(db.comments) && db.tags == old(db.tags)
    ensures status == 204 || status == 404
    ensures status == 404 <==> IndexOf(old(db.tasks), TaskKey, id).None?
    ensures status == 204 ==>
              && db.tasks == Filter(old(db.tasks), KeyIsNot(TaskKey, id))
              && |db.tasks| == |old(db.tasks)| - 1
              && db.log == old(db.log) + [Activity(caller.userId, "TASK_DELETED")]
    ensures status == 404 ==> db.tasks == old(db.tasks) && db.log == old(db.log)
  {
    var found := IndexOf(db.tasks, TaskKey, id);
    if found.None? {
      return 404;
    }
    var k := found.value;
    FilterRemovesKey(db.tasks, TaskKey, id, k);
    FilterKeepsDistinct(db.tasks, KeyIsNot(TaskKey, id), TaskKey);
    var projects := db.projects;
    var tags := db.tags;
    FilterInherits(db.tasks, KeyIsNot(TaskKey, id), (t: Task) => HasProject(projects, t.projectId));
    FilterInherits(db.tasks, KeyIsNot(TaskKey, id), (t: Task) => AllTagsExist(tags, t.tagIds));
    db.tasks := db.tasks[..k] + db.tasks[k + 1..];
    db.log := db.log + [Activity(caller.userId, "TASK_DELETED")];
    status := 204;
  }
}
