/**
 * The rows the API stores (tasks, projects, comments, tags and activity-log entries)
 * and the store holding them. Each table is a sequence kept in creation order, so
 * "newest first" is that sequence reversed.
 */
module Database {
  import opened Wrappers
  import opened Seqs
  import opened Domain

  /** A task row; `tagIds` are the tags linked to it. */
  datatype Task = Task(
    id: string,
    title: string,
    description: Option<string>,
    status: Status,
    priority: Priority,
    projectId: string,
    assigneeId: Option<string>,
    dueDate: Option<string>,
    tagIds: seq<string>)

  /** A project row; `status` is `None` while the column holds its database default. */
  datatype Project = Project(
    id: string,
    name: string,
    description: Option<string>,
    status: Option<ProjectStatus>,
    ownerId: string)

  datatype Comment = Comment(id: string, content: string, taskId: string, authorId: string)

  datatype Tag = Tag(id: string, name: string, color: Option<string>)

  function TaskKey(t: Task): string { t.id }
  function ProjectKey(p: Project): string { p.id }
  function CommentKey(c: Comment): string { c.id }
  function TagKey(t: Tag): string { t.id }

  /** Some stored project has this id. */
  predicate HasProject(projects: seq<Project>, id: string) {
    IndexOf(projects, ProjectKey, id).Some?
  }

  /** Some stored task has this id. */
  predicate HasTask(tasks: seq<Task>, id: string) {
    IndexOf(tasks, TaskKey, id).Some?
  }

  /** Some stored tag has this id. */
  predicate HasTag(tags: seq<Tag>, id: string) {
    IndexOf(tags, TagKey, id).Some?
  }

  /** Every id in `ids` names a stored tag. */
  predicate AllTagsExist(tags: seq<Tag>, ids: seq<string>) {
    forall j :: 0 <= j < |ids| ==> HasTag(tags, ids[j])
  }

  /** The database: one table per entity and the activity log, each in creation order. */
  class Store {
    var tasks: seq<Task>
    var projects: seq<Project>
    var comments: seq<Comment>
    var tags: seq<Tag>
    var log: seq<Activity>

    /**
     * Primary keys are unique in every table, and every task belongs to a stored project
     * and links only stored tags (the foreign keys the handlers depend on).
     */
    ghost predicate Valid()
      reads this
    {
      && DistinctKeys(tasks, TaskKey)
      && DistinctKeys(projects, ProjectKey)
      && DistinctKeys(comments, CommentKey)
      && DistinctKeys(tags, TagKey)
      && (forall i :: 0 <= i < |tasks| ==> HasProject(projects, tasks[i].projectId))
      && (forall i :: 0 <= i < |tasks| ==> AllTagsExist(tags, tasks[i].tagIds))
    }

    constructor()
      ensures Valid()
      ensures tasks == [] && projects == [] && comments == [] && tags == [] && log == []
    {
      tasks := [];
      projects := [];
      comments := [];
      tags := [];
      log := [];
    }
  }
}
