/**
 * The records the web client works with, as the API sends them: a task with its
 * project's name and its assignee's names attached, and the signed-in user kept by
 * the browser, whose role list is a list of role names.
 */
module ClientTypes {
  import opened Wrappers
  import opened Domain

  datatype Person = Person(firstName: string, lastName: string, email: string)

  /** A task as listed: `project` is the project's name, `assignee` the assigned user. */
  datatype ClientTask = ClientTask(
    id: string,
    title: string,
    description: Option<string>,
    projectId: string,
    assigneeId: Option<string>,
    status: Status,
    priority: Priority,
    dueDate: Option<string>,
    createdAt: string,
    project: Option<string>,
    assignee: Option<Person>)

  function ClientTaskKey(t: ClientTask): string { t.id }

  /** A user as listed on the team page. */
  datatype ClientUser = ClientUser(id: string, firstName: string, lastName: string, email: string, roles: seq<string>)

  /**
   * `value || fallback` on a value read out of an error response: the value itself
   * when it is truthy, the fixed text otherwise.
   */
  function OrElse(value: Field, fallback: string): (r: Field)
    ensures Truthy(value) ==> r == value
    ensures !Truthy(value) ==> r == Str(fallback)
  {
    if Truthy(value) then value else Str(fallback)
  }
}
