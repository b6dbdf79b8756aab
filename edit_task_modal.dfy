/**
 * The "Edit Task" dialog: the form filled from the task, and the submit handler, which
 * sends the whole form back with `PUT /tasks/:id`, empty fields becoming `null`.
 */
module EditTaskModal {
  import opened Wrappers
  import opened Strings
  import opened Domain
  import opened ClientTypes

  const UpdateFailedText := "Failed to update task"

  /** The dialog's fields: plain texts, where "" stands for "no value". */
  datatype EditForm = EditForm(
    title: string,
    description: string,
    status: Status,
    priority: Priority,
    dueDate: string,
    assigneeId: string)

  /** The body of `PUT /tasks/:id`. */
  datatype UpdatePayload = UpdatePayload(
    title: string,
    description: string,
    status: Status,
    priority: Priority,
    dueDate: Option<string>,
    projectId: string,
    assigneeId: Option<string>)

  /** `x || ""` on an optional text. */
  function TextOf(x: Option<string>): string {
    if x.Some? then x.value else ""
  }

  /** `x || null` on a form text. */
  function NullIfEmpty(s: string): (r: Option<string>)
    ensures r.None? <==> s == ""
    ensures r.Some? ==> r.value == s
  {
    if s == "" then None else Some(s)
  }

  /**
   * The form as opened: the task's title, status and priority; its description and
   * assignee or ""; the part of its due date before the first `T`, or "".
   */
  function InitialForm(t: ClientTask): (r: EditForm)
    ensures r.title == t.title && r.status == t.status && r.priority == t.priority
    ensures r.description == TextOf(t.description) && r.assigneeId == TextOf(t.assigneeId)
    ensures r.dueDate == if t.dueDate.Some? && t.dueDate.value != "" then Split(t.dueDate.value, 'T')[0] else ""
  {
    EditForm(
      t.title, TextOf(t.description), t.status, t.priority,
      if t.dueDate.Some? && t.dueDate.value != "" then Split(t.dueDate.value, 'T')[0] else "",
      TextOf(t.assigneeId))
  }

  /**
   * What is sent: every field of the form, the due date turned back into a timestamp by
   * `toIso` (the browser's `new Date(d).toISOString()`), and the task's own project;
   * an empty due date or assignee is sent as `null`.
   */
  function SubmitPayload(t: ClientTask, f: EditForm, toIso: string -> string): (r: UpdatePayload)
    ensures r.title == f.title && r.description == f.description
    ensures r.status == f.status && r.priority == f.priority
    ensures r.projectId == t.projectId
    ensures r.dueDate.None? <==> f.dueDate == ""
    ensures r.dueDate.Some? ==> r.dueDate.value == toIso(f.dueDate)
    ensures r.assigneeId == NullIfEmpty(f.assigneeId)
  {
    UpdatePayload(
      f.title, f.description, f.status, f.priority,
      if f.dueDate == "" then None else Some(toIso(f.dueDate)),
      t.projectId,
      NullIfEmpty(f.assigneeId))
  }

  /** The assignee survives opening and saving unchanged, except a "" id, which comes back as `null`. */
  lemma AssigneeRoundTrip(t: ClientTask, toIso: string -> string)
    ensures t.assigneeId != Some("") ==> SubmitPayload(t, InitialForm(t), toIso).assigneeId == t.assigneeId
    ensures t.assigneeId == Some("") ==> SubmitPayload(t, InitialForm(t), toIso).assigneeId.None?
  {
  }

  /**
   * Saving without editing sends the task's own title, status, priority and project, but a
   * missing description comes back as "".
   */
  lemma UntouchedSave(t: ClientTask, toIso: string -> string)
    ensures var p := SubmitPayload(t, InitialForm(t), toIso);
      && p.title == t.title && p.status == t.status && p.priority == t.priority
      && p.projectId == t.projectId
      && (t.description.None? ==> p.description == "")
      && (t.description.Some? ==> p.description == t.description.value)
  {
  }

  /**
   * A stored due date `dayTtime` is edited as `day` and saved as `toIso(day)`: the time of
   * day is dropped, and a task without a due date keeps none.
   */
  lemma DueDateRoundTrip(t: ClientTask, day: string, time: string, toIso: string -> string)
    requires 'T' !in day
    ensures t.dueDate == Some(day + "T" + time) ==>
              SubmitPayload(t, InitialForm(t), toIso).dueDate == if day == "" then None else Some(toIso(day))
    ensures t.dueDate.None? ==> SubmitPayload(t, InitialForm(t), toIso).dueDate.None?
  {
    if t.dueDate == Some(day + "T" + time) {
      SplitAtFirst(day, time, 'T');
      assert day + "T" + time == day + ['T'] + time;
    }
  }

  /** The dialog's state: the form, the busy flag and the banner value (falsy hides it). */
  class EditTaskDialog {
    const task: ClientTask
    var form: EditForm
    var loading: bool
    var error: Field

    /** Opening the dialog on a task fills the form from it. */
    constructor (t: ClientTask)
      ensures task == t && form == InitialForm(t)
      ensures !loading && error == Str("")
    {
      task := t;
      form := InitialForm(t);
      loading := false;
      error := Str("");
    }

    /**
     * `handleSubmit`: sends the payload built from the form; on success the dialog closes
     * and the list is refreshed, on failure the banner shows the server's `error` value or,
     * when that is falsy, a fixed text. The form is left as it was.
     */
    method HandleSubmit(toIso: string -> string, failure: Option<Field>) returns (sent: UpdatePayload, closed: bool)
      modifies this
      ensures sent == SubmitPayload(task, old(form), toIso)
      ensures form == old(form)
      ensures closed <==> failure.None?
      ensures error == if failure.None? then Str("") else OrElse(failure.value, UpdateFailedText)
      ensures failure.Some? ==> Truthy(error)
      ensures !loading
    {
      loading := true;
      error := Str("");
      sent := SubmitPayload(task, form, toIso);
      if failure.None? {
        closed := true;
      } else {
        closed := false;
        error := OrElse(failure.value, UpdateFailedText);
      }
      loading := false;
    }
  }
}
