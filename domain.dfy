/**
 * The records and enumerations shared by the API and the client: task status and
 * priority with their wire names, project status, JSON request values, the two
 * zod string formats the schemas use, and activity-log entries.
 */
module Domain {
  import opened Wrappers

  datatype Status = Todo | InProgress | Done

  function StatusName(s: Status): string {
    match s
    case Todo => "TODO"
    case InProgress => "IN_PROGRESS"
    case Done => "DONE"
  }

  /** `z.enum(["TODO", "IN_PROGRESS", "DONE"])`: exactly the three wire names are accepted. */
  function ParseStatus(s: string): (r: Option<Status>)
    ensures forall st :: r == Some(st) <==> StatusName(st) == s
  {
    if s == "TODO" then Some(Todo)
    else if s == "IN_PROGRESS" then Some(InProgress)
    else if s == "DONE" then Some(Done)
    else None
  }

  datatype Priority = Low | Medium | High

  function PriorityName(p: Priority): string {
    match p
    case Low => "LOW"
    case Medium => "MEDIUM"
    case High => "HIGH"
  }

  /** `z.enum(["LOW", "MEDIUM", "HIGH"])`. */
  function ParsePriority(s: string): (r: Option<Priority>)
    ensures forall p :: r == Some(p) <==> PriorityName(p) == s
  {
    if s == "LOW" then Some(Low)
    else if s == "MEDIUM" then Some(Medium)
    else if s == "HIGH" then Some(High)
    else None
  }

  /** The three project states of the shared types; the API schema accepts only the first two. */
  datatype ProjectStatus = Active | Archived | Completed

  function ProjectStatusName(s: ProjectStatus): string {
    match s
    case Active => "ACTIVE"
    case Archived => "ARCHIVED"
    case Completed => "COMPLETED"
  }

  /** `z.enum(["ACTIVE", "ARCHIVED"])`: COMPLETED cannot be set through the API. */
  function ParseProjectStatus(s: string): (r: Option<ProjectStatus>)
    ensures r.Some? ==> r.value != Completed && ProjectStatusName(r.value) == s
    ensures r.None? ==> s != "ACTIVE" && s != "ARCHIVED"
  {
    if s == "ACTIVE" then Some(Active)
    else if s == "ARCHIVED" then Some(Archived)
    else None
  }

  /**
   * One value of a decoded JSON body or query string: a key that is not there, `null`,
   * a string, or any other JSON value (number, boolean, array, object), of which only
   * its JavaScript truthiness matters to the handlers.
   */
  datatype Field = Absent | Null | Str(s: string) | NonString(truthy: bool)

  /** JavaScript truthiness of a field: `undefined`, `null` and `""` are falsy. */
  predicate Truthy(f: Field) {
    match f
    case Absent => false
    case Null => false
    case Str(s) => s != ""
    case NonString(t) => t
  }

  /** The zod string formats whose exact grammar belongs to the library: `uuid()` and `datetime()`. */
  datatype Formats = Formats(isUuid: string -> bool, isDatetime: string -> bool)

  /** One row of the activity log, as `recordActivity(userId, action)` writes it. */
  datatype Activity = Activity(userId: string, action: string)

  /** A handler's answer: a success status with its body, or an error status. */
  datatype Reply<T> = Ok(status: int, body: T) | Err(status: int)

  /** The outcome of a zod `parse`: the validated value, or a `ZodError`. */
  datatype Parsed<T> = Accept(value: T) | Reject

  /** Any string at all (`z.string()` without refinements). */
  predicate AnyString(s: string) { true }

  /** `z.string().min(1)`. */
  predicate NonEmpty(s: string) { s != "" }

  /** `z.string()` refined by `ok`, with `.optional()`: an absent key is `None`. */
  function OptionalString(f: Field, ok: string -> bool): (r: Parsed<Option<string>>)
    ensures r == Accept(None) <==> f.Absent?
    ensures r.Accept? && r.value.Some? <==> f.Str? && ok(f.s)
    ensures r.Accept? && r.value.Some? ==> r.value.value == f.s
  {
    match f
    case Absent => Accept(None)
    case Str(s) => if ok(s) then Accept(Some(s)) else Reject
    case _ => Reject
  }

  /** `.optional().nullable()`: an absent key is `None`, an explicit `null` is `Some(None)`. */
  function NullableString(f: Field, ok: string -> bool): (r: Parsed<Option<Option<string>>>)
    ensures r == Accept(None) <==> f.Absent?
    ensures r == Accept(Some(None)) <==> f.Null?
    ensures r.Accept? && r.value.Some? && r.value.value.Some? <==> f.Str? && ok(f.s)
    ensures r.Accept? && r.value.Some? && r.value.value.Some? ==> r.value.value.value == f.s
  {
    match f
    case Absent => Accept(None)
    case Null => Accept(Some(None))
    case Str(s) => if ok(s) then Accept(Some(Some(s))) else Reject
    case _ => Reject
  }

  /** A required `z.string()` refined by `ok`. */
  function RequiredString(f: Field, ok: string -> bool): (r: Parsed<string>)
    ensures r.Accept? <==> f.Str? && ok(f.s)
    ensures r.Accept? ==> r.value == f.s
  {
    if f.Str? && ok(f.s) then Accept(f.s) else Reject
  }

  /** An optional `z.enum(...)` whose names `parse` recognises. */
  function OptionalEnum<T>(f: Field, parse: string -> Option<T>): (r: Parsed<Option<T>>)
    ensures r == Accept(None) <==> f.Absent?
    ensures r.Accept? && r.value.Some? <==> f.Str? && parse(f.s).Some?
    ensures r.Accept? && r.value.Some? ==> Some(r.value.value) == parse(f.s)
  {
    match f
    case Absent => Accept(None)
    case Str(s) => if parse(s).Some? then Accept(parse(s)) else Reject
    case _ => Reject
  }
}
