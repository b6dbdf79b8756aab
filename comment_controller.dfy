/**
 * The comment handlers: listing a task's comments oldest first, creating a comment
 * authored by the caller, and editing or deleting one, which its author and any
 * ADMIN or MANAGER may do.
 */
module CommentController {
  import opened Wrappers
  import opened Seqs
  import opened Strings
  import opened Domain
  import opened Auth
  import opened Database

  datatype CommentBody = CommentBody(content: Field, taskId: Field)

  datatype CommentInput = CommentInput(content: string, taskId: string)

  /** `commentSchema.parse(body)`: non-empty content and a uuid task id, both required. */
  function ParseCommentBody(b: CommentBody, fmt: Formats): (r: Parsed<CommentInput>)
    ensures r.Accept? <==> b.content.Str? && b.content.s != "" && b.taskId.Str? && fmt.isUuid(b.taskId.s)
    ensures r.Accept? ==> r.value == CommentInput(b.content.s, b.taskId.s)
  {
    var content := RequiredString(b.content, NonEmpty);
    var taskId := RequiredString(b.taskId, fmt.isUuid);
    if content.Accept? && taskId.Accept? then Accept(CommentInput(content.value, taskId.value)) else Reject
  }

  function OnTask(taskId: string): Comment -> bool {
    (c: Comment) => c.taskId == taskId
  }

  /**
   * `GET /api/comments?taskId=`: 400 unless the query parameter is a non-empty string;
   * otherwise every comment on that task, oldest first. The caller plays no part: the
   * listing is not scoped.
   */
  function GetCommentsForTask(db: Store, taskId: Field): (r: Reply<seq<Comment>>)
    reads db
    ensures r.Err? <==> !Truthy(taskId) || !taskId.Str?
    ensures r.Err? ==> r.status == 400
    ensures r.Ok? ==> r.status == 200 && forall c :: c in r.body <==> c in db.comments && c.taskId == taskId.s
    ensures r.Ok? ==> IsSubsequence(r.body, db.comments)
  {
    if !Truthy(taskId) || !taskId.Str? then Err(400)
    else
      FilterMembers(db.comments, OnTask(taskId.s));
      FilterIsSubsequence(db.comments, OnTask(taskId.s));
      Ok(200, Filter(db.comments, OnTask(taskId.s)))
  }

  /**
   * `POST /api/comments`: 400 when the schema rejects the body; 500 when the task does
   * not exist (the insert's foreign key fails); otherwise the comment, authored by the
   * caller whatever the body says, is appended and COMMENT_CREATED logged.
   */
  method CreateComment(db: Store, caller: Principal, body: CommentBody, fmt: Formats, newId: string)
    returns (status: int)
    requires db.Valid()
    requires forall i :: 0 <= i < |db.comments| ==> db.comments[i].id != newId
    modifies db
    ensures db.Valid()
    ensures db.tasks == old(db.tasks) && db.projects == old(db.projects) && db.tags == old(db.tags)
    ensures status == 201 || status == 400 || status == 500
    ensures status == 400 <==> ParseCommentBody(body, fmt).Reject?
    ensures status == 500 <==>
              ParseCommentBody(body, fmt).Accept? && !HasTask(db.tasks, ParseCommentBody(body, fmt).value.taskId)
    ensures status == 201 ==>
              var input := ParseCommentBody(body, fmt).value;
              && db.comments == old(db.comments) + [Comment(newId, input.content, input.taskId, caller.userId)]
              && db.log == old(db.log) + [Activity(caller.userId, "COMMENT_CREATED")]
    ensures status != 201 ==> db.comments == old(db.comments) && db.log == old(db.log)
  {
    var parsed := ParseCommentBody(body, fmt);
    if parsed.Reject? {
      return 400;
    }
    var input := parsed.value;
    if !HasTask(db.tasks, input.taskId) {
      return 500;
    }
    var comment := Comment(newId, input.content, input.taskId, caller.userId);
    AppendKeepsDistinct(db.comments, comment, CommentKey);
    db.comments := db.comments + [comment];
    db.log := db.log + [Activity(caller.userId, "COMMENT_CREATED")];
    status := 201;
  }

  /** `!content || typeof content !== "string" || content.trim() === ""` is false. */
  predicate ContentOk(content: Field) {
    Truthy(content) && content.Str? && !IsBlank(content.s)
  }

  /**
   * `trim` removes every Unicode space separator, so content made of ideographic, em or
   * medium mathematical spaces is blank, while one visible character among them is not.
   */
  lemma UnicodeSpacesAreBlank()
    ensures !ContentOk(Str("\U{3000}"))
    ensures !ContentOk(Str("\U{2003}\U{205F}\U{1680}"))
    ensures ContentOk(Str("\U{3000}x\U{3000}"))
  {
    assert !IsTrimmable('x');
    assert "\U{3000}x\U{3000}"[1] == 'x';
  }

  /** `canModify`: ADMIN, MANAGER, or the comment's author. */
  predicate CanModifyComment(caller: Principal, roles: seq<string>, c: Comment) {
    "ADMIN" in roles || "MANAGER" in roles || c.authorId == caller.userId
  }

  /**
   * `PUT /api/comments/:id`: 400 for missing, non-string or blank content before any
   * lookup; 404 for an unknown id; a caller without a role list makes `roles.includes`
   * throw (500); 403 unless ADMIN, MANAGER or the author; otherwise only the content of
   * that comment changes, and COMMENT_UPDATED is logged.
   */
  method UpdateComment(db: Store, caller: Principal, id: string, content: Field) returns (status: int)
    requires db.Valid()
    modifies db
    ensures db.Valid()
    ensures db.tasks == old(db.tasks) && db.projects == old(db.projects) && db.tags == old(db.tags)
    ensures status == 200 || status == 400 || status == 403 || status == 404 || status == 500
    ensures status == 400 <==> !ContentOk(content)
    ensures status == 404 <==> ContentOk(content) && IndexOf(old(db.comments), CommentKey, id).None?
    ensures status == 500 <==>
              ContentOk(content) && IndexOf(old(db.comments), CommentKey, id).Some? && caller.roles.None?
    ensures status == 403 <==>
              && ContentOk(content) && IndexOf(old(db.comments), CommentKey, id).Some? && caller.roles.Some?
              && !CanModifyComment(caller, caller.roles.value, old(db.comments)[IndexOf(old(db.comments), CommentKey, id).value])
    ensures status == 200 ==>
              var k := IndexOf(old(db.comments), CommentKey, id).value;
              && db.comments == old(db.comments)[k := old(db.comments)[k].(content := content.s)]
              && db.log == old(db.log) + [Activity(caller.userId, "COMMENT_UPDATED")]
    ensures status != 200 ==> db.comments == old(db.comments) && db.log == old(db.log)
  {
    if !Truthy(content) || !content.Str? || IsBlank(content.s) {
      return 400;
    }
    var found := IndexOf(db.comments, CommentKey, id);
    if found.None? {
      return 404;
    }
    var k := found.value;
    var comment := db.comments[k];
    if caller.roles.None? {
      return 500;
    }
    if !CanModifyComment(caller, caller.roles.value, comment) {
      return 403;
    }
    var updated := comment.(content := content.s);
    UpdateKeepsDistinct(db.comments, k, updated, CommentKey);
    db.comments := db.comments[k := updated];
    db.log := db.log + [Activity(caller.userId, "COMMENT_UPDATED")];
    status := 200;
  }

  /**
   * `DELETE /api/comments/:id`: 404 for an unknown id; 500 for a caller without a role
   * list; 403 unless ADMIN, MANAGER or the author; otherwise exactly that comment is
   * removed and COMMENT_DELETED logged.
   */
  method DeleteComment(db: Store, caller: Principal, id: string) returns (status: int)
    requires db.Valid()
    modifies db
    ensures db.Valid()
    ensures db.tasks == old(db.tasks) && db.projects == old(db.projects) && db.tags == old(db.tags)
    ensures status == 204 || status == 403 || status == 404 || status == 500
    ensures status == 404 <==> IndexOf(old(db.comments), CommentKey, id).None?
    ensures status == 500 <==> IndexOf(old(db.comments), CommentKey, id).Some? && caller.roles.None?
    ensures status == 403 <==>
              && IndexOf(old(db.comments), CommentKey, id).Some? && caller.roles.Some?
              && !CanModifyComment(caller, caller.roles.value, old(db.comments)[IndexOf(old(db.comments), CommentKey, id).value])
    ensures status == 204 ==>
              && db.comments == Filter(old(db.comments), KeyIsNot(CommentKey, id))
              && |db.comments| == |old(db.comments)| - 1
              && db.log == old(db.log) + [Activity(caller.userId, "COMMENT_DELETED")]
    ensures status != 204 ==> db.comments == old(db.comments) && db.log == old(db.log)
  {
    var found := IndexOf(db.comments, CommentKey, id);
    if found.None? {
      return 404;
    }
    var k := found.value;
    if caller.roles.None? {
      return 500;
    }
    if !CanModifyComment(caller, caller.roles.value, db.comments[k]) {
      return 403;
    }
    FilterRemovesKey(db.comments, CommentKey, id, k);
    FilterKeepsDistinct(db.comments, KeyIsNot(CommentKey, id), CommentKey);
    db.comments := db.comments[..k] + db.comments[k + 1..];
    db.log := db.log + [Activity(caller.userId, "COMMENT_DELETED")];
    status := 204;
  }
}
