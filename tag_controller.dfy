/**
 * The tag handlers and `tagSchema`: a name of 1 to 20 characters and an optional
 * colour written `#` followed by exactly three or exactly six hex digits.
 */
module TagController {
  import opened Wrappers
  import opened Seqs
  import opened Domain
  import opened Auth
  import opened Database

  // ---------------------------------------------------------------- tagSchema

  predicate IsHexDigit(c: char) {
    ('0' <= c <= '9') || ('a' <= c <= 'f') || ('A' <= c <= 'F')
  }

  predicate AllHex(s: string) {
    forall i :: 0 <= i < |s| ==> IsHexDigit(s[i])
  }

  /** What the colour pattern accepts: `#` and then three or six hex digits, nothing more. */
  predicate IsHexColor(s: string) {
    (|s| == 4 || |s| == 7) && s[0] == '#' && AllHex(s[1..])
  }

  /** `[A-Fa-f0-9]{n}` anchored at the end: exactly `n` hex digits are left. */
  function HexRun(s: string, n: nat): bool
    decreases n
  {
    if n == 0 then s == []
    else |s| > 0 && IsHexDigit(s[0]) && HexRun(s[1..], n - 1)
  }

  lemma {:induction false} HexRunIff(s: string, n: nat)
    ensures HexRun(s, n) <==> |s| == n && AllHex(s)
    decreases n
  {
    if n > 0 && |s| > 0 {
      HexRunIff(s[1..], n - 1);
      if |s| == n && AllHex(s) {
        assert forall i :: 0 <= i < |s[1..]| ==> s[1..][i] == s[i + 1];
      }
    }
  }

  /** The matcher for `^#([A-Fa-f0-9]{6}|[A-Fa-f0-9]{3})$`, alternative by alternative. */
  function MatchColor(s: string): (r: bool)
    ensures r <==> IsHexColor(s)
  {
    if |s| == 0 then false
    else
      HexRunIff(s[1..], 6);
      HexRunIff(s[1..], 3);
      s[0] == '#' && (HexRun(s[1..], 6) || HexRun(s[1..], 3))
  }

  /** Either case is accepted; four hex digits, a missing `#` or a non-hex digit are not. */
  lemma ColorExamples()
    ensures MatchColor("#fff") && MatchColor("#A1b2C3") && MatchColor("#000000")
    ensures !MatchColor("#ffff") && !MatchColor("fff") && !MatchColor("#ggg") && !MatchColor("#")
  {
    assert IsHexDigit('A') && IsHexDigit('1') && IsHexDigit('b') && IsHexDigit('2') && IsHexDigit('C');
    assert !IsHexDigit('g');
    assert "#ggg"[1..][0] == 'g';
  }

  /** `z.string().min(1).max(20)`. */
  predicate TagNameOk(s: string) {
    1 <= |s| <= 20
  }

  datatype TagBody = TagBody(name: Field, color: Field)

  /** The validated fields; `None` is a field the body did not carry. */
  datatype TagFields = TagFields(name: Option<string>, color: Option<string>)

  /**
   * `tagSchema.parse(body)` or, with `partial`, `tagSchema.partial().parse(body)`: the
   * name is required unless partial; the colour is always optional, and a value present
   * must be a string of the right shape (`null` is refused).
   */
  function ParseTag(b: TagBody, partial: bool): (r: Parsed<TagFields>)
    ensures r.Accept? <==>
              && ((b.name.Str? && TagNameOk(b.name.s)) || (partial && b.name.Absent?))
              && (b.color.Absent? || (b.color.Str? && IsHexColor(b.color.s)))
    ensures r.Accept? ==> r.value.name == (if b.name.Str? then Some(b.name.s) else None)
    ensures r.Accept? ==> r.value.color == (if b.color.Str? then Some(b.color.s) else None)
    ensures r.Accept? && !partial ==> r.value.name.Some?
  {
    var name := if partial then OptionalString(b.name, TagNameOk)
                else match RequiredString(b.name, TagNameOk)
                  case Accept(s) => Accept(Some(s))
                  case Reject => Reject;
    var color := OptionalString(b.color, MatchColor);
    if name.Accept? && color.Accept? then Accept(TagFields(name.value, color.value)) else Reject
  }

  /** Prisma's update: a field the body carries replaces the stored one, the others stay. */
  function ApplyTagPatch(t: Tag, f: TagFields): (r: Tag)
    ensures r.id == t.id
  {
    Tag(t.id, f.name.GetOr(t.name), if f.color.Some? then f.color else t.color)
  }

  /** An empty patch changes nothing, and applying a patch twice is applying it once. */
  lemma PatchLaws(t: Tag, f: TagFields)
    ensures ApplyTagPatch(t, TagFields(None, None)) == t
    ensures ApplyTagPatch(ApplyTagPatch(t, f), f) == ApplyTagPatch(t, f)
    ensures f.name.Some? ==> ApplyTagPatch(t, f).name == f.name.value
    ensures f.name.None? ==> ApplyTagPatch(t, f).name == t.name
    ensures f.color.None? ==> ApplyTagPatch(t, f).color == t.color
  {
  }

  // ---------------------------------------------------------------- handlers

  /** `GET /api/tags`: every tag. */
  function GetTags(db: Store): (r: seq<Tag>)
    reads db
    ensures forall t :: t in r <==> t in db.tags
  {
    db.tags
  }

  /**
   * `POST /api/tags`: 400 when the schema rejects the body, and then no tag is created;
   * otherwise the tag is stored with the validated fields and TAG_CREATED logged.
   */
  method CreateTag(db: Store, caller: Principal, body: TagBody, newId: string) returns (status: int)
    requires db.Valid()
    requires forall i :: 0 <= i < |db.tags| ==> db.tags[i].id != newId
    modifies db
    ensures db.Valid()
    ensures db.tasks == old(db.tasks) && db.projects == old(db.projects) && db.comments == old(db.comments)
    ensures status == 201 || status == 400
    ensures status == 400 <==> ParseTag(body, false).Reject?
    ensures status == 201 ==>
              var f := ParseTag(body, false).value;
              && db.tags == old(db.tags) + [Tag(newId, f.name.value, f.color)]
              && db.log == old(db.log) + [Activity(caller.userId, "TAG_CREATED")]
    ensures status == 400 ==> db.tags == old(db.tags) && db.log == old(db.log)
  {
    var parsed := ParseTag(body, false);
    if parsed.Reject? {
      return 400;
    }
    var tag := Tag(newId, parsed.value.name.value, parsed.value.color);
    AppendKeepsDistinct(db.tags, tag, TagKey);
    var tags := db.tags;
    forall i | 0 <= i < |db.tasks| ensures AllTagsExist(tags + [tag], db.tasks[i].tagIds) {
      forall j | 0 <= j < |db.tasks[i].tagIds| ensures HasTag(tags + [tag], db.tasks[i].tagIds[j]) {
        HasTagKept(tags, tags + [tag], db.tasks[i].tagIds[j]);
      }
    }
    db.tags := db.tags + [tag];
    db.log := db.log + [Activity(caller.userId, "TAG_CREATED")];
    status := 201;
  }

  /**
   * `PUT /api/tags/:id`: every failure, a rejected body or an unknown id alike, is a 400;
   * otherwise the supplied fields replace the stored ones and TAG_UPDATED is logged.
   */
  method UpdateTag(db: Store, caller: Principal, id: string, body: TagBody) returns (status: int)
    requires db.Valid()
    modifies db
    ensures db.Valid()
    ensures db.tasks == old(db.tasks) && db.projects == old(db.projects) && db.comments == old(db.comments)
    ensures status == 200 || status == 400
    ensures status == 400 <==> ParseTag(body, true).Reject? || IndexOf(old(db.tags), TagKey, id).None?
    ensures status == 200 ==>
              var k := IndexOf(old(db.tags), TagKey, id).value;
              && db.tags == old(db.tags)[k := ApplyTagPatch(old(db.tags)[k], ParseTag(body, true).value)]
              && db.log == old(db.log) + [Activity(caller.userId, "TAG_UPDATED")]
    ensures status == 400 ==> db.tags == old(db.tags) && db.log == old(db.log)
  {
    var parsed := ParseTag(body, true);
    if parsed.Reject? {
      return 400;
    }
    var found := IndexOf(db.tags, TagKey, id);
    if found.None? {
      return 400;
    }
    var k := found.value;
    var updated := ApplyTagPatch(db.tags[k], parsed.value);
    UpdateKeepsDistinct(db.tags, k, updated, TagKey);
    var tags := db.tags;
    forall i | 0 <= i < |db.tasks| ensures AllTagsExist(tags[k := updated], db.tasks[i].tagIds) {
      forall j | 0 <= j < |db.tasks[i].tagIds| ensures HasTag(tags[k := updated], db.tasks[i].tagIds[j]) {
        var x := db.tasks[i].tagIds[j];
        forall t: Tag | t in tags && t.id == x ensures exists u: Tag :: u in tags[k := updated] && u.id == x {
          var m :| 0 <= m < |tags| && tags[m] == t;
          assert tags[k := updated][m] in tags[k := updated];
        }
        HasTagKept(tags, tags[k := updated], x);
      }
    }
    db.tags := db.tags[k := updated];
    db.log := db.log + [Activity(caller.userId, "TAG_UPDATED")];
    status := 200;
  }

  /** A tag id that is still carried by some tag of the new table is still found there. */
  lemma HasTagKept(before: seq<Tag>, after: seq<Tag>, x: string)
    requires forall t :: t in before && t.id == x ==> exists u :: u in after && u.id == x
    ensures HasTag(before, x) ==> HasTag(after, x)
  {
    IndexOfFound(before, TagKey, x);
    IndexOfFound(after, TagKey, x);
  }

  /** Deleting a tag drops its links: every task loses that id from its tag list, nothing else. */
  function Unlink(tasks: seq<Task>, id: string): (r: seq<Task>)
    ensures |r| == |tasks|
    ensures forall i :: 0 <= i < |r| ==> r[i] == tasks[i].(tagIds := r[i].tagIds)
    ensures forall i, x :: 0 <= i < |r| ==> (x in r[i].tagIds <==> x in tasks[i].tagIds && x != id)
  {
    forall i | 0 <= i < |tasks| {
      FilterMembers(tasks[i].tagIds, NotEqual(id));
    }
    seq(|tasks|, i requires 0 <= i < |tasks| => tasks[i].(tagIds := Filter(tasks[i].tagIds, NotEqual(id))))
  }

  /**
   * `DELETE /api/tags/:id`: an unknown id makes the delete throw, which is a 500;
   * otherwise exactly that tag goes, the tasks lose their links to it, and TAG_DELETED
   * is logged.
   */
  method DeleteTag(db: Store, caller: Principal, id: string) returns (status: int)
    requires db.Valid()
    modifies db
    ensures db.Valid()
    ensures db.projects == old(db.projects) && db.comments == old(db.comments)
    ensures status == 204 || status == 500
    ensures status == 500 <==> IndexOf(old(db.tags), TagKey, id).None?
    ensures status == 204 ==>
              && db.tags == Filter(old(db.tags), KeyIsNot(TagKey, id))
              && |db.tags| == |old(db.tags)| - 1
              && db.tasks == Unlink(old(db.tasks), id)
              && db.log == old(db.log) + [Activity(caller.userId, "TAG_DELETED")]
    ensures status == 500 ==> db.tasks == old(db.tasks) && db.tags == old(db.tags) && db.log == old(db.log)
  {
    var found := IndexOf(db.tags, TagKey, id);
    if found.None? {
      return 500;
    }
    var k := found.value;
    FilterRemovesKey(db.tags, TagKey, id, k);
    FilterKeepsDistinct(db.tags, KeyIsNot(TagKey, id), TagKey);
    FilterMembers(db.tags, KeyIsNot(TagKey, id));
    var tags := db.tags;
    var kept := Filter(tags, KeyIsNot(TagKey, id));
    var tasks := Unlink(db.tasks, id);
    forall i | 0 <= i < |tasks| ensures AllTagsExist(kept, tasks[i].tagIds) {
      forall j | 0 <= j < |tasks[i].tagIds| ensures HasTag(kept, tasks[i].tagIds[j]) {
        var x := tasks[i].tagIds[j];
        assert x in tasks[i].tagIds;
        var j' :| 0 <= j' < |db.tasks[i].tagIds| && db.tasks[i].tagIds[j'] == x;
        assert HasTag(tags, x);
        HasTagKept(tags, kept, x);
      }
    }
    db.tasks := tasks;
    db.tags := kept;
    db.log := db.log + [Activity(caller.userId, "TAG_DELETED")];
    status := 204;
  }
}
