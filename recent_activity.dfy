/**
 * The dashboard's activity feed: each log entry becomes the author's initials, their
 * first name, a headline made from the action code and a detail line.
 */
module RecentActivity {
  import opened Strings

  const NoActivityText := "No recent activity found."
  const DefaultDetail := "Action performed"

  /** A log entry as the feed receives it: the action text and the author's names. */
  datatype LogView = LogView(action: string, firstName: string, lastName: string)

  /** One rendered row. */
  datatype Row = Row(initials: string, name: string, headline: string, detail: string)

  /** The feed: a placeholder when there are no entries, otherwise one row per entry. */
  datatype Feed = NoActivity(message: string) | Rows(rows: seq<Row>)

  /**
   * The author's initials: the first character of each name; an empty name contributes
   * nothing (indexing it gives `undefined`, which renders as nothing).
   */
  function Initials(firstName: string, lastName: string): (r: string)
    ensures |r| == (if firstName == "" then 0 else 1) + (if lastName == "" then 0 else 1)
    ensures firstName != "" ==> r[0] == firstName[0]
    ensures lastName != "" ==> r[|r| - 1] == lastName[0]
  {
    (if firstName == "" then "" else [firstName[0]]) + (if lastName == "" then "" else [lastName[0]])
  }

  /** The headline: the text before the first `:`, lower-cased, with its first `_` made a space. */
  function Headline(action: string): string {
    ReplaceFirst(Lower(Split(action, ':')[0]), '_', ' ')
  }

  /** The detail line: the text between the first and second `:`, or a fixed text when that is empty or absent. */
  function Detail(action: string): (r: string)
    ensures r != ""
  {
    var parts := Split(action, ':');
    if |parts| > 1 && parts[1] != "" then parts[1] else DefaultDetail
  }

  /** The feed for a list of entries, in the order given. */
  function Render(logs: seq<LogView>): (r: Feed)
    ensures r.NoActivity? <==> |logs| == 0
    ensures r.NoActivity? ==> r.message == NoActivityText
    ensures r.Rows? ==> |r.rows| == |logs|
    ensures r.Rows? ==> forall i :: 0 <= i < |logs| ==>
              r.rows[i] == Row(Initials(logs[i].firstName, logs[i].lastName), logs[i].firstName,
                               Headline(logs[i].action), Detail(logs[i].action))
  {
    if |logs| == 0 then NoActivity(NoActivityText)
    else Rows(seq(|logs|, i requires 0 <= i < |logs| =>
      Row(Initials(logs[i].firstName, logs[i].lastName), logs[i].firstName,
          Headline(logs[i].action), Detail(logs[i].action))))
  }

  /** Lower-casing never creates an underscore. */
  lemma {:induction false} LowerNoUnderscore(s: string)
    requires '_' !in s
    ensures '_' !in Lower(s)
  {
    forall i | 0 <= i < |s| ensures Lower(s)[i] != '_' {
      assert s[i] != '_';
    }
  }

  /**
   * An action `a:b` with no further colon: the headline comes from `a` alone, the detail is
   * `b` (or the fixed text when `b` is empty), and a bare code has the fixed detail.
   */
  lemma {:induction false} ActionParts(a: string, b: string)
    requires ':' !in a && ':' !in b
    ensures Headline(a + ":" + b) == Headline(a)
    ensures Detail(a + ":" + b) == if b == "" then DefaultDetail else b
    ensures Detail(a) == DefaultDetail
  {
    SplitAtFirst(a, b, ':');
    SplitNoSep(b, ':');
    SplitNoSep(a, ':');
  }

  /** A two-word code `W1_W2` reads as `w1 w2`. */
  lemma {:induction false} HeadlineWords(w1: string, w2: string)
    requires ':' !in w1 && ':' !in w2 && '_' !in w1
    ensures Headline(w1 + "_" + w2) == Lower(w1) + " " + Lower(w2)
  {
    var code := w1 + "_" + w2;
    assert ':' !in code;
    SplitNoSep(code, ':');
    LowerProperties(w1 + "_", w2);
    LowerProperties(w1, "_");
    assert Lower("_") == "_";
    LowerNoUnderscore(w1);
    ReplaceFirstSpec(Lower(w1), Lower(w2), '_', ' ');
  }

  /** Only the first underscore becomes a space: `COMMENT_RE_OPENED` would read `comment re_opened`. */
  lemma {:induction false} OnlyFirstUnderscore(w1: string, w2: string, w3: string)
    requires ':' !in w1 && ':' !in w2 && ':' !in w3 && '_' !in w1
    ensures Headline(w1 + "_" + w2 + "_" + w3) == Lower(w1) + " " + Lower(w2) + "_" + Lower(w3)
  {
    assert w1 + "_" + w2 + "_" + w3 == w1 + "_" + (w2 + "_" + w3);
    HeadlineWords(w1, w2 + "_" + w3);
    LowerProperties(w2 + "_", w3);
    LowerProperties(w2, "_");
    assert Lower("_") == "_";
  }

  /** `Lower` on a literal, one character at a time. */
  lemma LowerWord(w: string, l: string)
    requires |w| == |l| && forall i :: 0 <= i < |w| ==> LowerChar(w[i]) == l[i]
    ensures Lower(w) == l
  {
  }

  /**
   * The action `W1_W2:rest`, with words that lower-case to `l1` and `l2` and no further
   * colon, reads `l1 l2` with `rest` as its detail (the fixed text when `rest` is empty).
   */
  lemma TwoWordAction(w1: string, w2: string, l1: string, l2: string, rest: string)
    requires ':' !in w1 && ':' !in w2 && ':' !in rest && '_' !in w1
    requires |w1| == |l1| && forall i :: 0 <= i < |w1| ==> LowerChar(w1[i]) == l1[i]
    requires |w2| == |l2| && forall i :: 0 <= i < |w2| ==> LowerChar(w2[i]) == l2[i]
    ensures Headline(w1 + "_" + w2 + ":" + rest) == l1 + " " + l2
    ensures Detail(w1 + "_" + w2 + ":" + rest) == if rest == "" then DefaultDetail else rest
  {
    var code := w1 + "_" + w2;
    assert ':' !in code;
    ActionParts(code, rest);
    HeadlineWords(w1, w2);
    LowerWord(w1, l1);
    LowerWord(w2, l2);
  }

  /** A task creation reads "task created" with the fixed detail, since its action has no colon. */
  lemma TaskCreatedExample()
    ensures Headline("TASK_CREATED") == "task created"
    ensures Detail("TASK_CREATED") == DefaultDetail
  {
    assert Headline("TASK_CREATED") == "task created" by {
      HeadlineWords("TASK", "CREATED");
      LowerWord("TASK", "task");
      LowerWord("CREATED", "created");
      assert "TASK" + "_" + "CREATED" == "TASK_CREATED";
      assert "task" + " " + "created" == "task created";
    }
    assert Detail("TASK_CREATED") == DefaultDetail by {
      assert ':' !in "TASK_CREATED";
      ActionParts("TASK_CREATED", "");
    }
  }

  /**
   * A user deletion splits at its colon: the headline reads "user deleted" and the detail
   * is the email after its leading space.
   */
  lemma UserDeletedExample()
    ensures Headline("USER_DELETED: ann@x.io") == "user deleted"
    ensures Detail("USER_DELETED: ann@x.io") == " ann@x.io"
  {
    TwoWordAction("USER", "DELETED", "user", "deleted", " ann@x.io");
    assert "USER" + "_" + "DELETED" == "USER_DELETED";
    assert "USER_DELETED" + ":" + " ann@x.io" == "USER_DELETED: ann@x.io";
    assert "user" + " " + "deleted" == "user deleted";
  }
}
