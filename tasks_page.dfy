/**
 * The task table: the checkbox toggles, the filter pipeline (search, then the two
 * dropdowns, then the two checkbox groups, then the optional sort), the header-click
 * sort toggle and the "can manage" flag that shows the create, edit and delete controls.
 */
module TasksPage {
  import opened Wrappers
  import opened Seqs
  import opened Strings
  import opened Domain
  import opened Auth
  import opened ClientTypes

  // ---------------------------------------------------------------- checkbox toggles

  /** A checkbox click: the value is removed when it is selected, appended when it is not. */
  function Toggle(prev: seq<string>, v: string): (r: seq<string>)
    ensures v in r <==> v !in prev
    ensures forall x :: x != v ==> (x in r <==> x in prev)
  {
    FilterMembers(prev, NotEqual(v));
    if v in prev then Filter(prev, NotEqual(v)) else prev + [v]
  }

  /** Clicking the same checkbox twice restores what is selected. */
  lemma ToggleTwice(prev: seq<string>, v: string)
    ensures forall x :: x in Toggle(Toggle(prev, v), v) <==> x in prev
  {
  }

  // ---------------------------------------------------------------- filters

  /** The filter controls: the search box, the two dropdowns ("" is "any") and the two checkbox groups. */
  datatype Criteria = Criteria(
    searchTerm: string,
    statusDropdown: string,
    priorityDropdown: string,
    statusBoxes: seq<string>,
    priorityBoxes: seq<string>)

  function FullName(p: Person): string {
    p.firstName + " " + p.lastName
  }

  /** The search test for an already lower-cased term: title, project name or assignee's full name. */
  predicate MatchesSearch(t: ClientTask, lower: string) {
    || Includes(Lower(t.title), lower)
    || (t.project.Some? && Includes(Lower(t.project.value), lower))
    || (t.assignee.Some? && Includes(Lower(FullName(t.assignee.value)), lower))
  }

  /** Whether stage `k` (1 search, 2 status dropdown, 3 priority dropdown, 4 and 5 the checkbox groups) runs. */
  predicate Active(c: Criteria, k: nat) {
    match k
    case 1 => c.searchTerm != ""
    case 2 => c.statusDropdown != ""
    case 3 => c.priorityDropdown != ""
    case 4 => |c.statusBoxes| > 0
    case 5 => |c.priorityBoxes| > 0
    case _ => false
  }

  /** The test stage `k` applies when it runs. */
  predicate Check(c: Criteria, k: nat, t: ClientTask) {
    match k
    case 1 => MatchesSearch(t, Lower(c.searchTerm))
    case 2 => StatusName(t.status) == c.statusDropdown
    case 3 => PriorityName(t.priority) == c.priorityDropdown
    case 4 => StatusName(t.status) in c.statusBoxes
    case 5 => PriorityName(t.priority) in c.priorityBoxes
    case _ => true
  }

  function Stage(c: Criteria, k: nat): ClientTask -> bool {
    (t: ClientTask) => Check(c, k, t)
  }

  /** The task passes every stage among the first `n` that runs. */
  predicate PassesFirst(c: Criteria, n: nat, t: ClientTask) {
    forall k :: 1 <= k <= n && Active(c, k) ==> Check(c, k, t)
  }

  function Through(c: Criteria, n: nat): ClientTask -> bool {
    (t: ClientTask) => PassesFirst(c, n, t)
  }

  /**
   * What the pipeline keeps, stated directly: the search term occurs in the title,
   * project name or assignee's name (an empty term keeps everything); a chosen
   * dropdown value is matched exactly; within a non-empty checkbox group any ticked
   * value will do; and every control must be satisfied.
   */
  predicate Selected(c: Criteria, t: ClientTask) {
    && (c.searchTerm == "" || MatchesSearch(t, Lower(c.searchTerm)))
    && (c.statusDropdown == "" || StatusName(t.status) == c.statusDropdown)
    && (c.priorityDropdown == "" || PriorityName(t.priority) == c.priorityDropdown)
    && (|c.statusBoxes| == 0 || StatusName(t.status) in c.statusBoxes)
    && (|c.priorityBoxes| == 0 || PriorityName(t.priority) in c.priorityBoxes)
  }

  /** Passing all five stages is being selected. */
  lemma PassesAllIsSelected(c: Criteria, t: ClientTask)
    ensures PassesFirst(c, 5, t) <==> Selected(c, t)
  {
    if Selected(c, t) {
      forall k | 1 <= k <= 5 && Active(c, k) ensures Check(c, k, t) {
      }
    }
    if PassesFirst(c, 5, t) {
      assert Active(c, 1) ==> Check(c, 1, t);
      assert Active(c, 2) ==> Check(c, 2, t);
      assert Active(c, 3) ==> Check(c, 3, t);
      assert Active(c, 4) ==> Check(c, 4, t);
      assert Active(c, 5) ==> Check(c, 5, t);
    }
  }

  /** Running stage `k` on what passed the earlier stages leaves what passes the first `k`. */
  lemma Advance(tasks: seq<ClientTask>, c: Criteria, k: nat)
    requires 1 <= k && Active(c, k)
    ensures Filter(Filter(tasks, Through(c, k - 1)), Stage(c, k)) == Filter(tasks, Through(c, k))
  {
    forall t ensures Through(c, k)(t) == (Through(c, k - 1)(t) && Stage(c, k)(t)) {
      if Through(c, k - 1)(t) && Stage(c, k)(t) {
        forall j | 1 <= j <= k && Active(c, j) ensures Check(c, j, t) {
        }
      }
    }
    FilterTwice(tasks, Through(c, k - 1), Stage(c, k), Through(c, k));
  }

  /** A stage that does not run changes nothing. */
  lemma Skip(tasks: seq<ClientTask>, c: Criteria, k: nat)
    requires 1 <= k && !Active(c, k)
    ensures Filter(tasks, Through(c, k - 1)) == Filter(tasks, Through(c, k))
  {
    forall t ensures Through(c, k - 1)(t) == Through(c, k)(t) {
      if Through(c, k - 1)(t) {
        forall j | 1 <= j <= k && Active(c, j) ensures Check(c, j, t) {
        }
      }
    }
    FilterExt(tasks, Through(c, k - 1), Through(c, k));
  }

  /**
   * One stage of the effect: when the stage's criterion is set, `result` is replaced by
   * its filtered copy; otherwise it is left alone.
   */
  method RunStage(tasks: seq<ClientTask>, c: Criteria, k: nat, prev: seq<ClientTask>) returns (next: seq<ClientTask>)
    requires 1 <= k && prev == Filter(tasks, Through(c, k - 1))
    ensures next == Filter(tasks, Through(c, k))
  {
    if Active(c, k) {
      Advance(tasks, c, k);
      next := Filter(prev, Stage(c, k));
    } else {
      Skip(tasks, c, k);
      next := prev;
    }
  }

  /**
   * The filtering half of the effect, stage by stage as the page does it: search term,
   * status dropdown, priority dropdown, status checkboxes, priority checkboxes. The
   * outcome is exactly the selected tasks in list order.
   */
  method FilterTasks(tasks: seq<ClientTask>, c: Criteria) returns (result: seq<ClientTask>)
    ensures result == Filter(tasks, Through(c, 5))
    ensures forall t :: t in result <==> t in tasks && Selected(c, t)
    ensures IsSubsequence(result, tasks)
  {
    result := tasks;
    FilterKeepsAll(tasks, Through(c, 0));
    result := RunStage(tasks, c, 1, result);
    result := RunStage(tasks, c, 2, result);
    result := RunStage(tasks, c, 3, result);
    result := RunStage(tasks, c, 4, result);
    result := RunStage(tasks, c, 5, result);
    SelectedTasks(tasks, c);
  }

  /** One filter by all five stages keeps exactly the selected tasks, in list order. */
  lemma SelectedTasks(tasks: seq<ClientTask>, c: Criteria)
    ensures forall t :: t in Filter(tasks, Through(c, 5)) <==> t in tasks && Selected(c, t)
    ensures IsSubsequence(Filter(tasks, Through(c, 5)), tasks)
  {
    FilterMembers(tasks, Through(c, 5));
    FilterIsSubsequence(tasks, Through(c, 5));
    forall t ensures Through(c, 5)(t) == Selected(c, t) {
      PassesAllIsSelected(c, t);
    }
  }

  // ---------------------------------------------------------------- sorting

  /**
   * The keys the comparator handles: raw fields, the priority weight, and the project and
   * assignee names. The page's headers issue only status, priority, due date and creation
   * date; title, project and assignee are reachable only through the comparator's branches.
   */
  datatype SortKey = ByTitle | ByStatus | ByPriority | ByDueDate | ByCreatedAt | ByProject | ByAssignee

  datatype Direction = Asc | Desc

  datatype SortConfig = SortConfig(key: SortKey, direction: Direction)

  /** A value the comparator compares: a number, a string, or `null` (a task without a due date). */
  datatype KeyValue = Num(n: int) | Text(s: string) | Missing

  /** HIGH 3, MEDIUM 2, LOW 1. */
  function Weight(p: Priority): (r: int)
    ensures 1 <= r <= 3
    ensures r == 3 <==> p == High
    ensures r == 1 <==> p == Low
  {
    match p
    case High => 3
    case Medium => 2
    case Low => 1
  }

  /** The value the comparator reads for a column. */
  function KeyOf(t: ClientTask, k: SortKey): KeyValue {
    match k
    case ByTitle => Text(t.title)
    case ByStatus => Text(StatusName(t.status))
    case ByPriority => Num(Weight(t.priority))
    case ByDueDate => if t.dueDate.Some? then Text(t.dueDate.value) else Missing
    case ByCreatedAt => Text(t.createdAt)
    case ByProject => Text(if t.project.Some? then t.project.value else "")
    case ByAssignee => Text(if t.assignee.Some? then t.assignee.value.firstName else "")
  }

  /** JavaScript's `x < y` for the values at hand; `null` against a date string is false both ways. */
  predicate Below(x: KeyValue, y: KeyValue) {
    match (x, y)
    case (Num(m), Num(n)) => m < n
    case (Text(a), Text(b)) => LexLess(a, b)
    case _ => false
  }

  /** The comparator handed to `sort`. */
  function Compare(a: ClientTask, b: ClientTask, cfg: SortConfig): (r: int)
    ensures r == -1 || r == 0 || r == 1
    ensures r == 0 <==> !Below(KeyOf(a, cfg.key), KeyOf(b, cfg.key)) && !Below(KeyOf(b, cfg.key), KeyOf(a, cfg.key))
  {
    var x := KeyOf(a, cfg.key);
    var y := KeyOf(b, cfg.key);
    if Below(x, y) then (if cfg.direction == Asc then -1 else 1)
    else if Below(y, x) then (if cfg.direction == Asc then 1 else -1)
    else 0
  }

  lemma BelowAsymmetric(x: KeyValue, y: KeyValue)
    ensures Below(x, y) ==> !Below(y, x)
    ensures !Below(x, x)
  {
    if x.Text? {
      LexLessIrreflexive(x.s);
      if y.Text? {
        LexLessAsymmetric(x.s, y.s);
      }
    }
  }

  /**
   * The comparator is antisymmetric, descending flips every non-zero result of
   * ascending, and a non-zero result means the two keys differ.
   */
  lemma CompareLaws(a: ClientTask, b: ClientTask, k: SortKey)
    ensures Compare(a, b, SortConfig(k, Asc)) == -Compare(b, a, SortConfig(k, Asc))
    ensures Compare(a, b, SortConfig(k, Desc)) == -Compare(a, b, SortConfig(k, Asc))
    ensures Compare(a, b, SortConfig(k, Asc)) != 0 ==> KeyOf(a, k) != KeyOf(b, k)
  {
    BelowAsymmetric(KeyOf(a, k), KeyOf(b, k));
    BelowAsymmetric(KeyOf(a, k), KeyOf(a, k));
  }

  /** Inserting `x` into a sorted prefix behind every element not placed after it (a stable insertion). */
  function Insert(s: seq<ClientTask>, x: ClientTask, cfg: SortConfig): (r: seq<ClientTask>)
    ensures multiset(r) == multiset(s) + multiset{x}
    decreases |s|
  {
    if s == [] then [x]
    else if Compare(s[|s| - 1], x, cfg) > 0 then
      assert s == s[..|s| - 1] + [s[|s| - 1]];
      Insert(s[..|s| - 1], x, cfg) + [s[|s| - 1]]
    else s + [x]
  }

  /** The result of a stable sort by `cfg`, element by element. */
  function SortSpec(s: seq<ClientTask>, cfg: SortConfig): (r: seq<ClientTask>)
    ensures multiset(r) == multiset(s)
    decreases |s|
  {
    if s == [] then []
    else
      assert s == s[..|s| - 1] + [s[|s| - 1]];
      Insert(SortSpec(s[..|s| - 1], cfg), s[|s| - 1], cfg)
  }

  /** `sort` with the page's comparator, as an insertion sort over the filtered list. */
  method SortTasks(s: seq<ClientTask>, cfg: SortConfig) returns (r: seq<ClientTask>)
    ensures r == SortSpec(s, cfg)
  {
    r := [];
    for i := 0 to |s|
      invariant r == SortSpec(s[..i], cfg)
    {
      assert s[..i + 1][..i] == s[..i];
      r := Insert(r, s[i], cfg);
    }
    assert s[..|s|] == s;
  }

  /** The effect as a whole: filter, then sort when a sort is chosen. */
  method ApplyFilters(tasks: seq<ClientTask>, c: Criteria, sort: Option<SortConfig>) returns (result: seq<ClientTask>)
    ensures multiset(result) == multiset(Filter(tasks, Through(c, 5)))
    ensures forall t :: t in result <==> t in tasks && Selected(c, t)
    ensures sort.None? ==> IsSubsequence(result, tasks)
    ensures sort.Some? ==> result == SortSpec(Filter(tasks, Through(c, 5)), sort.value)
  {
    result := FilterTasks(tasks, c);
    if sort.Some? {
      ghost var before := result;
      result := SortTasks(result, sort.value);
      assert forall t :: t in result <==> t in before by {
        assert multiset(result) == multiset(before);
        forall t ensures t in result <==> t in before {
          assert t in result <==> t in multiset(result);
          assert t in before <==> t in multiset(before);
        }
      }
    }
  }

  // ---------------------------------------------------------------- what the sort promises

  /** `a` is not placed after `b`. */
  predicate NotAfter(a: ClientTask, b: ClientTask, cfg: SortConfig) {
    Compare(a, b, cfg) <= 0
  }

  ghost predicate SortedBy(s: seq<ClientTask>, cfg: SortConfig) {
    forall i, j :: 0 <= i < j < |s| ==> NotAfter(s[i], s[j], cfg)
  }

  /** No task lacks the column's value: only a missing due date can. */
  ghost predicate NoneMissing(s: seq<ClientTask>, k: SortKey) {
    forall i :: 0 <= i < |s| ==> !KeyOf(s[i], k).Missing?
  }

  /** Keys the comparator sees are of one kind per column: numbers for priority, strings otherwise. */
  lemma KeyKind(t: ClientTask, k: SortKey)
    ensures KeyOf(t, k).Num? <==> k == ByPriority
    ensures KeyOf(t, k).Missing? ==> k == ByDueDate && t.dueDate.None?
  {
  }

  /** On present values of one column, "not placed after" is transitive. */
  lemma NotAfterTransitive(a: ClientTask, b: ClientTask, c: ClientTask, cfg: SortConfig)
    requires !KeyOf(a, cfg.key).Missing? && !KeyOf(b, cfg.key).Missing? && !KeyOf(c, cfg.key).Missing?
    requires NotAfter(a, b, cfg) && NotAfter(b, c, cfg)
    ensures NotAfter(a, c, cfg)
  {
    KeyKind(a, cfg.key);
    KeyKind(b, cfg.key);
    KeyKind(c, cfg.key);
    var x, y, z := KeyOf(a, cfg.key), KeyOf(b, cfg.key), KeyOf(c, cfg.key);
    BelowAsymmetric(x, y);
    BelowAsymmetric(y, z);
    BelowAsymmetric(x, z);
    if x.Text? {
      if x.s != y.s { LexLessTotal(x.s, y.s); }
      if y.s != z.s { LexLessTotal(y.s, z.s); }
      if LexLess(x.s, y.s) && LexLess(y.s, z.s) { LexLessTransitive(x.s, y.s, z.s); }
      if LexLess(z.s, y.s) && LexLess(y.s, x.s) { LexLessTransitive(z.s, y.s, x.s); }
    }
  }

  /** Two present values the comparator calls unordered are equal. */
  lemma NotAfterTotal(a: ClientTask, b: ClientTask, cfg: SortConfig)
    requires !KeyOf(a, cfg.key).Missing? && !KeyOf(b, cfg.key).Missing?
    ensures NotAfter(a, b, cfg) || NotAfter(b, a, cfg)
    ensures Compare(a, b, cfg) == 0 ==> KeyOf(a, cfg.key) == KeyOf(b, cfg.key)
  {
    CompareLaws(a, b, cfg.key);
    KeyKind(a, cfg.key);
    KeyKind(b, cfg.key);
    var x, y := KeyOf(a, cfg.key), KeyOf(b, cfg.key);
    if x.Text? && x.s != y.s {
      LexLessTotal(x.s, y.s);
    }
  }

  /** A sorted list stays sorted when an element no earlier one is placed after joins its end. */
  lemma SortedSnoc(r: seq<ClientTask>, y: ClientTask, cfg: SortConfig)
    requires SortedBy(r, cfg)
    requires forall i :: 0 <= i < |r| ==> NotAfter(r[i], y, cfg)
    ensures SortedBy(r + [y], cfg)
  {
    var ry := r + [y];
    forall i, j | 0 <= i < j < |ry| ensures NotAfter(ry[i], ry[j], cfg) {
      assert ry[i] == r[i];
      if j < |r| {
        assert ry[j] == r[j];
      }
    }
  }

  /**
   * When `x` goes in front of `last`, nothing in the insertion of `x` into the elements
   * before `last` is placed after `last`.
   */
  lemma InsertedBeforeLast(pre: seq<ClientTask>, last: ClientTask, x: ClientTask, cfg: SortConfig)
    requires forall i :: 0 <= i < |pre| ==> NotAfter(pre[i], last, cfg)
    requires Compare(last, x, cfg) > 0
    ensures forall i :: 0 <= i < |Insert(pre, x, cfg)| ==> NotAfter(Insert(pre, x, cfg)[i], last, cfg)
  {
    var r := Insert(pre, x, cfg);
    CompareLaws(x, last, cfg.key);
    forall i | 0 <= i < |r| ensures NotAfter(r[i], last, cfg) {
      assert r[i] in multiset(r);
      if r[i] != x {
        assert r[i] in multiset(pre);
        var j :| 0 <= j < |pre| && pre[j] == r[i];
      }
    }
  }

  lemma {:induction false} InsertSorted(s: seq<ClientTask>, x: ClientTask, cfg: SortConfig)
    requires SortedBy(s, cfg) && NoneMissing(s, cfg.key) && !KeyOf(x, cfg.key).Missing?
    ensures SortedBy(Insert(s, x, cfg), cfg)
    decreases |s|
  {
    if s != [] {
      var pre, last := s[..|s| - 1], s[|s| - 1];
      assert forall i :: 0 <= i < |pre| ==> pre[i] == s[i];
      if Compare(last, x, cfg) > 0 {
        InsertSorted(pre, x, cfg);
        InsertedBeforeLast(pre, last, x, cfg);
        SortedSnoc(Insert(pre, x, cfg), last, cfg);
      } else {
        NotAfterTotal(last, x, cfg);
        forall i | 0 <= i < |s| ensures NotAfter(s[i], x, cfg) {
          if i < |s| - 1 {
            NotAfterTransitive(s[i], last, x, cfg);
          }
        }
        SortedSnoc(s, x, cfg);
      }
    }
  }

  /**
   * When every task has a value for the column (only a missing due date lacks one),
   * the sorted list is in order: no task comes after one the comparator places it before.
   */
  lemma {:induction false} SortSpecSorted(s: seq<ClientTask>, cfg: SortConfig)
    requires NoneMissing(s, cfg.key)
    ensures SortedBy(SortSpec(s, cfg), cfg)
    decreases |s|
  {
    if s != [] {
      var pre := s[..|s| - 1];
      SortSpecSorted(pre, cfg);
      var sp := SortSpec(pre, cfg);
      forall i | 0 <= i < |sp| ensures !KeyOf(sp[i], cfg.key).Missing? {
        assert sp[i] in multiset(pre);
        var j :| 0 <= j < |pre| && pre[j] == sp[i];
        assert s[j] == sp[i];
      }
      InsertSorted(sp, s[|s| - 1], cfg);
    }
  }

  /** The tasks whose column value is `v`. */
  function WithKey(k: SortKey, v: KeyValue): ClientTask -> bool {
    (t: ClientTask) => KeyOf(t, k) == v
  }

  /** Two neighbours with different keys: the order they pass a key filter in does not matter. */
  lemma SwapFiltered(a: ClientTask, b: ClientTask, k: SortKey, v: KeyValue, front: seq<ClientTask>)
    requires KeyOf(a, k) != KeyOf(b, k)
    ensures front + Filter([a], WithKey(k, v)) + Filter([b], WithKey(k, v))
         == front + Filter([b], WithKey(k, v)) + Filter([a], WithKey(k, v))
  {
    var p := WithKey(k, v);
    if p(a) {
      assert Filter([b], p) == [];
    } else {
      assert Filter([a], p) == [];
    }
  }

  /** The step of `InsertStable` where `x` goes in front of `last`. */
  lemma InsertStableBehind(pre: seq<ClientTask>, last: ClientTask, x: ClientTask, cfg: SortConfig, v: KeyValue)
    requires Compare(last, x, cfg) > 0
    requires Filter(Insert(pre, x, cfg), WithKey(cfg.key, v)) == Filter(pre, WithKey(cfg.key, v)) + Filter([x], WithKey(cfg.key, v))
    ensures Filter(Insert(pre + [last], x, cfg), WithKey(cfg.key, v)) == Filter(pre + [last], WithKey(cfg.key, v)) + Filter([x], WithKey(cfg.key, v))
  {
    var p := WithKey(cfg.key, v);
    InsertStep(pre, last, x, cfg);
    CompareLaws(last, x, cfg.key);
    calc {
      Filter(Insert(pre + [last], x, cfg), p);
      == { FilterAppend(Insert(pre, x, cfg), [last], p); }
      Filter(Insert(pre, x, cfg), p) + Filter([last], p);
      ==
      Filter(pre, p) + Filter([x], p) + Filter([last], p);
      == { SwapFiltered(x, last, cfg.key, v, Filter(pre, p)); }
      Filter(pre, p) + Filter([last], p) + Filter([x], p);
      == { FilterAppend(pre, [last], p); }
      Filter(pre + [last], p) + Filter([x], p);
    }
  }

  lemma {:induction false} InsertStable(s: seq<ClientTask>, x: ClientTask, cfg: SortConfig, v: KeyValue)
    ensures Filter(Insert(s, x, cfg), WithKey(cfg.key, v)) == Filter(s, WithKey(cfg.key, v)) + Filter([x], WithKey(cfg.key, v))
    decreases |s|
  {
    if s == [] {
      assert Insert(s, x, cfg) == [x];
    } else {
      var pre, last := s[..|s| - 1], s[|s| - 1];
      assert s == pre + [last];
      if Compare(last, x, cfg) > 0 {
        InsertStable(pre, x, cfg, v);
        InsertStableBehind(pre, last, x, cfg, v);
      } else {
        InsertStep(pre, last, x, cfg);
        FilterAppend(s, [x], WithKey(cfg.key, v));
      }
    }
  }

  /**
   * The sort is stable: the tasks sharing any one column value come out in the order
   * the filters left them (this holds whatever the values, missing due dates included).
   */
  lemma {:induction false} SortSpecStable(s: seq<ClientTask>, cfg: SortConfig, v: KeyValue)
    ensures Filter(SortSpec(s, cfg), WithKey(cfg.key, v)) == Filter(s, WithKey(cfg.key, v))
    decreases |s|
  {
    if s != [] {
      var pre, last := s[..|s| - 1], s[|s| - 1];
      var p := WithKey(cfg.key, v);
      assert s == pre + [last];
      calc {
        Filter(SortSpec(s, cfg), p);
        == { SortSpecSnoc(pre, last, cfg); }
        Filter(Insert(SortSpec(pre, cfg), last, cfg), p);
        == { InsertStable(SortSpec(pre, cfg), last, cfg, v); }
        Filter(SortSpec(pre, cfg), p) + Filter([last], p);
        == { SortSpecStable(pre, cfg, v); }
        Filter(pre, p) + Filter([last], p);
        == { FilterAppend(pre, [last], p); }
        Filter(s, p);
      }
    }
  }

  /** DONE, IN_PROGRESS, TODO: the order of the status names as strings. */
  function StatusRank(st: Status): int {
    match st
    case Done => 0
    case InProgress => 1
    case Todo => 2
  }

  lemma StatusNamesOrdered(a: Status, b: Status)
    ensures StatusRank(a) < StatusRank(b) ==> LexLess(StatusName(a), StatusName(b))
    ensures StatusRank(a) == StatusRank(b) ==> a == b
  {
  }

  /**
   * Sorting by status ascending lists DONE, then IN_PROGRESS, then TODO; descending
   * the reverse.
   */
  lemma StatusSortOrder(s: seq<ClientTask>, d: Direction)
    ensures var r := SortSpec(s, SortConfig(ByStatus, d));
            forall i, j :: 0 <= i < j < |r| ==>
              if d == Asc then StatusRank(r[i].status) <= StatusRank(r[j].status)
              else StatusRank(r[i].status) >= StatusRank(r[j].status)
  {
    var cfg := SortConfig(ByStatus, d);
    SortSpecSorted(s, cfg);
    var r := SortSpec(s, cfg);
    forall i, j | 0 <= i < j < |r|
      ensures if d == Asc then StatusRank(r[i].status) <= StatusRank(r[j].status)
              else StatusRank(r[i].status) >= StatusRank(r[j].status)
    {
      assert NotAfter(r[i], r[j], cfg);
      StatusNamesOrdered(r[i].status, r[j].status);
      StatusNamesOrdered(r[j].status, r[i].status);
      BelowAsymmetric(KeyOf(r[i], ByStatus), KeyOf(r[j], ByStatus));
    }
  }

  /**
   * Sorting by priority ascending lists LOW, then MEDIUM, then HIGH; descending the
   * reverse.
   */
  lemma PrioritySortOrder(s: seq<ClientTask>, d: Direction)
    ensures var r := SortSpec(s, SortConfig(ByPriority, d));
            forall i, j :: 0 <= i < j < |r| ==>
              if d == Asc then Weight(r[i].priority) <= Weight(r[j].priority)
              else Weight(r[i].priority) >= Weight(r[j].priority)
  {
    var cfg := SortConfig(ByPriority, d);
    forall i | 0 <= i < |s| ensures !KeyOf(s[i], ByPriority).Missing? {
      KeyKind(s[i], ByPriority);
    }
    SortSpecSorted(s, cfg);
    var r := SortSpec(s, cfg);
    forall i, j | 0 <= i < j < |r|
      ensures if d == Asc then Weight(r[i].priority) <= Weight(r[j].priority)
              else Weight(r[i].priority) >= Weight(r[j].priority)
    {
      assert NotAfter(r[i], r[j], cfg);
    }
  }

  /** The sort of a list grown by one element inserts that element into the sort of the rest. */
  lemma SortSpecSnoc(pre: seq<ClientTask>, x: ClientTask, cfg: SortConfig)
    ensures SortSpec(pre + [x], cfg) == Insert(SortSpec(pre, cfg), x, cfg)
  {
    assert (pre + [x])[..|pre|] == pre;
  }

  /** An element placed after the last one goes in front of it; otherwise it goes at the end. */
  lemma InsertStep(pre: seq<ClientTask>, last: ClientTask, x: ClientTask, cfg: SortConfig)
    ensures Compare(last, x, cfg) > 0 ==> Insert(pre + [last], x, cfg) == Insert(pre, x, cfg) + [last]
    ensures Compare(last, x, cfg) <= 0 ==> Insert(pre + [last], x, cfg) == pre + [last] + [x]
  {
    assert (pre + [last])[..|pre|] == pre;
  }

  lemma SortSpecPair(a: ClientTask, b: ClientTask, cfg: SortConfig)
    ensures SortSpec([a, b], cfg) == Insert([a], b, cfg)
  {
    calc {
      SortSpec([a, b], cfg);
      == { assert [a, b] == [a] + [b]; }
      SortSpec([a] + [b], cfg);
      == { SortSpecSnoc([a], b, cfg); }
      Insert(SortSpec([a], cfg), b, cfg);
      == { assert [a] == [] + [a]; SortSpecSnoc([], a, cfg); }
      Insert([a], b, cfg);
    }
  }

  lemma SortSpecTriple(a: ClientTask, b: ClientTask, c: ClientTask, cfg: SortConfig)
    ensures SortSpec([a, b, c], cfg) == Insert(SortSpec([a, b], cfg), c, cfg)
  {
    calc {
      SortSpec([a, b, c], cfg);
      == { assert [a, b, c] == [a, b] + [c]; }
      SortSpec([a, b] + [c], cfg);
      == { SortSpecSnoc([a, b], c, cfg); }
      Insert(SortSpec([a, b], cfg), c, cfg);
    }
  }

  /** Two tasks of different status compare by the order of their status names, either way round. */
  lemma StatusCompare(a: ClientTask, b: ClientTask)
    requires StatusRank(a.status) < StatusRank(b.status)
    ensures Compare(a, b, SortConfig(ByStatus, Asc)) == -1 && Compare(b, a, SortConfig(ByStatus, Asc)) == 1
    ensures Compare(a, b, SortConfig(ByStatus, Desc)) == 1 && Compare(b, a, SortConfig(ByStatus, Desc)) == -1
  {
    StatusNamesOrdered(a.status, b.status);
    BelowAsymmetric(KeyOf(a, ByStatus), KeyOf(b, ByStatus));
  }

  lemma AscFirstInsertion(todo: ClientTask, doing: ClientTask)
    requires todo.status == Todo && doing.status == InProgress
    ensures Insert([todo], doing, SortConfig(ByStatus, Asc)) == [doing, todo]
  {
    assert [todo] == [] + [todo];
    StatusCompare(doing, todo);
    InsertStep([], todo, doing, SortConfig(ByStatus, Asc));
  }

  lemma AscSecondInsertion(todo: ClientTask, doing: ClientTask, done: ClientTask)
    requires todo.status == Todo && doing.status == InProgress && done.status == Done
    ensures Insert([doing, todo], done, SortConfig(ByStatus, Asc)) == [done, doing, todo]
  {
    var asc := SortConfig(ByStatus, Asc);
    StatusCompare(done, todo);
    StatusCompare(done, doing);
    calc {
      Insert([doing, todo], done, asc);
      == { assert [doing, todo] == [doing] + [todo]; }
      Insert([doing] + [todo], done, asc);
      == { InsertStep([doing], todo, done, asc); }
      Insert([doing], done, asc) + [todo];
      == { assert [doing] == [] + [doing]; InsertStep([], doing, done, asc); }
      Insert([], done, asc) + [doing] + [todo];
      == { assert Insert([], done, asc) == [done]; }
      [done, doing, todo];
    }
  }

  lemma DescInsertions(todo: ClientTask, doing: ClientTask, done: ClientTask)
    requires todo.status == Todo && doing.status == InProgress && done.status == Done
    ensures Insert([todo], doing, SortConfig(ByStatus, Desc)) == [todo, doing]
    ensures Insert([todo, doing], done, SortConfig(ByStatus, Desc)) == [todo, doing, done]
  {
    var desc := SortConfig(ByStatus, Desc);
    assert [todo] == [] + [todo];
    assert [todo, doing] == [todo] + [doing];
    StatusCompare(doing, todo);
    StatusCompare(done, doing);
    InsertStep([], todo, doing, desc);
    InsertStep([todo], doing, done, desc);
  }

  /**
   * One task of each status, listed TODO, IN_PROGRESS, DONE: ascending gives DONE,
   * IN_PROGRESS, TODO and descending TODO, IN_PROGRESS, DONE.
   */
  lemma StatusSortExample(todo: ClientTask, doing: ClientTask, done: ClientTask)
    requires todo.status == Todo && doing.status == InProgress && done.status == Done
    ensures SortSpec([todo, doing, done], SortConfig(ByStatus, Asc)) == [done, doing, todo]
    ensures SortSpec([todo, doing, done], SortConfig(ByStatus, Desc)) == [todo, doing, done]
  {
    SortSpecTriple(todo, doing, done, SortConfig(ByStatus, Asc));
    SortSpecPair(todo, doing, SortConfig(ByStatus, Asc));
    AscFirstInsertion(todo, doing);
    AscSecondInsertion(todo, doing, done);
    SortSpecTriple(todo, doing, done, SortConfig(ByStatus, Desc));
    SortSpecPair(todo, doing, SortConfig(ByStatus, Desc));
    DescInsertions(todo, doing, done);
  }

  // ---------------------------------------------------------------- header clicks, controls

  /** A header click: the same column ascending turns descending; anything else starts ascending. */
  function HandleSort(current: Option<SortConfig>, key: SortKey): (r: SortConfig)
    ensures r.key == key
    ensures r.direction == Desc <==> current == Some(SortConfig(key, Asc))
  {
    if current.Some? && current.value.key == key && current.value.direction == Asc then SortConfig(key, Desc)
    else SortConfig(key, Asc)
  }

  /** Clicking one header again and again alternates its direction, starting ascending. */
  lemma HandleSortAlternates(current: Option<SortConfig>, key: SortKey)
    ensures HandleSort(Some(HandleSort(current, key)), key).direction != HandleSort(current, key).direction
    ensures HandleSort(None, key) == SortConfig(key, Asc)
  {
  }

  /** `canManage`: the stored user's role list names ADMIN or MANAGER; no stored user is false. */
  function CanManage(roles: Option<seq<string>>): (r: bool)
    ensures r <==> roles.Some? && ("ADMIN" in roles.value || "MANAGER" in roles.value)
  {
    match roles
    case None => false
    case Some(rs) => exists i :: 0 <= i < |rs| && (rs[i] == "ADMIN" || rs[i] == "MANAGER")
  }

  /** The page shows its controls to exactly the users the server's ADMIN-or-MANAGER gate admits. */
  lemma CanManageMatchesServer(u: Principal)
    requires u.roles.Some?
    ensures CanManage(u.roles) <==> AuthorizeRoles(["ADMIN", "MANAGER"], Some(u)) == Next
  {
    AllowedNames(u.roles.value);
  }

  /** After a delete, the list without the entries carrying that id. */
  function RemoveTask(tasks: seq<ClientTask>, id: string): (r: seq<ClientTask>)
    ensures forall t :: t in r <==> t in tasks && t.id != id
    ensures IsSubsequence(r, tasks)
  {
    FilterMembers(tasks, (t: ClientTask) => t.id != id);
    FilterIsSubsequence(tasks, (t: ClientTask) => t.id != id);
    Filter(tasks, (t: ClientTask) => t.id != id)
  }
}
