/**
 * The dashboard figures: the server's per-status task counts, which hold a key only for
 * statuses some task has, and the client's total and completion percentage built on them.
 */
module DashboardStats {
  import opened Seqs
  import opened Domain

  /** The tasks whose status is `st`. */
  function HasStatus(st: Status): Status -> bool {
    (x: Status) => x == st
  }

  /**
   * `tasksByStatus`: one entry per status that occurs among the tasks, holding how many
   * tasks have it; a status no task has gets no entry at all.
   */
  function GroupCounts(statuses: seq<Status>): (r: map<Status, nat>)
    ensures forall st :: st in r <==> st in statuses
    ensures forall st :: st in r ==> r[st] == Count(statuses, HasStatus(st))
    decreases |statuses|
  {
    if statuses == [] then map[]
    else
      var m := GroupCounts(statuses[1..]);
      var here := statuses[0];
      assert forall st :: st !in m ==> Count(statuses[1..], HasStatus(st)) == 0 by {
        forall st | st !in m ensures Count(statuses[1..], HasStatus(st)) == 0 {
          CountAbsent(statuses[1..], st);
        }
      }
      m[here := (if here in m then m[here] else 0) + 1]
  }

  /** A status that does not occur counts zero. */
  lemma {:induction false} CountAbsent(statuses: seq<Status>, st: Status)
    requires st !in statuses
    ensures Count(statuses, HasStatus(st)) == 0
    decreases |statuses|
  {
    if statuses != [] {
      assert statuses[0] != st;
      assert st !in statuses[1..];
      CountAbsent(statuses[1..], st);
    }
  }

  /** `tasksByStatus[st] || 0`: the count shown in the chart, zero for a missing entry. */
  function Shown(m: map<Status, nat>, st: Status): nat {
    if st in m then m[st] else 0
  }

  /** The total shown: the sum of the three defaulted counts. */
  function Total(m: map<Status, nat>): nat {
    Shown(m, Todo) + Shown(m, InProgress) + Shown(m, Done)
  }

  /** The counts per status add up to the number of tasks. */
  lemma {:induction false} StatusCountsSum(statuses: seq<Status>)
    ensures Count(statuses, HasStatus(Todo)) + Count(statuses, HasStatus(InProgress)) + Count(statuses, HasStatus(Done))
            == |statuses|
    decreases |statuses|
  {
    if statuses != [] {
      StatusCountsSum(statuses[1..]);
    }
  }

  /** The client's total is the number of tasks, whichever statuses are missing from the counts. */
  lemma TotalIsTaskCount(statuses: seq<Status>)
    ensures Total(GroupCounts(statuses)) == |statuses|
  {
    var m := GroupCounts(statuses);
    StatusCountsSum(statuses);
    if Todo !in m { CountAbsent(statuses, Todo); }
    if InProgress !in m { CountAbsent(statuses, InProgress); }
    if Done !in m { CountAbsent(statuses, Done); }
  }

  /** A percentage as JavaScript computes it: a number, or `NaN` from arithmetic on `undefined`. */
  datatype Percent = Pct(n: int) | NaN

  /** A larger factor gives a larger product with a positive one. */
  lemma MulMonotone(a: int, c: int, b: int)
    requires b > 0 && a > c
    ensures a * b > c * b
  {
    var k := a - c;
    assert a * b == c * b + k * b;
    assert k * b >= b by {
      assert k * b == b + (k - 1) * b;
      assert (k - 1) * b >= 0;
    }
  }

  /** Euclidean division by a positive number leaves a remainder below the divisor. */
  lemma DivisionBounds(x: int, y: int)
    requires x >= 0 && y > 0
    ensures y * (x / y) <= x < y * (x / y) + y
  {
    assert x == y * (x / y) + x % y;
  }

  /** A product does not decrease when its first factor grows and the second is non-negative. */
  lemma MulAtLeast(a: int, c: int, b: int)
    requires b >= 0 && c <= a
    ensures c * b <= a * b
  {
    if b > 0 && c < a {
      MulMonotone(a, c, b);
    }
  }

  /** A `q` with `2·total·q ≤ 200·done + total < 2·total·(q + 1)` is the nearest percent and lies in 0..100. */
  lemma NearestPercent(done: nat, total: nat, q: int)
    requires total > 0
    requires 2 * total * q <= 200 * done + total < 2 * total * q + 2 * total
    ensures -(total as int) <= 2 * (100 * done - q * total) < total
    ensures done <= total ==> 0 <= q <= 100
  {
    var p := q * total;
    assert 2 * total * q == 2 * p;
    if done <= total && q > 100 {
      MulAtLeast(q, 101, total);
      assert false;
    }
    if q < 0 {
      MulAtLeast(-1, q, total);
      assert false;
    }
  }

  /**
   * `Math.round(done / total * 100)` in exact arithmetic: the nearest whole percent, a
   * half rounding up.
   */
  function RoundPercent(done: nat, total: nat): (r: int)
    requires total > 0
    ensures -(total as int) <= 2 * (100 * done - r * total) < total
    ensures done <= total ==> 0 <= r <= 100
  {
    var q := (200 * done + total) / (2 * total);
    DivisionBounds(200 * done + total, 2 * total);
    NearestPercent(done, total, q);
    q
  }

  /** The rounded percentage is 0 exactly when less than half a percent is done. */
  lemma RoundPercentZero(done: nat, total: nat)
    requires total > 0
    ensures RoundPercent(done, total) == 0 <==> 200 * done < total
  {
    var r := RoundPercent(done, total);
    if 200 * done < total && r > 0 {
      MulAtLeast(r, 1, total);
      assert false;
    }
    if 200 * done < total && r < 0 {
      MulAtLeast(-1, r, total);
      assert false;
    }
  }

  /** Every task done rounds to 100%. */
  lemma RoundPercentFull(total: nat)
    requires total > 0
    ensures RoundPercent(total, total) == 100
  {
    var r := RoundPercent(total, total);
    if r > 100 {
      MulAtLeast(r, 101, total);
      assert false;
    }
    if r < 100 {
      MulAtLeast(99, r, total);
      assert false;
    }
  }

  /** No task done rounds to 0%, every task done to 100%. */
  lemma RoundPercentEnds(done: nat, total: nat)
    requires total > 0
    ensures done == 0 ==> RoundPercent(done, total) == 0
    ensures done == total ==> RoundPercent(done, total) == 100
    ensures RoundPercent(done, total) == 0 <==> 200 * done < total
  {
    RoundPercentZero(done, total);
    RoundPercentFull(total);
  }

  /**
   * The completion figure as written: zero for no tasks, otherwise the undefaulted DONE
   * entry over the total, which is `NaN` when no task is done.
   */
  function CompletionAsWritten(m: map<Status, nat>): (r: Percent)
    ensures Total(m) == 0 ==> r == Pct(0)
    ensures r == NaN <==> Total(m) > 0 && Done !in m
  {
    if Total(m) > 0 then
      if Done in m then Pct(RoundPercent(m[Done], Total(m))) else NaN
    else Pct(0)
  }

  /** The completion figure with DONE defaulted like the chart values: always a number from 0 to 100. */
  function Completion(m: map<Status, nat>): (r: int)
    ensures 0 <= r <= 100
    ensures Total(m) == 0 || Shown(m, Done) == 0 ==> r == 0
    ensures Total(m) > 0 ==> (r == 0 <==> 200 * Shown(m, Done) < Total(m))
    ensures Total(m) > 0 ==> -(Total(m) as int) <= 2 * (100 * Shown(m, Done) - r * Total(m)) < Total(m)
  {
    if Total(m) > 0 then
      RoundPercentEnds(Shown(m, Done), Total(m));
      RoundPercent(Shown(m, Done), Total(m))
    else 0
  }

  /** The two agree except when tasks exist but none is done. */
  lemma CompletionAgrees(m: map<Status, nat>)
    requires Total(m) == 0 || Done in m
    ensures CompletionAsWritten(m) == Pct(Completion(m))
  {
  }

  /** A board with one task still to do shows `NaN%` as written and 0% once corrected. */
  lemma CompletionNaNExample()
    ensures GroupCounts([Todo]) == map[Todo := 1]
    ensures CompletionAsWritten(GroupCounts([Todo])) == NaN
    ensures Completion(GroupCounts([Todo])) == 0
  {
    var m := GroupCounts([Todo]);
    assert Count([Todo], HasStatus(Todo)) == 1;
    assert m == map[Todo := 1];
  }

  /** On the server's counts, the corrected completion is 0% exactly when under half a percent of the tasks are done, and 100% when all are. */
  lemma CompletionOfTasks(statuses: seq<Status>)
    requires |statuses| > 0
    ensures Completion(GroupCounts(statuses)) == 0 <==> 200 * Count(statuses, HasStatus(Done)) < |statuses|
    ensures (forall i :: 0 <= i < |statuses| ==> statuses[i] == Done) ==> Completion(GroupCounts(statuses)) == 100
  {
    var m := GroupCounts(statuses);
    TotalIsTaskCount(statuses);
    assert Shown(m, Done) == Count(statuses, HasStatus(Done)) by {
      if Done !in m { CountAbsent(statuses, Done); }
    }
    if forall i :: 0 <= i < |statuses| ==> statuses[i] == Done {
      StatusCountsSum(statuses);
      CountAbsent(statuses, Todo);
      CountAbsent(statuses, InProgress);
      RoundPercentEnds(Shown(m, Done), Total(m));
    }
  }
}
