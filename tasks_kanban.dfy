/**
 * The task board: one column per status, each showing how many tasks it holds, and the
 * drop handler that moves a dragged task to the column it is dropped on.
 */
module TasksKanban {
  import opened Wrappers
  import opened Seqs
  import opened Domain
  import opened ClientTypes

  /** A place on the board: a column (its id is a status name) and a position in it. */
  datatype Location = Location(droppableId: Status, index: int)

  /** What the drag-and-drop library reports when a drag ends; no destination means dropped outside. */
  datatype DropResult = DropResult(source: Location, destination: Option<Location>, draggableId: string)

  /** The board after a drop: unchanged, or the new list and the task sent to the server. */
  datatype DragOutcome = Unchanged | Moved(tasks: seq<ClientTask>, request: ClientTask)

  /** Every task carrying `id` gets status `st`; everything else is left as it was. */
  function Restatus(tasks: seq<ClientTask>, id: string, st: Status): (r: seq<ClientTask>)
    ensures |r| == |tasks|
    ensures forall i :: 0 <= i < |r| ==> r[i].(status := tasks[i].status) == tasks[i]
    ensures forall i :: 0 <= i < |r| ==> r[i].status == if tasks[i].id == id then st else tasks[i].status
  {
    seq(|tasks|, i requires 0 <= i < |tasks| => if tasks[i].id == id then tasks[i].(status := st) else tasks[i])
  }

  function HasId(id: string): ClientTask -> bool {
    (t: ClientTask) => t.id == id
  }

  /**
   * `onDragEnd`: nothing happens when the task is dropped outside a column, back on its
   * own place, or is not in the list; otherwise its status becomes the destination
   * column and the moved task, with that status, is what is sent.
   */
  function OnDragEnd(tasks: seq<ClientTask>, d: DropResult): (r: DragOutcome)
    ensures d.destination.None? ==> r.Unchanged?
    ensures d.destination == Some(d.source) ==> r.Unchanged?
    ensures IndexOf(tasks, ClientTaskKey, d.draggableId).None? ==> r.Unchanged?
    ensures r.Moved? ==>
              && d.destination.Some? && d.destination != Some(d.source)
              && r.tasks == Restatus(tasks, d.draggableId, d.destination.value.droppableId)
              && r.request.id == d.draggableId
              && r.request.status == d.destination.value.droppableId
              && r.request.(status := tasks[IndexOf(tasks, ClientTaskKey, d.draggableId).value].status)
                 == tasks[IndexOf(tasks, ClientTaskKey, d.draggableId).value]
  {
    if d.destination.None? then Unchanged
    else if d.destination.value.droppableId == d.source.droppableId && d.destination.value.index == d.source.index then Unchanged
    else match IndexOf(tasks, ClientTaskKey, d.draggableId)
      case None => Unchanged
      case Some(k) =>
        var dest := d.destination.value.droppableId;
        Moved(Restatus(tasks, d.draggableId, dest), tasks[k].(status := dest))
  }

  /** A drop counts as a move exactly when it lands somewhere new and the task is on the board. */
  lemma MovedIff(tasks: seq<ClientTask>, d: DropResult)
    ensures OnDragEnd(tasks, d).Moved? <==>
              && d.destination.Some? && d.destination != Some(d.source)
              && exists t :: t in tasks && t.id == d.draggableId
  {
    IndexOfFound(tasks, ClientTaskKey, d.draggableId);
    if d.destination.Some? && d.destination != Some(d.source) {
      assert d.destination.value.droppableId != d.source.droppableId || d.destination.value.index != d.source.index;
    }
  }

  /**
   * Reordering inside one column changes nothing in the list: the dragged task already
   * has that column's status (the request is still sent).
   */
  lemma ReorderKeepsList(tasks: seq<ClientTask>, d: DropResult)
    requires d.destination.Some? && d.destination.value.droppableId == d.source.droppableId
    requires forall i :: 0 <= i < |tasks| && tasks[i].id == d.draggableId ==> tasks[i].status == d.source.droppableId
    ensures OnDragEnd(tasks, d).Moved? ==> OnDragEnd(tasks, d).tasks == tasks
  {
    var r := Restatus(tasks, d.draggableId, d.source.droppableId);
    assert forall i :: 0 <= i < |tasks| ==> r[i] == tasks[i];
  }

  /** The tasks in the column for status `st`. */
  function InColumn(st: Status): ClientTask -> bool {
    (t: ClientTask) => t.status == st
  }

  /** The number shown in a column's header. */
  function ColumnCount(tasks: seq<ClientTask>, st: Status): nat {
    Count(tasks, InColumn(st))
  }

  /** The three column counts add up to the number of tasks. */
  lemma {:induction false} ColumnCountsSum(tasks: seq<ClientTask>)
    ensures ColumnCount(tasks, Todo) + ColumnCount(tasks, InProgress) + ColumnCount(tasks, Done) == |tasks|
    decreases |tasks|
  {
    if tasks != [] {
      ColumnCountsSum(tasks[1..]);
    }
  }

  /** The tasks carrying `id` and standing in column `st`. */
  function IdInColumn(id: string, st: Status): ClientTask -> bool {
    (t: ClientTask) => t.id == id && t.status == st
  }

  /**
   * A move empties the dragged task out of every column but the destination: a column
   * loses the tasks with that id it held, and the destination gains all tasks with that id.
   */
  lemma {:induction false} RestatusCounts(tasks: seq<ClientTask>, id: string, dest: Status, st: Status)
    ensures ColumnCount(Restatus(tasks, id, dest), st) + Count(tasks, IdInColumn(id, st))
            == ColumnCount(tasks, st) + (if st == dest then Count(tasks, HasId(id)) else 0)
    decreases |tasks|
  {
    if tasks != [] {
      var r := Restatus(tasks, id, dest);
      assert r[1..] == Restatus(tasks[1..], id, dest);
      RestatusCounts(tasks[1..], id, dest, st);
    }
  }

  /** With a task whose id is unique, moving it from one column to another shifts one unit of count. */
  lemma MoveShiftsCounts(tasks: seq<ClientTask>, k: nat, dest: Status)
    requires DistinctKeys(tasks, ClientTaskKey)
    requires k < |tasks| && tasks[k].status != dest
    ensures ColumnCount(Restatus(tasks, tasks[k].id, dest), tasks[k].status) == ColumnCount(tasks, tasks[k].status) - 1
    ensures ColumnCount(Restatus(tasks, tasks[k].id, dest), dest) == ColumnCount(tasks, dest) + 1
  {
    var id, src := tasks[k].id, tasks[k].status;
    RestatusCounts(tasks, id, dest, src);
    RestatusCounts(tasks, id, dest, dest);
    OnlyOne(tasks, k, HasId(id));
    OnlyOne(tasks, k, IdInColumn(id, src));
    forall i | 0 <= i < |tasks| ensures !IdInColumn(id, dest)(tasks[i]) {
      if i != k {
        assert tasks[i].id != id by {
          if i < k { assert ClientTaskKey(tasks[i]) != ClientTaskKey(tasks[k]); }
          else { assert ClientTaskKey(tasks[k]) != ClientTaskKey(tasks[i]); }
        }
      }
    }
    NoneOf(tasks, IdInColumn(id, dest));
  }

  /** With distinct ids, a predicate that only the element at `k` can satisfy, and does, counts one. */
  lemma {:induction false} OnlyOne(tasks: seq<ClientTask>, k: nat, p: ClientTask -> bool)
    requires DistinctKeys(tasks, ClientTaskKey)
    requires k < |tasks| && p(tasks[k])
    requires forall t :: p(t) ==> t.id == tasks[k].id
    ensures Count(tasks, p) == 1
    decreases |tasks|
  {
    if k == 0 {
      NoneOf(tasks[1..], p);
    } else {
      assert ClientTaskKey(tasks[0]) != ClientTaskKey(tasks[k]);
      assert tasks[1..][k - 1] == tasks[k];
      OnlyOne(tasks[1..], k - 1, p);
    }
  }

  /** A predicate no element satisfies counts zero. */
  lemma {:induction false} NoneOf(tasks: seq<ClientTask>, p: ClientTask -> bool)
    requires forall i :: 0 <= i < |tasks| ==> !p(tasks[i])
    ensures Count(tasks, p) == 0
    decreases |tasks|
  {
    if tasks != [] {
      NoneOf(tasks[1..], p);
    }
  }
}
