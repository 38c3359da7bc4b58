/** The logic of `KanbanView.tsx`: the four status columns over the
    flattened forest, and the drop of a card onto a column. */
module Kanban {
  import opened Types
  import opened Sequences
  import opened Forest
  import opened Store

  /** The board's columns, left to right, with their titles. */
  const Columns: seq<(Status, string)> :=
    [(Todo, "To Do"), (InProgress, "In Progress"), (Review, "Review"), (Completed, "Completed")]

  lemma ColumnsInBoardOrder()
    ensures |Columns| == 4
    ensures forall i :: 0 <= i < 4 ==> Columns[i].0 == AllStatuses[i]
  {
  }

  function HasStatus(st: Status): Task -> bool {
    (t: Task) => t.status == st
  }

  /** One entry of `tasksByStatus`: the tasks of the flattening with the
      given status, in pre-order. */
  function Column(all: seq<Task>, st: Status): (r: seq<Task>)
    ensures forall t :: t in r <==> t in all && t.status == st
  {
    Filter(all, HasStatus(st))
  }

  /** `tasksByStatus`, indexed like `Columns`. */
  function TasksByStatus(ts: seq<Task>): (r: seq<seq<Task>>)
    ensures |r| == 4
  {
    var all := Flatten(ts);
    [Column(all, Todo), Column(all, InProgress), Column(all, Review), Column(all, Completed)]
  }

  /** The four columns split a sequence of tasks: their sizes add up to its
      length and together they hold each task as often as it does. */
  lemma ColumnsPartition(all: seq<Task>)
    ensures |Column(all, Todo)| + |Column(all, InProgress)| + |Column(all, Review)| +
            |Column(all, Completed)| == |all|
    ensures multiset(Column(all, Todo)) + multiset(Column(all, InProgress)) +
            multiset(Column(all, Review)) + multiset(Column(all, Completed)) == multiset(all)
  {
    FilterPartition(all, HasStatus(Todo), HasStatus(InProgress), HasStatus(Review), HasStatus(Completed));
  }

  /** The board shows every task of the forest in exactly one column, the
      one of its status, and each column keeps the pre-order. */
  lemma TasksByStatusCorrect(ts: seq<Task>)
    ensures var cols := TasksByStatus(ts);
      (forall i :: 0 <= i < 4 ==> IsSubseq(cols[i], Flatten(ts))) &&
      (forall i, t :: 0 <= i < 4 && t in Flatten(ts) ==> (t in cols[i] <==> Columns[i].0 == t.status)) &&
      |cols[0]| + |cols[1]| + |cols[2]| + |cols[3]| == Size(ts)
  {
    var all := Flatten(ts);
    var cols := TasksByStatus(ts);
    assert forall i :: 0 <= i < 4 ==> cols[i] == Column(all, Columns[i].0);
    ColumnsPartition(all);
    FlattenLength(ts);
    forall i | 0 <= i < 4 ensures IsSubseq(cols[i], all) {
      FilterSubseq(all, HasStatus(Columns[i].0));
    }
  }

  /** The update `handleDrop` sends: the status alone. */
  function StatusPatch(st: Status): (p: Patch)
    ensures forall t: Task :: Merge(t, p) == t.(status := st)
  {
    EmptyPatch.(status := Some(st))
  }

  /** The drop handler of a column: a card whose (dragged) status differs
      from the column's is updated to the column's status; otherwise the
      drop is ignored. */
  function Drop(ts: seq<Task>, itemId: Id, itemStatus: Status, column: Status, now: Timestamp): (r: seq<Task>)
    ensures itemStatus == column ==> r == ts
  {
    if itemStatus != column then UpdateTask(ts, itemId, StatusPatch(column), now) else ts
  }

  /** A drop onto another column changes the task's status and its update
      time and nothing else; in particular `completed` is kept. */
  lemma DropChangesOnlyStatus(ts: seq<Task>, itemId: Id, itemStatus: Status, column: Status, now: Timestamp)
    requires itemStatus != column
    ensures Lookup(Drop(ts, itemId, itemStatus, column, now), itemId) ==
            match Lookup(ts, itemId)
            case None => None
            case Some(t) => Some(t.(status := column, updatedAt := now))
  {
    UpdateTaskLookup(ts, itemId, StatusPatch(column), now);
  }

  /** So dragging an open task into the completed column leaves it with
      status completed but not marked completed, the pairing that
      `toggleTaskComplete` never produces. */
  lemma DropIntoCompletedKeepsOpen(ts: seq<Task>, itemId: Id, itemStatus: Status, now: Timestamp)
    requires itemStatus != Completed
    requires Lookup(ts, itemId).Some? && !Lookup(ts, itemId).value.completed
    ensures var t := Lookup(Drop(ts, itemId, itemStatus, Completed, now), itemId);
      t.Some? && t.value.status == Completed && !t.value.completed
  {
    DropChangesOnlyStatus(ts, itemId, itemStatus, Completed, now);
  }

  /** A drop never adds, loses or renames a task. */
  lemma DropKeepsForest(ts: seq<Task>, itemId: Id, itemStatus: Status, column: Status, now: Timestamp)
    requires UniqueIds(ts)
    ensures var r := Drop(ts, itemId, itemStatus, column, now);
      IdSet(r) == IdSet(ts) && Size(r) == Size(ts) && UniqueIds(r)
  {
    if itemStatus != column {
      UpdateTaskKeepsIds(ts, itemId, StatusPatch(column), now);
    }
  }
}
