/** The task store of `TaskContext.tsx`: the operations on the forest as
    functions from the old forest to the new one, and the lookups and
    queries.

    Identifier generation and the clock are parameters: `newId` is the
    identifier the store would generate, `now` the current timestamp and
    `today` the current calendar day. */
module Store {
  import opened Types
  import opened Sequences
  import opened Forest

  // ---------------------------------------------------------------------
  // getAllTasksFlat / getAllTasks

  /** The recursive `traverse` of `getAllTasksFlat`: push the task, then
      traverse each subtask in order. */
  method Traverse(t: Task, acc: seq<Task>) returns (result: seq<Task>)
    ensures result == acc + Flatten([t])
    decreases t
  {
    result := acc + [t];
    var k := 0;
    while k < |t.subtasks|
      invariant 0 <= k <= |t.subtasks|
      invariant result == acc + [t] + Flatten(t.subtasks[..k])
    {
      var child := t.subtasks[k];
      result := Traverse(child, result);
      FlattenAppend(t.subtasks[..k], [child]);
      assert t.subtasks[..k + 1] == t.subtasks[..k] + [child];
      k := k + 1;
    }
    assert t.subtasks[..k] == t.subtasks;
    SingletonTree(t);
  }

  /** `getAllTasksFlat`: traverse every root in order into one result. */
  method AllTasksFlat(ts: seq<Task>) returns (result: seq<Task>)
    ensures result == Flatten(ts)
  {
    result := [];
    var k := 0;
    while k < |ts|
      invariant 0 <= k <= |ts|
      invariant result == Flatten(ts[..k])
    {
      result := Traverse(ts[k], result);
      FlattenAppend(ts[..k], [ts[k]]);
      assert ts[..k + 1] == ts[..k] + [ts[k]];
      k := k + 1;
    }
    assert ts[..k] == ts;
  }

  // ---------------------------------------------------------------------
  // getTaskById

  /** `Array.prototype.find` by id: the first element holding the id. */
  function Find(s: seq<Task>, id: Id): (r: Option<Task>)
    ensures r.Some? ==> r.value.id == id && r.value in s
    ensures r.None? <==> forall t :: t in s ==> t.id != id
    ensures r.Some? ==> exists k :: 0 <= k < |s| && s[k] == r.value &&
                          forall j :: 0 <= j < k ==> s[j].id != id
    decreases |s|
  {
    if s == [] then None
    else if s[0].id == id then Some(s[0])
    else
      var r := Find(s[1..], id);
      if r.Some? then
        ghost var k :| 0 <= k < |s[1..]| && s[1..][k] == r.value &&
                       forall j :: 0 <= j < k ==> s[1..][j].id != id;
        assert s[k + 1] == r.value;
        r
      else r
  }

  lemma {:induction false} FindAppend(a: seq<Task>, b: seq<Task>, id: Id)
    ensures Find(a + b, id) == if Find(a, id).Some? then Find(a, id) else Find(b, id)
    decreases |a|
  {
    if a == [] {
      assert a + b == b;
    } else if a[0].id != id {
      assert (a + b)[1..] == a[1..] + b;
      FindAppend(a[1..], b, id);
    }
  }

  /** `getTaskById`: the first node of the flattening with the id. */
  function GetTaskById(ts: seq<Task>, id: Id): (r: Option<Task>)
    ensures r.Some? ==> r.value.id == id && r.value in Flatten(ts)
    ensures r.None? <==> forall t :: t in Flatten(ts) ==> t.id != id
  {
    Find(Flatten(ts), id)
  }

  /** Searching the flattening finds what a depth-first search of the tree
      finds. */
  lemma {:induction false} GetTaskByIdIsLookup(ts: seq<Task>, id: Id)
    ensures GetTaskById(ts, id) == Lookup(ts, id)
    decreases ts
  {
    if ts != [] {
      var t0, rest := ts[0], ts[1..];
      var a, b := Flatten(t0.subtasks), Flatten(rest);
      assert Flatten(ts) == [t0] + (a + b);
      FindAppend([t0], a + b, id);
      FindAppend(a, b, id);
      GetTaskByIdIsLookup(t0.subtasks, id);
      GetTaskByIdIsLookup(rest, id);
    }
  }

  lemma GetTaskByIdPresent(ts: seq<Task>, id: Id)
    ensures GetTaskById(ts, id).None? <==> id !in IdSet(ts)
  {
    GetTaskByIdIsLookup(ts, id);
  }

  // ---------------------------------------------------------------------
  // addTask

  /** The task `addTask`/`addSubtask` build from the caller's data. */
  function NewTask(data: TaskData, id: Id, parentId: Option<Id>, now: Timestamp): (t: Task)
    ensures t.id == id && t.parentId == parentId && t.subtasks == []
    ensures t.createdAt == now && t.updatedAt == now
    ensures t.title == data.title && t.status == data.status && t.completed == data.completed
    ensures t.priority == data.priority && t.dueDate == data.dueDate && t.tags == data.tags
    ensures t.order == data.order && t.duration == data.duration
  {
    Task(id, data.title, data.description, data.notes, data.dueDate, data.priority,
         data.status, data.tags, data.colorLabel, parentId, [], data.order, data.completed,
         now, now, data.startDate, data.duration)
  }

  /** `addTask`: a new root appended after the existing ones. */
  function AddTask(ts: seq<Task>, data: TaskData, newId: Id, now: Timestamp): (r: seq<Task>)
    ensures |r| == |ts| + 1 && r[..|ts|] == ts
    ensures r[|ts|] == NewTask(data, newId, data.parentId, now)
  {
    ts + [NewTask(data, newId, data.parentId, now)]
  }

  /** The flattening gains exactly the new task, at its end; a fresh
      identifier keeps identifiers unique. */
  lemma AddTaskEffect(ts: seq<Task>, data: TaskData, newId: Id, now: Timestamp)
    ensures Flatten(AddTask(ts, data, newId, now)) ==
            Flatten(ts) + [NewTask(data, newId, data.parentId, now)]
    ensures IdSet(AddTask(ts, data, newId, now)) == IdSet(ts) + {newId}
    ensures Size(AddTask(ts, data, newId, now)) == Size(ts) + 1
    ensures newId !in IdSet(ts) && UniqueIds(ts) ==> UniqueIds(AddTask(ts, data, newId, now))
  {
    var t := NewTask(data, newId, data.parentId, now);
    FlattenAppend(ts, [t]);
    UniqueAppend(ts, [t]);
    SingletonTree(t);
    UniqueSingleton(t);
  }

  // ---------------------------------------------------------------------
  // updateTask

  /** `{ ...task, ...updates, updatedAt: now }` */
  function Updated(t: Task, p: Patch, now: Timestamp): (r: Task)
    ensures r.updatedAt == now
    ensures r.(updatedAt := t.updatedAt) == Merge(t, p).(updatedAt := t.updatedAt)
  {
    Merge(t, p).(updatedAt := now)
  }

  function UpdateFn(p: Patch, now: Timestamp): Task -> Task {
    t => Updated(t, p, now)
  }

  /** `updateTask`: merge the patch into each node with the id. */
  function UpdateTask(ts: seq<Task>, id: Id, p: Patch, now: Timestamp): (r: seq<Task>)
    ensures |r| == |ts|
  {
    MapMatching(ts, id, UpdateFn(p, now))
  }

  lemma UpdateTaskMissing(ts: seq<Task>, id: Id, p: Patch, now: Timestamp)
    requires id !in IdSet(ts)
    ensures UpdateTask(ts, id, p, now) == ts
  {
    MapMatchingAbsent(ts, id, UpdateFn(p, now));
  }

  /** The node found by id afterwards is the found node merged with the
      patch and stamped with `now`. */
  lemma UpdateTaskLookup(ts: seq<Task>, id: Id, p: Patch, now: Timestamp)
    requires p.id.None? || p.id == Some(id)
    ensures Lookup(UpdateTask(ts, id, p, now), id) ==
            match Lookup(ts, id) case None => None case Some(t) => Some(Updated(t, p, now))
  {
    MapMatchingLookup(ts, id, UpdateFn(p, now));
  }

  /** Only the node with the id changes, and only its own fields: when the
      patch carries no subtasks, every other node of the flattening keeps
      its fields and the flattening keeps its length. */
  lemma UpdateTaskOnlyTarget(ts: seq<Task>, id: Id, p: Patch, now: Timestamp)
    requires UniqueIds(ts) && p.subtasks.None?
    ensures Heads(Flatten(UpdateTask(ts, id, p, now))) == Relabel(Flatten(ts), id, UpdateFn(p, now))
    ensures |Flatten(UpdateTask(ts, id, p, now))| == |Flatten(ts)|
  {
    MapMatchingFields(ts, id, UpdateFn(p, now));
  }

  /** The nodes with identifiers in `xs` are all found again, each with
      its own fields and its number of subtasks. */
  predicate KeepsShape(before: seq<Task>, after: seq<Task>, xs: set<Id>) {
    forall x :: x in xs ==>
      Lookup(before, x).Some? && Lookup(after, x).Some? &&
      Head(Lookup(after, x).value) == Head(Lookup(before, x).value) &&
      |Lookup(after, x).value.subtasks| == |Lookup(before, x).value.subtasks|
  }

  /** "Nothing else changes": with unique identifiers, an update that keeps
      the target's id, and subtasks in the patch (if any) that bring no
      identifier used outside the target's subtree, every node outside that
      subtree keeps its fields and its number of subtasks. */
  lemma UpdateTaskFrame(ts: seq<Task>, id: Id, p: Patch, now: Timestamp)
    requires UniqueIds(ts) && id in IdSet(ts)
    requires p.id.None? || p.id == Some(id)
    requires p.subtasks.Some? ==> IdSet(p.subtasks.value) !! (IdSet(ts) - IdSet([Lookup(ts, id).value]))
    ensures KeepsShape(ts, UpdateTask(ts, id, p, now), IdSet(ts) - IdSet([Lookup(ts, id).value]))
  {
    var f := UpdateFn(p, now);
    var t := Lookup(ts, id).value;
    assert f(t) == Updated(t, p, now);
    SingletonTree(t);
    SingletonTree(f(t));
    forall x | x in IdSet(ts) - IdSet([t])
      ensures Lookup(ts, x).Some? && Lookup(UpdateTask(ts, id, p, now), x).Some? &&
        Head(Lookup(UpdateTask(ts, id, p, now), x).value) == Head(Lookup(ts, x).value) &&
        |Lookup(UpdateTask(ts, id, p, now), x).value.subtasks| == |Lookup(ts, x).value.subtasks|
    {
      MapMatchingOutside(ts, id, f, x);
    }
  }

  /** With no subtasks in the patch the frame covers the target's subtree
      too: every node but the target keeps its fields and its number of
      subtasks, and the target keeps its subtasks. */
  lemma UpdateTaskFrameKeepSubtasks(ts: seq<Task>, id: Id, p: Patch, now: Timestamp)
    requires UniqueIds(ts)
    requires p.id.None? || p.id == Some(id)
    requires p.subtasks.None?
    ensures KeepsShape(ts, UpdateTask(ts, id, p, now), IdSet(ts) - {id})
    ensures id in IdSet(ts) ==>
      Lookup(UpdateTask(ts, id, p, now), id).Some? &&
      Lookup(UpdateTask(ts, id, p, now), id).value.subtasks == Lookup(ts, id).value.subtasks
  {
    var f := UpdateFn(p, now);
    if id !in IdSet(ts) {
      UpdateTaskMissing(ts, id, p, now);
    } else {
      var t := Lookup(ts, id).value;
      assert f(t) == Updated(t, p, now);
      SingletonTree(t);
      SingletonTree(f(t));
      MapMatchingLookup(ts, id, f);
      forall x | x in IdSet(ts) - {id}
        ensures Lookup(ts, x).Some? && Lookup(UpdateTask(ts, id, p, now), x).Some? &&
          Head(Lookup(UpdateTask(ts, id, p, now), x).value) == Head(Lookup(ts, x).value) &&
          |Lookup(UpdateTask(ts, id, p, now), x).value.subtasks| == |Lookup(ts, x).value.subtasks|
      {
        if x in IdSet([t]) {
          MapMatchingInside(ts, id, f, x);
        } else {
          MapMatchingOutside(ts, id, f, x);
        }
      }
    }
  }

  /** Why the frame asks for fresh subtasks: a patch whose subtasks reuse
      the identifier of a later root makes the lookup of that identifier
      find the patch's copy instead of the untouched root. */
  lemma UpdateTaskShadowsLaterNode(a: Task, b: Task, now: Timestamp)
    requires a.id != b.id && a.subtasks == [] && b.subtasks == []
    ensures var b' := b.(completed := !b.completed);
      var ts := [a, b];
      UniqueIds(ts) &&
      Lookup(UpdateTask(ts, a.id, EmptyPatch.(subtasks := Some([b'])), now), b.id) == Some(b') &&
      Head(b') != Head(b)
  {
    var b' := b.(completed := !b.completed);
    var ts := [a, b];
    var p := EmptyPatch.(subtasks := Some([b']));
    var f := UpdateFn(p, now);
    assert ts[1..] == [b];
    MapMatchingCons(ts, a.id, f);
    MapMatchingAbsent([b], a.id, f);
    var r := UpdateTask(ts, a.id, p, now);
    // uniqueness of the input
    SingletonTree(b);
    assert IdSet([]) == {};
    assert IdSet(ts[1..]) == {b.id};
    UniqueSingleton(b);
    assert UniqueIds([]);
    assert UniqueIds(ts);
    // the lookup descends into the patched root first
    assert r == [Updated(a, p, now), b];
    assert r[0].id == a.id && r[0].subtasks == [b'];
    assert Lookup(r[0].subtasks, b.id) == Some(b');
    assert Lookup(r, b.id) == Some(b');
    assert Head(b').completed != Head(b).completed;
  }

  /** An update that keeps the id and the subtasks keeps the identifiers,
      the node count and their uniqueness. */
  lemma UpdateTaskKeepsIds(ts: seq<Task>, id: Id, p: Patch, now: Timestamp)
    requires UniqueIds(ts)
    requires p.id.None? || p.id == Some(id)
    requires p.subtasks.None?
    ensures IdSet(UpdateTask(ts, id, p, now)) == IdSet(ts)
    ensures Size(UpdateTask(ts, id, p, now)) == Size(ts)
    ensures UniqueIds(UpdateTask(ts, id, p, now))
  {
    var f := UpdateFn(p, now);
    if Lookup(ts, id).None? {
      MapMatchingAbsent(ts, id, f);
    } else {
      var t := Lookup(ts, id).value;
      SingletonTree(t);
      SingletonTree(f(t));
      UniqueSingleton(t);
      UniqueSingleton(f(t));
      LookupSubtree(ts, id);
      MapMatchingSize(ts, id, f);
      MapMatchingIds(ts, id, f);
      MapMatchingUnique(ts, id, f);
    }
  }

  // ---------------------------------------------------------------------
  // deleteTask

  /** `deleteTask`: the cascading removal. */
  function DeleteTask(ts: seq<Task>, id: Id): (r: seq<Task>)
    ensures id !in IdSet(r)
  {
    Remove(ts, id)
  }

  /** Deleting a task removes it and all its descendants, and nothing else:
      the flattening shrinks by exactly the subtree's node count, and no
      identifier of the subtree survives. */
  lemma DeleteTaskCascades(ts: seq<Task>, id: Id)
    requires UniqueIds(ts) && Lookup(ts, id).Some?
    ensures |Flatten(DeleteTask(ts, id))| == |Flatten(ts)| - |Flatten([Lookup(ts, id).value])|
    ensures IdSet(DeleteTask(ts, id)) == IdSet(ts) - IdSet([Lookup(ts, id).value])
    ensures UniqueIds(DeleteTask(ts, id))
  {
    RemoveFound(ts, id);
    RemoveKeepsUnique(ts, id);
    FlattenLength(ts);
    FlattenLength(DeleteTask(ts, id));
    FlattenLength([Lookup(ts, id).value]);
  }

  lemma DeleteTaskMissing(ts: seq<Task>, id: Id)
    requires id !in IdSet(ts)
    ensures DeleteTask(ts, id) == ts
  {
    RemoveAbsent(ts, id);
  }

  lemma DeleteTaskKeepsOrder(ts: seq<Task>, id: Id)
    ensures IsSubseq(Heads(Flatten(DeleteTask(ts, id))), Heads(Flatten(ts)))
  {
    RemoveKeepsOrder(ts, id);
  }

  // ---------------------------------------------------------------------
  // toggleTaskComplete

  /** The toggled node: `completed` flips and `status` follows it. */
  function Toggled(t: Task, now: Timestamp): (r: Task)
    ensures r.completed == !t.completed
    ensures r.completed <==> r.status == Completed
    ensures r.status == if t.completed then Todo else Completed
    ensures r.updatedAt == now
    ensures r.id == t.id && r.subtasks == t.subtasks
  {
    t.(completed := !t.completed, status := if !t.completed then Completed else Todo,
       updatedAt := now)
  }

  function ToggleFn(now: Timestamp): Task -> Task {
    t => Toggled(t, now)
  }

  /** `toggleTaskComplete` */
  function ToggleTaskComplete(ts: seq<Task>, id: Id, now: Timestamp): (r: seq<Task>)
    ensures |r| == |ts|
  {
    MapMatching(ts, id, ToggleFn(now))
  }

  /** Toggling twice restores `completed`; it restores `status` exactly
      when the status was already coupled to `completed` (todo when not
      completed, completed when completed). */
  lemma ToggleTwice(t: Task, n1: Timestamp, n2: Timestamp)
    ensures Toggled(Toggled(t, n1), n2).completed == t.completed
    ensures Toggled(Toggled(t, n1), n2).status == t.status <==>
            t.status == (if t.completed then Completed else Todo)
  {
  }

  /** The same, through the store: the node found by id after two toggles
      is the doubly toggled original. Descendants are not touched. */
  lemma ToggleTaskCompleteTwice(ts: seq<Task>, id: Id, n1: Timestamp, n2: Timestamp)
    requires Lookup(ts, id).Some?
    ensures var t := Lookup(ts, id).value;
      Lookup(ToggleTaskComplete(ToggleTaskComplete(ts, id, n1), id, n2), id) ==
        Some(Toggled(Toggled(t, n1), n2)) &&
      Toggled(Toggled(t, n1), n2).completed == t.completed &&
      Toggled(Toggled(t, n1), n2).subtasks == t.subtasks
  {
    MapMatchingLookup(ts, id, ToggleFn(n1));
    MapMatchingLookup(ToggleTaskComplete(ts, id, n1), id, ToggleFn(n2));
  }

  /** Only the toggled node changes; its subtree and every other node keep
      their fields. */
  lemma ToggleTaskCompleteOnlyTarget(ts: seq<Task>, id: Id, now: Timestamp)
    requires UniqueIds(ts)
    ensures Heads(Flatten(ToggleTaskComplete(ts, id, now))) == Relabel(Flatten(ts), id, ToggleFn(now))
  {
    MapMatchingFields(ts, id, ToggleFn(now));
  }

  /** "Nothing else changes", node by node: every node but the toggled
      one keeps its fields and its number of subtasks, and the toggled one
      keeps its subtasks. */
  lemma ToggleTaskCompleteFrame(ts: seq<Task>, id: Id, now: Timestamp)
    requires UniqueIds(ts)
    ensures KeepsShape(ts, ToggleTaskComplete(ts, id, now), IdSet(ts) - {id})
    ensures id in IdSet(ts) ==>
      Lookup(ToggleTaskComplete(ts, id, now), id).Some? &&
      Lookup(ToggleTaskComplete(ts, id, now), id).value.subtasks == Lookup(ts, id).value.subtasks
  {
    var f := ToggleFn(now);
    if id !in IdSet(ts) {
      MapMatchingAbsent(ts, id, f);
    } else {
      var t := Lookup(ts, id).value;
      assert f(t) == Toggled(t, now);
      SingletonTree(t);
      SingletonTree(f(t));
      MapMatchingLookup(ts, id, f);
      forall x | x in IdSet(ts) - {id}
        ensures Lookup(ts, x).Some? && Lookup(ToggleTaskComplete(ts, id, now), x).Some? &&
          Head(Lookup(ToggleTaskComplete(ts, id, now), x).value) == Head(Lookup(ts, x).value) &&
          |Lookup(ToggleTaskComplete(ts, id, now), x).value.subtasks| == |Lookup(ts, x).value.subtasks|
      {
        if x in IdSet([t]) {
          MapMatchingInside(ts, id, f, x);
        } else {
          MapMatchingOutside(ts, id, f, x);
        }
      }
    }
  }

  lemma ToggleTaskCompleteMissing(ts: seq<Task>, id: Id, now: Timestamp)
    requires id !in IdSet(ts)
    ensures ToggleTaskComplete(ts, id, now) == ts
  {
    MapMatchingAbsent(ts, id, ToggleFn(now));
  }

  // ---------------------------------------------------------------------
  // addSubtask, and the re-attachment step of moveTask

  function WithChild(t: Task, c: Task): (r: Task)
    ensures r.id == t.id && r.subtasks == t.subtasks + [c]
    ensures Head(r) == Head(t)
  {
    t.(subtasks := t.subtasks + [c])
  }

  function AppendFn(c: Task): Task -> Task {
    t => WithChild(t, c)
  }

  /** Append `c` to the subtasks of each node with id `pid`. */
  function AppendChild(ts: seq<Task>, pid: Id, c: Task): (r: seq<Task>)
    ensures |r| == |ts|
  {
    MapMatching(ts, pid, AppendFn(c))
  }

  lemma AppendChildMissing(ts: seq<Task>, pid: Id, c: Task)
    requires pid !in IdSet(ts)
    ensures AppendChild(ts, pid, c) == ts
  {
    MapMatchingAbsent(ts, pid, AppendFn(c));
  }

  /** Appending a child to one node adds the child's nodes and
      identifiers to that node's, and keeps the subtree's identifiers
      unique when the child brings unused ones. */
  lemma WithChildTree(p: Task, c: Task)
    ensures Size([WithChild(p, c)]) == Size([p]) + Size([c])
    ensures IdSet([WithChild(p, c)]) == IdSet([p]) + IdSet([c])
    ensures UniqueIds([p]) && UniqueIds([c]) && IdSet([c]) !! IdSet([p]) ==>
            UniqueIds([WithChild(p, c)])
  {
    var q := WithChild(p, c);
    SingletonTree(p);
    SingletonTree(q);
    FlattenAppend(p.subtasks, [c]);
    UniqueSingleton(p);
    UniqueSingleton(q);
    UniqueAppend(p.subtasks, [c]);
  }

  /** Every node of `before` is found in `after` with the same fields, and
      every node other than `pid` has children with the same fields in the
      same order. */
  predicate KeepsNodes(before: seq<Task>, after: seq<Task>, pid: Id) {
    forall x :: x in IdSet(before) ==>
      Lookup(after, x).Some? &&
      Head(Lookup(after, x).value) == Head(Lookup(before, x).value) &&
      (x != pid ==> Heads(Lookup(after, x).value.subtasks) == Heads(Lookup(before, x).value.subtasks))
  }

  /** Appending never brings identifiers other than the child's. */
  lemma {:induction false} AppendChildIds(ts: seq<Task>, pid: Id, c: Task)
    ensures IdSet(AppendChild(ts, pid, c)) <= IdSet(ts) + IdSet([c])
    decreases ts
  {
    if ts != [] {
      MapMatchingCons(ts, pid, AppendFn(c));
      if ts[0].id == pid {
        WithChildTree(ts[0], c);
        SingletonTree(ts[0]);
        SingletonTree(WithChild(ts[0], c));
      } else {
        AppendChildIds(ts[0].subtasks, pid, c);
      }
      AppendChildIds(ts[1..], pid, c);
    }
  }

  /** "Nothing else changes": when the child brings unused identifiers,
      every node of the forest is still found afterwards with the same
      fields, and every node but the parent keeps the fields and order of
      its children. */
  lemma {:induction false} AppendChildFrame(ts: seq<Task>, pid: Id, c: Task, x: Id)
    requires UniqueIds(ts) && IdSet([c]) !! IdSet(ts) && x in IdSet(ts)
    ensures var n := Lookup(AppendChild(ts, pid, c), x);
      var o := Lookup(ts, x).value;
      n.Some? && Head(n.value) == Head(o) &&
      (x != pid ==> Heads(n.value.subtasks) == Heads(o.subtasks))
    decreases ts
  {
    var f := AppendFn(c);
    var t0, rest := ts[0], ts[1..];
    MapMatchingCons(ts, pid, f);
    var r := AppendChild(ts, pid, c);
    var r0 := r[0];
    assert r[1..] == AppendChild(rest, pid, c);
    if t0.id == pid {
      assert r0 == WithChild(t0, c);
      MapMatchingAbsent(rest, pid, f);
      if x != t0.id {
        LookupAppend(t0.subtasks, [c], x);
        FlattenAppend(t0.subtasks, [c]);
      }
    } else {
      assert r0 == t0.(subtasks := AppendChild(t0.subtasks, pid, c));
      if x == t0.id {
        MapMatchingHeads(t0.subtasks, pid, f);
      } else if x in IdSet(t0.subtasks) {
        AppendChildFrame(t0.subtasks, pid, c, x);
      } else {
        AppendChildIds(t0.subtasks, pid, c);
        AppendChildFrame(rest, pid, c, x);
      }
    }
  }

  lemma AppendChildKeepsNodes(ts: seq<Task>, pid: Id, c: Task)
    requires UniqueIds(ts) && IdSet([c]) !! IdSet(ts)
    ensures KeepsNodes(ts, AppendChild(ts, pid, c), pid)
  {
    forall x | x in IdSet(ts)
      ensures Lookup(AppendChild(ts, pid, c), x).Some? &&
        Head(Lookup(AppendChild(ts, pid, c), x).value) == Head(Lookup(ts, x).value) &&
        (x != pid ==> Heads(Lookup(AppendChild(ts, pid, c), x).value.subtasks) == Heads(Lookup(ts, x).value.subtasks))
    {
      AppendChildFrame(ts, pid, c, x);
    }
  }

  /** With unique identifiers and the parent present, `c`'s subtree joins
      the forest under that parent: the parent found afterwards has `c` as
      its last child, node count and identifiers grow by `c`'s, and when
      `c` brings unused identifiers these stay unique and every other node
      keeps its fields and its children. */
  lemma AppendChildFound(ts: seq<Task>, pid: Id, c: Task)
    requires UniqueIds(ts) && pid in IdSet(ts)
    ensures Lookup(AppendChild(ts, pid, c), pid) == Some(WithChild(Lookup(ts, pid).value, c))
    ensures Size(AppendChild(ts, pid, c)) == Size(ts) + Size([c])
    ensures IdSet(AppendChild(ts, pid, c)) == IdSet(ts) + IdSet([c])
    ensures UniqueIds([c]) && IdSet([c]) !! IdSet(ts) ==> UniqueIds(AppendChild(ts, pid, c))
    ensures IdSet([c]) !! IdSet(ts) ==> KeepsNodes(ts, AppendChild(ts, pid, c), pid)
  {
    var f := AppendFn(c);
    var p := Lookup(ts, pid).value;
    assert f(p) == WithChild(p, c);
    MapMatchingLookup(ts, pid, f);
    MapMatchingSize(ts, pid, f);
    MapMatchingIds(ts, pid, f);
    LookupSubtree(ts, pid);
    WithChildTree(p, c);
    if UniqueIds([c]) && IdSet([c]) !! IdSet(ts) {
      MapMatchingUnique(ts, pid, f);
    }
    if IdSet([c]) !! IdSet(ts) {
      AppendChildKeepsNodes(ts, pid, c);
    }
  }

  /** `addSubtask` */
  function AddSubtask(ts: seq<Task>, pid: Id, data: TaskData, newId: Id, now: Timestamp): (r: seq<Task>)
    ensures |r| == |ts|
  {
    AppendChild(ts, pid, NewTask(data, newId, Some(pid), now))
  }

  /** A missing parent makes `addSubtask` a no-op. */
  lemma AddSubtaskMissing(ts: seq<Task>, pid: Id, data: TaskData, newId: Id, now: Timestamp)
    requires pid !in IdSet(ts)
    ensures AddSubtask(ts, pid, data, newId, now) == ts
  {
    AppendChildMissing(ts, pid, NewTask(data, newId, Some(pid), now));
  }

  /** With the parent present, exactly one node is added, as the parent's
      last child and pointing back to it; every other node keeps its fields
      and its children. */
  lemma AddSubtaskFound(ts: seq<Task>, pid: Id, data: TaskData, newId: Id, now: Timestamp)
    requires UniqueIds(ts) && pid in IdSet(ts) && newId !in IdSet(ts)
    ensures var c := NewTask(data, newId, Some(pid), now);
      Lookup(AddSubtask(ts, pid, data, newId, now), pid) == Some(WithChild(Lookup(ts, pid).value, c)) &&
      c.parentId == Some(pid) &&
      Size(AddSubtask(ts, pid, data, newId, now)) == Size(ts) + 1 &&
      IdSet(AddSubtask(ts, pid, data, newId, now)) == IdSet(ts) + {newId} &&
      UniqueIds(AddSubtask(ts, pid, data, newId, now)) &&
      KeepsNodes(ts, AddSubtask(ts, pid, data, newId, now), pid)
  {
    var c := NewTask(data, newId, Some(pid), now);
    SingletonTree(c);
    UniqueSingleton(c);
    AppendChildFound(ts, pid, c);
  }

  // ---------------------------------------------------------------------
  // moveTask

  /** `moveTask`: find the task; remove every node with its id; re-attach
      the found subtree, with `parentId` and `order` replaced, as the last
      root or as the last child of each node with id `newParent`. */
  function MoveTask(ts: seq<Task>, id: Id, newParent: Option<Id>, newOrder: int): (r: seq<Task>)
    ensures GetTaskById(ts, id).None? ==> r == ts
  {
    match GetTaskById(ts, id)
    case None => ts
    case Some(task) =>
      var updated := Remove(ts, id);
      var moved := task.(parentId := newParent, order := newOrder);
      match newParent
      case None => updated + [moved]
      case Some(pid) => AppendChild(updated, pid, moved)
  }

  lemma MovedSubtree(t: Task, newParent: Option<Id>, newOrder: int)
    ensures var m := t.(parentId := newParent, order := newOrder);
      IdSet([m]) == IdSet([t]) && Size([m]) == Size([t]) && (UniqueIds([m]) <==> UniqueIds([t]))
  {
    var m := t.(parentId := newParent, order := newOrder);
    SingletonTree(t);
    SingletonTree(m);
    UniqueSingleton(t);
    UniqueSingleton(m);
  }

  lemma MoveTaskMissing(ts: seq<Task>, id: Id, newParent: Option<Id>, newOrder: int)
    requires id !in IdSet(ts)
    ensures MoveTask(ts, id, newParent, newOrder) == ts
  {
    GetTaskByIdPresent(ts, id);
  }

  /** Moving to the root level: the task becomes the last root with no
      parent and the new order, after the roots left by its removal;
      nothing is lost and identifiers stay unique. */
  lemma MoveTaskToRoot(ts: seq<Task>, id: Id, newOrder: int)
    requires UniqueIds(ts) && id in IdSet(ts)
    ensures var r := MoveTask(ts, id, None, newOrder);
      var t := Lookup(ts, id).value;
      r == Remove(ts, id) + [t.(parentId := None, order := newOrder)] &&
      r != [] && r[|r| - 1] == t.(parentId := None, order := newOrder) &&
      Size(r) == Size(ts) && IdSet(r) == IdSet(ts) && UniqueIds(r)
  {
    GetTaskByIdIsLookup(ts, id);
    var t := Lookup(ts, id).value;
    var m := t.(parentId := None, order := newOrder);
    RemoveFound(ts, id);
    RemoveKeepsUnique(ts, id);
    LookupSubtree(ts, id);
    MovedSubtree(t, None, newOrder);
    FlattenAppend(Remove(ts, id), [m]);
    UniqueAppend(Remove(ts, id), [m]);
  }

  /** A new parent that is not in the forest once the task is removed (in
      particular the task itself or one of its descendants) makes the move
      drop the task and its whole subtree. */
  lemma MoveTaskLostParent(ts: seq<Task>, id: Id, pid: Id, newOrder: int)
    requires id in IdSet(ts) && pid !in IdSet(Remove(ts, id))
    ensures MoveTask(ts, id, Some(pid), newOrder) == DeleteTask(ts, id)
  {
    GetTaskByIdPresent(ts, id);
    var t := GetTaskById(ts, id).value;
    AppendChildMissing(Remove(ts, id), pid, t.(parentId := Some(pid), order := newOrder));
  }

  /** So no cycle can form, but the forest can shrink: moving a task under
      itself or under one of its descendants deletes its subtree. */
  lemma MoveTaskIntoOwnSubtree(ts: seq<Task>, id: Id, pid: Id, newOrder: int)
    requires UniqueIds(ts) && id in IdSet(ts) && pid in IdSet([Lookup(ts, id).value])
    ensures MoveTask(ts, id, Some(pid), newOrder) == DeleteTask(ts, id)
    ensures Size(MoveTask(ts, id, Some(pid), newOrder)) == Size(ts) - Size([Lookup(ts, id).value])
  {
    RemoveFound(ts, id);
    MoveTaskLostParent(ts, id, pid, newOrder);
  }

  /** Moving under a parent that survives the removal: the parent gains the
      moved subtree as its last child, nothing is lost or duplicated, and
      every other node left by the removal keeps its fields and its
      children. */
  lemma MoveTaskUnderParent(ts: seq<Task>, id: Id, pid: Id, newOrder: int)
    requires UniqueIds(ts) && id in IdSet(ts) && pid in IdSet(Remove(ts, id))
    ensures var r := MoveTask(ts, id, Some(pid), newOrder);
      var m := Lookup(ts, id).value.(parentId := Some(pid), order := newOrder);
      Lookup(r, pid) == Some(WithChild(Lookup(Remove(ts, id), pid).value, m)) &&
      Size(r) == Size(ts) && IdSet(r) == IdSet(ts) && UniqueIds(r) &&
      KeepsNodes(Remove(ts, id), r, pid)
  {
    GetTaskByIdIsLookup(ts, id);
    var t := Lookup(ts, id).value;
    var m := t.(parentId := Some(pid), order := newOrder);
    RemoveFound(ts, id);
    RemoveKeepsUnique(ts, id);
    LookupSubtree(ts, id);
    MovedSubtree(t, Some(pid), newOrder);
    AppendChildFound(Remove(ts, id), pid, m);
  }

  // ---------------------------------------------------------------------
  // getTodayTasks / getOverdueTasks

  predicate DueToday(t: Task, today: Day) {
    t.dueDate == Some(today) && !t.completed
  }

  predicate IsOverdue(t: Task, today: Day) {
    t.dueDate.Some? && !t.completed && t.dueDate.value < today
  }

  /** `getTodayTasks`: open tasks due today, in pre-order. */
  function TodayTasks(ts: seq<Task>, today: Day): (r: seq<Task>)
    ensures forall t :: t in r <==> t in Flatten(ts) && DueToday(t, today)
  {
    Filter(Flatten(ts), t => DueToday(t, today))
  }

  /** `getOverdueTasks`: open tasks due before today, in pre-order. */
  function OverdueTasks(ts: seq<Task>, today: Day): (r: seq<Task>)
    ensures forall t :: t in r <==> t in Flatten(ts) && IsOverdue(t, today)
  {
    Filter(Flatten(ts), t => IsOverdue(t, today))
  }

  /** The two queries never share a task, and each lists tasks in the
      order of the flattening. */
  lemma TodayOverdueDisjoint(ts: seq<Task>, today: Day)
    ensures forall t :: !(t in TodayTasks(ts, today) && t in OverdueTasks(ts, today))
    ensures IsSubseq(TodayTasks(ts, today), Flatten(ts))
    ensures IsSubseq(OverdueTasks(ts, today), Flatten(ts))
  {
    FilterSubseq(Flatten(ts), t => DueToday(t, today));
    FilterSubseq(Flatten(ts), t => IsOverdue(t, today));
  }

  /** Adding an open root task due today puts it among today's tasks;
      toggling it complete takes every task with its id out again. */
  lemma TodayScenario(ts: seq<Task>, data: TaskData, newId: Id, now: Timestamp, later: Timestamp, today: Day)
    requires UniqueIds(ts) && newId !in IdSet(ts)
    requires data.dueDate == Some(today) && !data.completed
    ensures var added := AddTask(ts, data, newId, now);
      NewTask(data, newId, data.parentId, now) in TodayTasks(added, today) &&
      forall t :: t in TodayTasks(ToggleTaskComplete(added, newId, later), today) ==> t.id != newId
  {
    var t1 := NewTask(data, newId, data.parentId, now);
    var added := AddTask(ts, data, newId, now);
    AddTaskEffect(ts, data, newId, now);
    LookupUnique(added, t1);
    var toggled := ToggleTaskComplete(added, newId, later);
    MapMatchingLookup(added, newId, ToggleFn(later));
    ToggleKeepsUnique(added, newId, later);
    forall t | t in TodayTasks(toggled, today) ensures t.id != newId {
      if t.id == newId {
        LookupUnique(toggled, t);
        assert false;
      }
    }
  }

  /** Toggling keeps identifiers unique. */
  lemma ToggleKeepsUnique(ts: seq<Task>, id: Id, now: Timestamp)
    requires UniqueIds(ts)
    ensures UniqueIds(ToggleTaskComplete(ts, id, now))
  {
    var t := Lookup(ts, id);
    if t.None? {
      MapMatchingAbsent(ts, id, ToggleFn(now));
    } else {
      SingletonTree(t.value);
      SingletonTree(Toggled(t.value, now));
      UniqueSingleton(t.value);
      UniqueSingleton(Toggled(t.value, now));
      LookupSubtree(ts, id);
      MapMatchingUnique(ts, id, ToggleFn(now));
    }
  }

}
