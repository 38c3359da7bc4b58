# Task manager core in Dafny

This project models the logic of a single-page task manager written in
React and TypeScript.

The data is a forest of tasks. Each task owns its subtasks, and the forest
sits in one `tasks` state of the task provider (`TaskContext.tsx`). The
provider's operations each return a new forest:
- flattening a forest to pre-order;
- looking a task up by id;
- adding a root task or a subtask;
- merging a partial update into a task;
- deleting a task together with its subtree;
- toggling completion;
- moving a subtree under a new parent;
- the "due today" and "overdue" queries.

The model also covers the logic of the views built on the provider:
- the list view: a recursive filter, a recursive sort by one of five keys, and the set of expanded rows;
- the Kanban board: a partition by status, and a card drop that changes a task's status;
- the dashboard: counts, the rounded progress percentage and the two chart series;
- the task form: the comma-separated tag field and its pre-fill, the duration fallback, the default form and the save guard;
- the application shell: which view is shown, and what the modal is editing.

Layout, one module per file:
- `types.dfy` (`Types`): the task record, its enumerations, the partial task `Patch` and the spread `Merge`.
- `sequences.dfy` (`Sequences`): subsequences and a stable filter, with its partition property.
- `forest.dfy` (`Forest`): the forest's functions.
  - Flattening, size and id set; unique ids; lookup.
  - `MapMatching` is the one recursion shape shared by `updateTask`, `toggleTaskComplete`, `addSubtask` and the re-insertion in `moveTask`: a node whose id matches is replaced by `f(node)` and not searched further; elsewhere the recursion descends.
  - `Remove` models the removal `deleteTask` and `moveTask` use.
- `store.dfy` (`Store`): each provider operation as a function from the old forest to the new one, with its lemmas. The recursive flatten helper is a method with a loop over the subtasks.
- `taskcontext.dfy` (`TaskContext`): the provider as a class `TaskStore`. Its one field `tasks` is replaced by every operation. Each method keeps the ids unique, except that `UpdateTask` keeps them unique only for a patch that keeps the id and carries no subtasks.
- `listview.dfy` (`ListView`): the filter; the comparator as written; the sort; the expanded set as the class `ExpandState`.
- `kanban.dfy` (`Kanban`), `dashboard.dfy` (`Dashboard`).
- `taskmodal.dfy` (`TaskModal`): the split/trim/filter tag pipeline and `parseInt`, as functions. The form state is the class `TaskForm`.
- `app.dfy` (`App`): the shell state as the class `AppShell`.

Stand-ins for things outside the model:
- Dates are integer day numbers. Timestamps are integers.
- The JavaScript `number` fields `order` and `duration` (src/app/types/task.ts) are Dafny `int`s: no path of the core produces a fraction (the form parses `duration` with `parseInt`, falling back to 1; the form defaults are `duration` 1 and `order` 0; a move stores the `newOrder` it is given).
- The current day (`today`) and the current time (`now`) are parameters.
- A generated id (`newId`) is a parameter that must be absent from the forest.

Two behaviours of the source are stated as they are. Neither is corrected.
- `moveTask` removes the subtree first and then looks for the new parent. If the parent has gone (it was inside the moved subtree) or never existed, the subtree is silently lost: `MoveTaskLostParent`, `MoveTaskIntoOwnSubtree`.
- A Kanban drop into the completed column sets the status but not `completed`: `DropIntoCompletedKeepsOpen`.

## Model

| member | source | states |
|---|---|---|
| Types.Merge | src/app/context/TaskContext.tsx:234 | the spread `{...task, ...updates}`: each of the seventeen fields the patch carries wins, every field it does not carry keeps the task's value, and the empty patch changes nothing |
| Types.AsPatch | src/app/components/TaskModal.tsx:71 | a task as a complete patch: merging it into any task yields that task |
| Types.PriorityRank | src/app/components/views/ListView.tsx:232-234 | the priority sort rank, urgent 0 to low 3, below 4 |
| Types.StatusRank | src/app/components/views/ListView.tsx:235-237 | the status sort rank, todo 0 to completed 3, below 4 |
| Types.EnumerationsComplete | src/app/types/task.ts:1-2 | each of the two enumerations is listed exactly once in order, and both ranks are one-to-one |
| Sequences.Filter | src/app/components/views/KanbanView.tsx:149-152 | `Array.prototype.filter`: keeps exactly the elements satisfying the predicate, no more of them than there were |
| Sequences.FilterSubseq | src/app/components/views/KanbanView.tsx:149-152 | a filter keeps the order of what it keeps |
| Sequences.FilterAppend | src/app/components/TaskModal.tsx:97 | filtering a concatenation is concatenating the filtered parts |
| Sequences.FilterPartition | src/app/components/views/KanbanView.tsx:147-154 | four mutually exclusive, exhaustive predicates split a sequence: the lengths add up and the multisets add up to the whole |
| Forest.Flatten | src/app/context/TaskContext.tsx:200-208 | the pre-order flattening: a node, then its subtasks' flattening, then its younger siblings' |
| Forest.Size | src/app/context/TaskContext.tsx:200-208 | the node count, one for each node at every depth |
| Forest.IdSet | src/app/types/task.ts:5 | the ids of all nodes at every depth |
| Forest.UniqueIds | src/app/types/task.ts:5 | no node shares its id with a node of its own subtree or of a younger sibling's subtree |
| Forest.FlattenLength | src/app/context/TaskContext.tsx:200-208 | the flattening has one entry per node of the forest |
| Forest.FlattenAppend | src/app/context/TaskContext.tsx:200-208 | flattening distributes over concatenation, and so do size and id set |
| Forest.SingletonTree | src/app/context/TaskContext.tsx:202-205 | a node comes before its subtasks' flattening |
| Forest.FlattenMember | src/app/context/TaskContext.tsx:200-208 | a node is in the flattening of a level iff it is in the flattening of one of the level's trees |
| Forest.FlattenPermutation | src/app/components/views/ListView.tsx:226 | two levels holding the same trees in any order flatten to the same set of nodes |
| Forest.UniqueAppend | src/app/types/task.ts:5 | ids are unique in a concatenation iff unique in each part and the parts share none |
| Forest.UniqueSingleton | src/app/types/task.ts:5 | a single tree has unique ids iff its root's id is not below it and its subtasks have unique ids |
| Forest.UniqueByCount | src/app/types/task.ts:5 | there are never more distinct ids than nodes, with equality exactly when ids are unique |
| Forest.IdSetFlatten | src/app/context/TaskContext.tsx:214-217 | an id is in the forest iff some node of the flattening has it |
| Forest.Lookup | src/app/context/TaskContext.tsx:214-217 | the depth-first search for an id: what it finds has the id, and it finds nothing iff no node has the id |
| Forest.LookupInFlatten | src/app/context/TaskContext.tsx:214-217 | the found task is a node of the flattening |
| Forest.LookupUnique | src/app/context/TaskContext.tsx:214-217 | with unique ids, looking up a node's id finds that node |
| Forest.LookupAppend | src/app/context/TaskContext.tsx:214-217 | a lookup in a concatenation finds the first part's node if the id is there, else the second part's |
| Forest.LookupSubtree | src/app/context/TaskContext.tsx:214-217 | the found subtree's ids and size lie within the forest's, and it inherits unique ids |
| Forest.FlattenSubtree | src/app/context/TaskContext.tsx:200-208 | the subtree of any node of the flattening lies within the forest |
| Forest.MapMatching | src/app/context/TaskContext.tsx:231-241 | the recursive map shared by update, toggle and add-subtask: it keeps the number of roots |
| Forest.MapMatchingAbsent | src/app/context/TaskContext.tsx:231-241 | replacing the nodes with an absent id changes nothing |
| Forest.MapMatchingLookup | src/app/context/TaskContext.tsx:231-241 | after replacing the node with id `id` by `f(node)` (id kept), the lookup finds `f` of the old node, or nothing if there was none |
| Forest.MapMatchingSize | src/app/context/TaskContext.tsx:231-241 | the new size is the old size less the replaced subtree plus its replacement |
| Forest.MapMatchingIds | src/app/context/TaskContext.tsx:231-241 | the new id set is the old one less the replaced subtree's plus its replacement's |
| Forest.MapMatchingUnique | src/app/context/TaskContext.tsx:231-241 | a replacement with unique ids, disjoint from the rest of the forest, keeps ids unique |
| Forest.MapMatchingFields | src/app/context/TaskContext.tsx:231-241 | a replacement that keeps subtasks changes the flattening at the target only: the flattening's nodes stripped of children are relabelled at the matching id |
| Forest.MapMatchingHeads | src/app/context/TaskContext.tsx:231-241 | a replacement that keeps the matched node's own fields keeps the roots' fields in order |
| Forest.MapMatchingOutside | src/app/context/TaskContext.tsx:231-241 | with unique ids and a replacement bringing no id used outside the matched subtree, every node outside that subtree is still found with its own fields and the rewrite applied to its subtasks |
| Forest.MapMatchingInside | src/app/context/TaskContext.tsx:231-241 | a replacement that keeps the matched node's id and subtasks leaves every node below it found unchanged |
| Forest.RelabelMember | src/app/context/TaskContext.tsx:231-241 | the relabelling of a flattening changes exactly the entries whose id matches |
| Forest.Remove | src/app/context/TaskContext.tsx:246-253 | the recursive removal: no more roots, the id is gone, ids and size only shrink |
| Forest.RemoveAbsent | src/app/context/TaskContext.tsx:246-253 | removing an absent id changes nothing |
| Forest.RemoveFound | src/app/context/TaskContext.tsx:246-253 | with unique ids, removal takes away exactly the found subtree: its ids and its size |
| Forest.RemoveKeepsUnique | src/app/context/TaskContext.tsx:246-253 | removal keeps ids unique |
| Forest.RemoveKeepsOrder | src/app/context/TaskContext.tsx:246-253 | removal keeps the pre-order of the remaining nodes |
| Store.Traverse | src/app/context/TaskContext.tsx:202-205 | `traverse` pushes a node and then each subtask's traversal: the accumulator grows by exactly the node's pre-order flattening |
| Store.AllTasksFlat | src/app/context/TaskContext.tsx:200-212 | `getAllTasksFlat` (and `getAllTasks`) returns exactly the pre-order flattening |
| Store.Find | src/app/context/TaskContext.tsx:214-217 | `Array.prototype.find`: the first element with the id, or none iff no element has it |
| Store.GetTaskById | src/app/context/TaskContext.tsx:214-217 | the found task is in the flattening and has the id; nothing is found iff no node has it |
| Store.GetTaskByIdIsLookup | src/app/context/TaskContext.tsx:214-217 | searching the flattening finds the same task as the depth-first search |
| Store.GetTaskByIdPresent | src/app/context/TaskContext.tsx:214-217 | a lookup fails exactly for ids absent from the forest |
| Store.NewTask | src/app/context/TaskContext.tsx:220-226 | the new task has the generated id, both timestamps `now`, no subtasks, and the caller's fields |
| Store.AddTask | src/app/context/TaskContext.tsx:219-228 | `addTask` appends the new task as the last root and keeps every existing root |
| Store.AddTaskEffect | src/app/context/TaskContext.tsx:219-228 | the flattening gains the new task at its end, the ids gain the new id, the size grows by one, unique ids stay unique |
| Store.UpdateTask | src/app/context/TaskContext.tsx:230-243 | `updateTask` keeps the number of roots |
| Store.Updated | src/app/context/TaskContext.tsx:233-235 | the updated task is the merge of the patch, with update time `now` |
| Store.UpdateTaskMissing | src/app/context/TaskContext.tsx:230-243 | updating an absent id changes nothing |
| Store.UpdateTaskLookup | src/app/context/TaskContext.tsx:230-243 | the task with the id becomes its merge with the patch (update time `now`); without it the lookup still fails |
| Store.UpdateTaskOnlyTarget | src/app/context/TaskContext.tsx:230-243 | with unique ids and no patched subtasks, only the target node of the flattening changes |
| Store.UpdateTaskFrame | src/app/context/TaskContext.tsx:230-243 | with unique ids, a patch keeping the id, and patched subtasks with no id used outside the target's subtree, every node outside that subtree keeps its fields and its number of subtasks |
| Store.UpdateTaskFrameKeepSubtasks | src/app/context/TaskContext.tsx:230-243 | with no patched subtasks, every node but the target keeps its fields and number of subtasks, and the target keeps its subtasks |
| Store.UpdateTaskShadowsLaterNode | src/app/context/TaskContext.tsx:230-243 | patched subtasks reusing a later root's id make the lookup of that id find the patch's copy, with other fields |
| Store.UpdateTaskKeepsIds | src/app/context/TaskContext.tsx:230-243 | a patch that keeps the id and the subtasks keeps the id set, the size and unique ids |
| Store.DeleteTask | src/app/context/TaskContext.tsx:245-255 | after `deleteTask` the id is gone from the forest |
| Store.DeleteTaskCascades | src/app/context/TaskContext.tsx:245-255 | the whole subtree is deleted with the task: exactly its nodes and its ids disappear |
| Store.DeleteTaskMissing | src/app/context/TaskContext.tsx:245-255 | deleting an absent id changes nothing |
| Store.DeleteTaskKeepsOrder | src/app/context/TaskContext.tsx:245-255 | the remaining nodes keep their pre-order |
| Store.ToggleTaskComplete | src/app/context/TaskContext.tsx:257-276 | `toggleTaskComplete` keeps the number of roots |
| Store.Toggled | src/app/context/TaskContext.tsx:261-268 | the toggle flips `completed`, sets status completed or todo to match, stamps `now`, keeps id and subtasks |
| Store.ToggleTwice | src/app/context/TaskContext.tsx:261-268 | toggling twice restores `completed`; it restores the status iff that status matched the completion flag |
| Store.ToggleTaskCompleteTwice | src/app/context/TaskContext.tsx:257-276 | toggling the same task twice in the forest leaves it with its old completion flag and subtasks |
| Store.ToggleTaskCompleteOnlyTarget | src/app/context/TaskContext.tsx:257-276 | with unique ids only the target node of the flattening changes |
| Store.ToggleTaskCompleteFrame | src/app/context/TaskContext.tsx:257-276 | with unique ids, every node but the toggled one keeps its fields and number of subtasks, and the toggled one keeps its subtasks |
| Store.ToggleTaskCompleteMissing | src/app/context/TaskContext.tsx:257-276 | toggling an absent id changes nothing |
| Store.ToggleKeepsUnique | src/app/context/TaskContext.tsx:257-276 | toggling keeps ids unique |
| Store.WithChild | src/app/context/TaskContext.tsx:290-294 | the parent gets the child as its last subtask and is otherwise unchanged |
| Store.WithChildTree | src/app/context/TaskContext.tsx:290-294 | appending a child adds its size and its ids, and keeps ids unique when they are disjoint |
| Store.AppendChild | src/app/context/TaskContext.tsx:288-301 | `addRecursive` keeps the number of roots |
| Store.AppendChildIds | src/app/context/TaskContext.tsx:288-301 | appending brings no id other than the child's |
| Store.AppendChildFrame | src/app/context/TaskContext.tsx:288-301 | with unique ids and a child of unused ids, every old node is still found with its fields, and every node but the parent keeps its children's fields in order |
| Store.AppendChildKeepsNodes | src/app/context/TaskContext.tsx:288-301 | the same frame for every node of the forest at once |
| Store.AppendChildFound | src/app/context/TaskContext.tsx:288-301 | the parent with the id gets the child; the forest grows by the child's size and ids; a child of unused ids keeps ids unique and every other node's fields and children |
| Store.AppendChildMissing | src/app/context/TaskContext.tsx:288-301 | with no such parent the forest is unchanged |
| Store.AddSubtaskMissing | src/app/context/TaskContext.tsx:278-303 | `addSubtask` under an absent parent changes nothing, so the task is not created |
| Store.AddSubtask | src/app/context/TaskContext.tsx:278-303 | `addSubtask` keeps the number of roots |
| Store.AddSubtaskFound | src/app/context/TaskContext.tsx:278-303 | under a present parent the new task (its `parentId` the parent) becomes the parent's last subtask, the forest grows by one node and one id, ids stay unique, and every other node keeps its fields and its children |
| Store.MoveTask | src/app/context/TaskContext.tsx:305-344 | moving an absent task changes nothing |
| Store.MovedSubtree | src/app/context/TaskContext.tsx:326 | relinking the moved task keeps its subtree's ids and size |
| Store.MoveTaskMissing | src/app/context/TaskContext.tsx:305-344 | moving an absent id changes nothing |
| Store.MoveTaskToRoot | src/app/context/TaskContext.tsx:323-329 | a move to the root yields the forest left by the removal followed by the relinked subtree as the last root, and loses no node or id |
| Store.MoveTaskUnderParent | src/app/context/TaskContext.tsx:323-340 | a move under a parent still present makes the relinked subtree its last child, loses no node or id, and every other node left by the removal keeps its fields and its children |
| Store.MoveTaskLostParent | src/app/context/TaskContext.tsx:323-340 | a move under a parent absent after the removal equals deleting the task |
| Store.MoveTaskIntoOwnSubtree | src/app/context/TaskContext.tsx:305-344 | a move under one of the task's own descendants deletes the whole subtree |
| Store.DueToday | src/app/context/TaskContext.tsx:352-357 | a task is due today when its due date is today and it is open |
| Store.IsOverdue | src/app/context/TaskContext.tsx:364-369 | a task is overdue when it has a due date before today and is open |
| Store.TodayTasks | src/app/context/TaskContext.tsx:346-358 | exactly the open nodes due today |
| Store.OverdueTasks | src/app/context/TaskContext.tsx:360-370 | exactly the open nodes due before today |
| Store.TodayOverdueDisjoint | src/app/context/TaskContext.tsx:346-370 | no task is both due today and overdue, and both lists keep the pre-order of the flattening |
| Store.TodayScenario | src/app/context/TaskContext.tsx:219-276 | a new open task due today is listed for today, and once toggled it is not |
| TaskContext.TaskStore.GetAllTasks | src/app/context/TaskContext.tsx:210-212 | `getAllTasks` returns the pre-order flattening of the current state, one entry per node |
| TaskContext.TaskStore.AddTask | src/app/context/TaskContext.tsx:219-228 | the state becomes `Store.AddTask` of the old state, and unique ids stay unique |
| TaskContext.TaskStore.UpdateTask | src/app/context/TaskContext.tsx:230-243 | the state becomes `Store.UpdateTask` of the old state; unique ids stay unique when the patch keeps id and subtasks |
| TaskContext.TaskStore.DeleteTask | src/app/context/TaskContext.tsx:245-255 | the state becomes `Store.DeleteTask` of the old state, and unique ids stay unique |
| TaskContext.TaskStore.ToggleTaskComplete | src/app/context/TaskContext.tsx:257-276 | the state becomes `Store.ToggleTaskComplete` of the old state, and unique ids stay unique |
| TaskContext.TaskStore.AddSubtask | src/app/context/TaskContext.tsx:278-303 | the state becomes `Store.AddSubtask` of the old state, and unique ids stay unique |
| TaskContext.TaskStore.MoveTask | src/app/context/TaskContext.tsx:305-344 | the state becomes `Store.MoveTask` of the old state, and unique ids stay unique |
| TaskContext.TaskStore.GetTaskById | src/app/context/TaskContext.tsx:214-217 | the lookup in the current state |
| TaskContext.TaskStore.GetTodayTasks | src/app/context/TaskContext.tsx:346-358 | `Store.TodayTasks` of the current state, a subsequence of its flattening |
| TaskContext.TaskStore.GetOverdueTasks | src/app/context/TaskContext.tsx:360-370 | `Store.OverdueTasks` of the current state, a subsequence of its flattening |
| ListView.ToLower | src/app/components/views/ListView.tsx:205 | lower-casing maps each character and leaves no upper-case ASCII letter |
| ListView.Includes | src/app/components/views/ListView.tsx:205 | `includes`: the query occurs at some offset of the text |
| ListView.IncludesEmpty | src/app/components/views/ListView.tsx:205 | every text includes the empty query |
| ListView.Matches | src/app/components/views/ListView.tsx:204-215 | a node passes when its lower-cased title includes the lower-cased query (or the query is empty) and both selectors match or are 'all' |
| ListView.FilterTree | src/app/components/views/ListView.tsx:202-220 | `filterRecursive` keeps no more roots, ids or nodes than it was given |
| ListView.FilterTreeCons | src/app/components/views/ListView.tsx:202-220 | a matching root is kept with its subtasks filtered; a root that does not match is dropped |
| ListView.FilterTreeSound | src/app/components/views/ListView.tsx:204-215 | every node shown matches the search, status and priority criteria |
| ListView.FilterTreeAllMatch | src/app/components/views/ListView.tsx:202-220 | a forest whose every node matches is kept whole |
| ListView.FilterTreeNoCriteria | src/app/components/views/ListView.tsx:204-215 | with empty search and both filters 'all' the forest is unchanged |
| ListView.FilterTreePrunes | src/app/components/views/ListView.tsx:202-220 | a node that does not match hides its whole subtree, even matching descendants |
| ListView.FilterTreeKeepsOrder | src/app/components/views/ListView.tsx:202-220 | the nodes shown keep their pre-order |
| ListView.FilterTreeLevel | src/app/components/views/ListView.tsx:203-216 | each level keeps exactly its matching nodes, in order |
| ListView.FilterTreeKeepsUnique | src/app/components/views/ListView.tsx:202-220 | filtering keeps ids unique |
| ListView.Compare | src/app/components/views/ListView.tsx:226-243 | the written comparator: an undated `a` always compares greater; on every other pair it is non-positive exactly when `Le` holds |
| ListView.CompareUndatedInconsistent | src/app/components/views/ListView.tsx:228-231 | the written comparator puts each of two undated tasks after the other |
| ListView.CompareFixed | src/app/components/views/ListView.tsx:226-243 | the corrected comparator is non-positive exactly when `Le` holds |
| ListView.Le | src/app/components/views/ListView.tsx:226-243 | the intended order per key: dated before undated and by date, by priority and status rank, newest first, by `order` |
| ListView.CompareFixedConsistent | src/app/components/views/ListView.tsx:226-243 | the corrected comparator is antisymmetric in sign, agrees with the intended order, and equals the written one except on undated pairs |
| ListView.LeTotalPreorder | src/app/components/views/ListView.tsx:226-243 | every sort key orders all tasks totally and transitively |
| ListView.SortKeys | src/app/components/views/ListView.tsx:226-243 | dated before undated, urgent first and low last, todo first and completed last, newest first, custom by `order` |
| ListView.Sorted | src/app/components/views/ListView.tsx:226-243 | a level is sorted when every earlier task is `Le` every later one |
| ListView.Insert | src/app/components/views/ListView.tsx:226 | inserting a task adds exactly that task |
| ListView.InsertSorted | src/app/components/views/ListView.tsx:226 | insertion into a sorted level keeps it sorted |
| ListView.SortLevel | src/app/components/views/ListView.tsx:226-243 | a sorted level is a permutation of the level |
| ListView.SortLevelCorrect | src/app/components/views/ListView.tsx:226-243 | the sorted level is ordered by the key and holds the same subtrees: same size, ids and nodes |
| ListView.SortChildren | src/app/components/views/ListView.tsx:245-248 | the recursion into subtasks keeps each level's own nodes in place |
| ListView.SortTree | src/app/components/views/ListView.tsx:225-249 | `sortRecursive` keeps the number of roots |
| ListView.SortTreeCorrect | src/app/components/views/ListView.tsx:225-249 | `sortRecursive` orders the roots by the key, keeps their multiset, and keeps the forest's size and ids |
| ListView.SortChildrenAt | src/app/components/views/ListView.tsx:245-248 | each task of the level keeps its place and gets its subtasks sorted recursively |
| ListView.SortTreeAllLevels | src/app/components/views/ListView.tsx:225-249 | the roots and the subtasks of every node of the result are sorted by the key |
| ListView.SortChildrenAllLevels | src/app/components/views/ListView.tsx:245-248 | after the recursion into subtasks, every node's subtasks are sorted |
| ListView.SortTreeNode | src/app/components/views/ListView.tsx:225-249 | every node of the forest has a node in the result with the same fields and the same multiset of children's fields |
| ListView.SortTreeNodeFrom | src/app/components/views/ListView.tsx:225-249 | every node of the result has a node in the forest with the same fields |
| ListView.SortTreeLookup | src/app/components/views/ListView.tsx:225-249 | with unique ids, looking up any node's id in the result finds its fields and the same multiset of children's fields |
| ListView.SortTreeKeepsUnique | src/app/components/views/ListView.tsx:225-249 | sorting keeps ids unique |
| ListView.Visible | src/app/components/views/ListView.tsx:198-252 | the list shown after filtering and sorting has no more roots than the forest, its roots and every node's subtasks are sorted by the key, and every node shown matches the criteria |
| ListView.Expandable | src/app/components/views/ListView.tsx:182-189 | the ids `collectIds` can reach, all of them in the forest |
| ListView.ExpandableAppend | src/app/components/views/ListView.tsx:183-188 | the collected ids of a sequence are the union over its elements |
| ListView.ExpandableSingle | src/app/components/views/ListView.tsx:184-187 | a node is collected iff it has subtasks, and only then its subtasks are searched |
| ListView.ToggleMember | src/app/components/views/ListView.tsx:168-178 | toggling flips the membership of the id and of nothing else |
| ListView.ToggleMemberTwice | src/app/components/views/ListView.tsx:168-178 | toggling twice restores the set |
| ListView.CollectIds | src/app/components/views/ListView.tsx:182-189 | the loop adds exactly the expandable ids to the accumulator |
| ListView.ExpandState.ToggleExpand | src/app/components/views/ListView.tsx:168-178 | the expanded set becomes its toggle at the id |
| ListView.ExpandState.ExpandAll | src/app/components/views/ListView.tsx:180-192 | the expanded set becomes the expandable ids |
| ListView.ExpandState.CollapseAll | src/app/components/views/ListView.tsx:194-196 | the expanded set becomes empty |
| Kanban.ColumnsInBoardOrder | src/app/components/views/KanbanView.tsx:160-165 | four columns, one per status, in board order |
| Kanban.TasksByStatus | src/app/components/views/KanbanView.tsx:145-154 | one column per status, four in all |
| Kanban.Column | src/app/components/views/KanbanView.tsx:149-152 | a column holds exactly the tasks of its status |
| Kanban.ColumnsPartition | src/app/components/views/KanbanView.tsx:147-154 | the four columns split the tasks: sizes and multisets add up |
| Kanban.TasksByStatusCorrect | src/app/components/views/KanbanView.tsx:145-154 | each column is in pre-order, a node is in a column iff the status matches, and the columns' sizes add up to the number of nodes |
| Kanban.StatusPatch | src/app/components/views/KanbanView.tsx:157 | merging the drop's patch changes the status alone |
| Kanban.Drop | src/app/components/views/KanbanView.tsx:81-85 | a drop onto the card's own column is ignored |
| Kanban.DropChangesOnlyStatus | src/app/components/views/KanbanView.tsx:81-85 | a drop onto another column changes the status and update time of that task and nothing else of it |
| Kanban.DropIntoCompletedKeepsOpen | src/app/components/views/KanbanView.tsx:156-158 | an open task dropped into completed has status completed but stays open |
| Kanban.DropKeepsForest | src/app/components/views/KanbanView.tsx:156-158 | a drop keeps the ids, the size and unique ids |
| Dashboard.Percent | src/app/components/views/DashboardView.tsx:24 | the nearest integer to the percentage, halves rounded up; 0 with no tasks |
| Dashboard.PercentBounds | src/app/components/views/DashboardView.tsx:24 | the percentage lies in 0..100, is 0 for none done and 100 for all done |
| Dashboard.ComputeStats | src/app/components/views/DashboardView.tsx:19-35 | the total is the node count; the counts are bounded by it; today and overdue are the store's lists' lengths; the percentage lies in 0..100 |
| Dashboard.ComputeStatsCounts | src/app/components/views/DashboardView.tsx:20-24 | completed counts the done nodes, in progress and todo count their columns, and the percentage is of completed over total |
| Dashboard.Sum | src/app/components/views/DashboardView.tsx:38-43 | the total of the slice values, at least each single value |
| Dashboard.SumNonZero | src/app/components/views/DashboardView.tsx:43 | dropping empty slices does not change the sum |
| Dashboard.StatusData | src/app/components/views/DashboardView.tsx:38-43 | at most four slices, none of them empty |
| Dashboard.StatusDataCorrect | src/app/components/views/DashboardView.tsx:38-43 | the slices keep board order and add up to the number of nodes |
| Dashboard.PriorityData | src/app/components/views/DashboardView.tsx:46-51 | four bars, low to urgent, each counting that priority |
| Dashboard.PriorityDataSum | src/app/components/views/DashboardView.tsx:46-51 | the bars add up to the number of nodes |
| TaskModal.Split | src/app/components/TaskModal.tsx:95 | `split(',')` yields at least one piece and no piece holds a comma |
| TaskModal.Join | src/app/components/TaskModal.tsx:72 | `join`: nothing for no pieces, otherwise text starting with the first piece |
| TaskModal.SplitJoin | src/app/components/TaskModal.tsx:94-95 | joining the pieces with a comma gives back the text |
| TaskModal.SplitAtComma | src/app/components/TaskModal.tsx:95 | a comma splits a text into the pieces of each side |
| TaskModal.SplitNoComma | src/app/components/TaskModal.tsx:95 | a text without a comma is one piece |
| TaskModal.IsWhite | src/app/components/TaskModal.tsx:96 | the white-space and line-terminator characters `trim` removes |
| TaskModal.TrimStart | src/app/components/TaskModal.tsx:96 | the leading trim is never longer than the text |
| TaskModal.TrimEnd | src/app/components/TaskModal.tsx:96 | the trailing trim is never longer than the text |
| TaskModal.TrimStartSpec | src/app/components/TaskModal.tsx:96 | the leading trim drops a white-space prefix and stops at the first other character |
| TaskModal.TrimEndSpec | src/app/components/TaskModal.tsx:96 | the trailing trim drops a white-space suffix and stops at the last other character |
| TaskModal.Trim | src/app/components/TaskModal.tsx:96 | the trim neither starts nor ends with white space |
| TaskModal.TrimKeepsChars | src/app/components/TaskModal.tsx:96 | trimming only removes characters |
| TaskModal.TrimOfTrimmed | src/app/components/TaskModal.tsx:96 | a trimmed text is its own trim |
| TaskModal.TrimLeadingSpace | src/app/components/TaskModal.tsx:96 | a leading space does not change the trim |
| TaskModal.TrimBlank | src/app/components/TaskModal.tsx:280 | the trim is empty iff the text is white space only |
| TaskModal.TrimAllAt | src/app/components/TaskModal.tsx:96 | the trimming map trims each piece in place |
| TaskModal.TrimAllAppend | src/app/components/TaskModal.tsx:96 | the trimming map distributes over concatenation |
| TaskModal.ParseTags | src/app/components/TaskModal.tsx:94-97 | every parsed tag is non-empty, trimmed and comma-free |
| TaskModal.ParseTagsAtComma | src/app/components/TaskModal.tsx:94-97 | the tags around a comma are parsed separately and concatenated in order, duplicates kept |
| TaskModal.ParseTagsLeadingSpace | src/app/components/TaskModal.tsx:94-97 | a leading space does not change the tags |
| TaskModal.ParseTagsSingle | src/app/components/TaskModal.tsx:94-97 | a well-formed tag parses to itself |
| TaskModal.ParseJoinedTags | src/app/components/TaskModal.tsx:72 | parsing the `", "` pre-fill of well-formed tags gives them back |
| TaskModal.DigitRun | src/app/components/TaskModal.tsx:223 | the run of leading digits: all digits, followed by a non-digit or the end |
| TaskModal.Unsigned | src/app/components/TaskModal.tsx:223 | at most the one sign character is dropped |
| TaskModal.ParseInt | src/app/components/TaskModal.tsx:223 | `parseInt` is `NaN` iff no digit follows the white space and optional sign |
| TaskModal.DurationFallback | src/app/components/TaskModal.tsx:223 | the duration is never 0: `NaN` and 0 become 1, any other parsed value is kept |
| TaskModal.NatToString | src/app/components/TaskModal.tsx:218-224 | the number field's decimal text: non-empty, digits only |
| TaskModal.DigitsValueOfNat | src/app/components/TaskModal.tsx:218-224 | the decimal text of a number has that value |
| TaskModal.DigitRunAll | src/app/components/TaskModal.tsx:223 | a text of digits is one digit run |
| TaskModal.ParseDigits | src/app/components/TaskModal.tsx:223 | a text of digits parses to its value |
| TaskModal.ParseIntOfNat | src/app/components/TaskModal.tsx:223 | a typed natural number parses back to itself; the fallback keeps it unless it is 0, which becomes 1 |
| TaskModal.DurationKeepsNegative | src/app/components/TaskModal.tsx:223 | a negative entry is kept by the fallback |
| TaskModal.SaveDisabled | src/app/components/TaskModal.tsx:280 | saving is disabled when the title is missing or its trim is empty |
| TaskModal.SaveDisabledBlank | src/app/components/TaskModal.tsx:280 | saving is disabled exactly when the title is missing or white space only |
| TaskModal.Submitted | src/app/components/TaskModal.tsx:99-102 | the saved patch is the form with the parsed tags and nothing else changed |
| TaskModal.EditUntouched | src/app/components/TaskModal.tsx:69-104 | opening a task with well-formed tags and saving it untouched reproduces the task |
| TaskModal.TaskForm.constructor | src/app/components/TaskModal.tsx:51-67 | the form starts as the default form with an empty tag field |
| TaskModal.TaskForm.Open | src/app/components/TaskModal.tsx:69-91 | opening on a task copies it and joins its tags with `", "`; opening empty resets to the defaults |
| TaskModal.TaskForm.SetTitle | src/app/components/TaskModal.tsx:120 | the title is set, nothing else changes |
| TaskModal.TaskForm.SetDescription | src/app/components/TaskModal.tsx:131 | the description is set, nothing else changes |
| TaskModal.TaskForm.SetPriority | src/app/components/TaskModal.tsx:143 | the priority is set, nothing else changes |
| TaskModal.TaskForm.SetStatus | src/app/components/TaskModal.tsx:161 | the status is set, nothing else changes |
| TaskModal.TaskForm.SetStartDate | src/app/components/TaskModal.tsx:191 | the start date is set or cleared, nothing else changes |
| TaskModal.TaskForm.SetDueDate | src/app/components/TaskModal.tsx:210 | the due date is set or cleared, nothing else changes |
| TaskModal.TaskForm.SetDuration | src/app/components/TaskModal.tsx:223 | the duration becomes the fallback parse of the text, never 0 |
| TaskModal.TaskForm.SetTagInput | src/app/components/TaskModal.tsx:234 | the tag field is set, the form is unchanged |
| TaskModal.TaskForm.SetColor | src/app/components/TaskModal.tsx:247 | a swatch sets the colour; the empty value clears it |
| TaskModal.TaskForm.SetNotes | src/app/components/TaskModal.tsx:268 | the notes are set, nothing else changes |
| TaskModal.TaskForm.Submit | src/app/components/TaskModal.tsx:93-104 | the patch handed to `onSave` is the form with the parsed tags |
| TaskModal.TaskForm.CanSave | src/app/components/TaskModal.tsx:280 | the save button is enabled exactly when saving is not disabled |
| App.SwitchTarget | src/app/App.tsx:33-37 | an index 0..4 selects that view in key order; any other index keeps the current view |
| App.ViewsAllButMini | src/app/App.tsx:29 | the keys reach every view except mini, each from one index |
| App.MiniToggled | src/app/App.tsx:38 | from mini to the dashboard, from any other view to mini |
| App.MiniToggleTwice | src/app/App.tsx:38 | toggling twice returns to mini from mini and to the dashboard from any other view |
| App.CreateStatus | src/app/App.tsx:72 | the column's status if one was given, else the form's, else todo |
| App.CreateData | src/app/App.tsx:70-74 | the created record carries each of the twelve form fields the saved form holds, and the chosen status |
| App.CreateFromDefaultForm | src/app/App.tsx:47-80 | the untouched form of a Kanban column adds an open, medium, one-day root task of that column's status, with no tags |
| App.SaveEditWritesSnapshot | src/app/App.tsx:65-68 | saving an edit overwrites the stored task with the modal's snapshot, stamped `now` |
| App.AppShell.constructor | src/app/App.tsx:19-23 | the dashboard is shown, both dialogs closed, nothing being edited |
| App.AppShell.HandleNewTask | src/app/App.tsx:41-45 | the modal opens with nothing edited and no preset status |
| App.AppShell.HandleNewTaskWithStatus | src/app/App.tsx:47-51 | the modal opens with nothing edited and the column's status preset |
| App.AppShell.HandleEditTask | src/app/App.tsx:53-57 | the modal opens on the task with no preset status |
| App.AppShell.HandleSaveTask | src/app/App.tsx:65-80 | an edit updates the edited task by its id; a creation adds a root task with the chosen status; then the modal is closed and both fields cleared |
| App.AppShell.CloseModal | src/app/App.tsx:115-119 | the modal is closed and both fields cleared |
| App.AppShell.SwitchView | src/app/App.tsx:33-37 | the view becomes the switch target; nothing else changes |
| App.AppShell.ToggleMini | src/app/App.tsx:38 | the view toggles between mini and the dashboard; nothing else changes |
| App.AppShell.Maximize | src/app/App.tsx:82-84 | the view becomes the dashboard |
| App.AppShell.ToggleShortcuts | src/app/App.tsx:32 | the shortcuts dialog flips |

## Left out

- Rendering and styling are not modelled. This covers the markup of every view, `TaskCard.tsx`, `Sidebar.tsx` and `MiniWindow.tsx`; the mini window's quick-add is a trimmed-title guard around `addTask`.
- `CalendarView.tsx` is not modelled: its month and week grids come from the date-fns library.
- `GanttView.tsx` is not modelled: its bar geometry is floating-point layout.
- Keyboard listener wiring, `KeyboardShortcuts.tsx` and `WelcomeTour.tsx` (local storage) are not modelled.
- React contexts, hooks, memoisation, toasts and drag-and-drop gestures are not modelled. A drop is modelled as the call it ends in.
- `handleAddSubtask` in `App.tsx` only shows a toast and changes no state, so it has no member.
- Id generation (`Date.now()` and `Math.random()`), `Date` objects, the clock and the local-midnight truncation are not modelled. The model uses a fresh-id parameter, integer days and timestamps, and `today`/`now` parameters.
- ListView.ToLower: folds ASCII letters only, not Unicode case mapping.
- ListView.SortLevel: sorts by the intended total preorder `Le`, with insertion sort. It does not claim the stability of `Array.prototype.sort`, and does not model how `sort` behaves under the inconsistent written comparator.
- ListView.SortTree: recurses into the subtasks before sorting each level, while the source sorts first. The order is immaterial because no sort key reads the subtasks.
- Dashboard.Percent: is exact rational rounding, with halves up. It does not reproduce the floating-point error of `completed / total * 100` before `Math.round`.
- TaskModal.ParseInt: covers decimal text only (the field is a number input). Hexadecimal `0x` prefixes and digit runs beyond the exact range of doubles are left out.
- App.CreateData: a field missing from the saved form would be `undefined` in the source. The model gives it the new-task form's default, and the modal's form always carries every field.
- The mock fixture `generateMockTasks` is seed data and is not modelled.
- The provider's `filter` state and the `TaskFilter` record are declared but not read by the modelled logic. The provider's `sortOption` (initially 'custom', TaskContext.tsx:198), which the list view reads (ListView.tsx:162 and 227), is the `opt` parameter of `Visible` and `SortTree`.
- TaskContext.TaskStore.UpdateTask: promises unique ids only for a patch that keeps the id and carries no subtasks. The source does not guard the patch: a patch carrying another existing id creates a duplicate, and the modal's edit save (App.tsx:67) passes the whole snapshot, subtasks included (TaskModal.tsx:71, 99-102), so uniqueness then rests on that snapshot.
- ListView.Compare: compares due dates as day numbers, where the source compares milliseconds (ListView.tsx:231); two tasks due on the same day at different times tie in the model but not in the source.
- Concurrency of React state updates is not modelled; each handler is taken as one atomic step.

## Findings

| source | as written | input that shows it | evidently intended | confidence | as-written member | corrected member |
|---|---|---|---|---|---|---|
| src/app/components/views/ListView.tsx:228-231 | the due-date comparator returns 1 whenever `a` has no due date, so for two undated tasks `compare(a, b)` and `compare(b, a)` are both positive and the comparator is inconsistent | any two tasks with `dueDate` null, sorted by due date | undated tasks after dated ones and equal to each other (0) | not executed | ListView.CompareUndatedInconsistent | ListView.CompareFixedConsistent |
