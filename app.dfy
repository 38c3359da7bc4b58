/** The application shell of `App.tsx`: which view is shown, whether the
    task modal and the shortcuts dialog are open, and what the modal is
    editing, with the handlers that move between these states and hand a
    saved form to the store. */
module App {
  import opened Types
  import opened Forest
  import Store
  import opened TaskContext
  import opened TaskModal

  /** The sidebar's views. */
  datatype View = Dashboard | List | Kanban | Calendar | Gantt | Mini

  /** The views the number keys select, in key order. */
  const Views: seq<View> := [Dashboard, List, Kanban, Calendar, Gantt]

  /** `onSwitchView`: an index of `Views` selects that view; any other
      index leaves the current one. */
  function SwitchTarget(current: View, index: int): (v: View)
    ensures 0 <= index < |Views| ==> v == Views[index]
    ensures !(0 <= index < |Views|) ==> v == current
  {
    if 0 <= index < |Views| then Views[index] else current
  }

  /** The number keys reach every view but the mini window, each from
      exactly one index. */
  lemma ViewsAllButMini()
    ensures forall v: View :: v in Views <==> v != Mini
    ensures forall i, j :: 0 <= i < j < |Views| ==> Views[i] != Views[j]
  {
    forall v: View | v != Mini ensures v in Views {
      match v
      case Dashboard => assert Views[0] == v;
      case List => assert Views[1] == v;
      case Kanban => assert Views[2] == v;
      case Calendar => assert Views[3] == v;
      case Gantt => assert Views[4] == v;
    }
  }

  /** `onToggleMini`: the mini window returns to the dashboard, every
      other view goes to the mini window. */
  function MiniToggled(v: View): (r: View)
    ensures r == Mini <==> v != Mini
    ensures r == Mini || r == Dashboard
  {
    if v == Mini then Dashboard else Mini
  }

  /** Toggling twice goes back to mini from mini, and to the dashboard
      from anywhere else: the view left for the mini window is not
      remembered. */
  lemma MiniToggleTwice(v: View)
    ensures MiniToggled(MiniToggled(v)) == if v == Mini then Mini else Dashboard
  {
  }

  /** The status of a task created from the modal:
      `newTaskStatus || taskData.status || 'todo'`. */
  function CreateStatus(newTaskStatus: Option<Status>, p: Patch): (st: Status)
    ensures newTaskStatus.Some? ==> st == newTaskStatus.value
    ensures newTaskStatus.None? && p.status.Some? ==> st == p.status.value
    ensures newTaskStatus.None? && p.status.None? ==> st == Todo
  {
    match newTaskStatus
    case Some(s) => s
    case None => p.status.GetOr(Todo)
  }

  /** The record `addTask` receives for a created task: the saved form
      with the status replaced by `CreateStatus`. A field the form does
      not carry takes the new-task form's default. */
  function CreateData(p: Patch, newTaskStatus: Option<Status>): (d: TaskData)
    ensures d.status == CreateStatus(newTaskStatus, p)
    ensures p.title.Some? ==> d.title == p.title.value
    ensures p.tags.Some? ==> d.tags == p.tags.value
    ensures p.parentId.Some? ==> d.parentId == p.parentId.value
    ensures p.priority.Some? ==> d.priority == p.priority.value
    ensures p.dueDate.Some? ==> d.dueDate == p.dueDate.value
    ensures p.completed.Some? ==> d.completed == p.completed.value
    ensures p.description.Some? ==> d.description == p.description.value
    ensures p.notes.Some? ==> d.notes == p.notes.value
    ensures p.colorLabel.Some? ==> d.colorLabel == p.colorLabel.value
    ensures p.order.Some? ==> d.order == p.order.value
    ensures p.startDate.Some? ==> d.startDate == p.startDate.value
    ensures p.duration.Some? ==> d.duration == p.duration.value
  {
    var f := DefaultForm;
    TaskData(p.title.GetOr(f.title.value), p.description.GetOr(f.description.value),
             p.notes.GetOr(f.notes.value), p.dueDate.GetOr(f.dueDate.value),
             p.priority.GetOr(f.priority.value), CreateStatus(newTaskStatus, p),
             p.tags.GetOr(f.tags.value), p.colorLabel.GetOr(f.colorLabel.value),
             p.parentId.GetOr(f.parentId.value), p.order.GetOr(f.order.value),
             p.completed.GetOr(f.completed.value), p.startDate.GetOr(f.startDate.value),
             p.duration.GetOr(f.duration.value))
  }

  /** Creating from the untouched new-task form of a Kanban column adds a
      root task of that column's status, open, of medium priority,
      lasting one day. */
  lemma CreateFromDefaultForm(ts: seq<Task>, st: Status, newId: Id, now: Timestamp)
    ensures var r := Store.AddTask(ts, CreateData(Submitted(DefaultForm, []), Some(st)), newId, now);
      var t := r[|ts|];
      t.id == newId && t.status == st && !t.completed && t.priority == Medium &&
      t.duration == 1 && t.parentId.None? && t.tags == [] && t.subtasks == []
  {
    assert ParseTags([]) == [] by {
      assert Split([]) == [[]];
      assert TrimAll([[]]) == [Trim([])];
    }
  }

  /** Saving an edit sends the modal's whole snapshot of the task, so the
      stored task becomes that snapshot (with a new update time), even
      where the stored version changed since the modal opened. */
  lemma SaveEditWritesSnapshot(ts: seq<Task>, snapshot: Task, now: Timestamp)
    requires snapshot.id in IdSet(ts)
    ensures Lookup(Store.UpdateTask(ts, snapshot.id, AsPatch(snapshot), now), snapshot.id) ==
            Some(snapshot.(updatedAt := now))
  {
    Store.UpdateTaskLookup(ts, snapshot.id, AsPatch(snapshot), now);
  }

  /** The state of `AppContent`, with the task provider it talks to. */
  class AppShell {
    var currentView: View
    var isTaskModalOpen: bool
    var isShortcutsOpen: bool
    var editingTask: Option<Task>
    var newTaskStatus: Option<Status>
    const store: TaskStore

    constructor (initial: seq<Task>)
      ensures currentView == Dashboard && !isTaskModalOpen && !isShortcutsOpen
      ensures editingTask.None? && newTaskStatus.None?
      ensures fresh(store) && store.tasks == initial
    {
      currentView := Dashboard;
      isTaskModalOpen := false;
      isShortcutsOpen := false;
      editingTask := None;
      newTaskStatus := None;
      store := new TaskStore(initial);
    }

    /** `handleNewTask`: the modal opens on an empty form. */
    method HandleNewTask()
      modifies this
      ensures isTaskModalOpen && editingTask.None? && newTaskStatus.None?
      ensures currentView == old(currentView) && isShortcutsOpen == old(isShortcutsOpen)
    {
      editingTask := None;
      newTaskStatus := None;
      isTaskModalOpen := true;
    }

    /** `handleNewTaskWithStatus`: the add button of a Kanban column. */
    method HandleNewTaskWithStatus(status: Status)
      modifies this
      ensures isTaskModalOpen && editingTask.None? && newTaskStatus == Some(status)
      ensures currentView == old(currentView) && isShortcutsOpen == old(isShortcutsOpen)
    {
      editingTask := None;
      newTaskStatus := Some(status);
      isTaskModalOpen := true;
    }

    /** `handleEditTask`: the modal opens on a copy of the task. */
    method HandleEditTask(task: Task)
      modifies this
      ensures isTaskModalOpen && editingTask == Some(task) && newTaskStatus.None?
      ensures currentView == old(currentView) && isShortcutsOpen == old(isShortcutsOpen)
    {
      editingTask := Some(task);
      newTaskStatus := None;
      isTaskModalOpen := true;
    }

    /** `handleSaveTask`: an edit updates the edited task by its id, a
      creation adds a root task; either way the modal then closes and
      forgets what it was doing. */
    method HandleSaveTask(p: Patch, newId: Id, now: Timestamp)
      requires editingTask.None? ==> newId !in IdSet(store.tasks)
      modifies this, store
      ensures old(editingTask).Some? ==>
              store.tasks == Store.UpdateTask(old(store.tasks), old(editingTask).value.id, p, now)
      ensures old(editingTask).None? ==>
              store.tasks == Store.AddTask(old(store.tasks), CreateData(p, old(newTaskStatus)), newId, now)
      ensures !isTaskModalOpen && editingTask.None? && newTaskStatus.None?
      ensures currentView == old(currentView) && isShortcutsOpen == old(isShortcutsOpen)
    {
      if editingTask.Some? {
        store.UpdateTask(editingTask.value.id, p, now);
      } else {
        store.AddTask(CreateData(p, newTaskStatus), newId, now);
      }
      isTaskModalOpen := false;
      editingTask := None;
      newTaskStatus := None;
    }

    /** The modal's `onClose`. */
    method CloseModal()
      modifies this
      ensures !isTaskModalOpen && editingTask.None? && newTaskStatus.None?
      ensures currentView == old(currentView) && isShortcutsOpen == old(isShortcutsOpen)
    {
      isTaskModalOpen := false;
      editingTask := None;
      newTaskStatus := None;
    }

    method SwitchView(index: int)
      modifies this
      ensures currentView == SwitchTarget(old(currentView), index)
      ensures isTaskModalOpen == old(isTaskModalOpen) && isShortcutsOpen == old(isShortcutsOpen)
      ensures editingTask == old(editingTask) && newTaskStatus == old(newTaskStatus)
    {
      if 0 <= index < |Views| {
        currentView := Views[index];
      }
    }

    method ToggleMini()
      modifies this
      ensures currentView == MiniToggled(old(currentView))
      ensures isTaskModalOpen == old(isTaskModalOpen) && isShortcutsOpen == old(isShortcutsOpen)
      ensures editingTask == old(editingTask) && newTaskStatus == old(newTaskStatus)
    {
      currentView := if currentView == Mini then Dashboard else Mini;
    }

    /** `handleMaximize`: the mini window's button back to the dashboard. */
    method Maximize()
      modifies this
      ensures currentView == Dashboard
      ensures isTaskModalOpen == old(isTaskModalOpen) && isShortcutsOpen == old(isShortcutsOpen)
      ensures editingTask == old(editingTask) && newTaskStatus == old(newTaskStatus)
    {
      currentView := Dashboard;
    }

    method ToggleShortcuts()
      modifies this
      ensures isShortcutsOpen == !old(isShortcutsOpen) && currentView == old(currentView)
      ensures isTaskModalOpen == old(isTaskModalOpen)
      ensures editingTask == old(editingTask) && newTaskStatus == old(newTaskStatus)
    {
      isShortcutsOpen := !isShortcutsOpen;
    }
  }
}
