/** The provider of `TaskContext.tsx` as an object: the single `tasks`
    state, replaced on every operation by the forest the corresponding
    function of `Store` computes. */
module TaskContext {
  import opened Types
  import opened Sequences
  import opened Forest
  import opened Store

  /** The provider's `tasks` state: every operation replaces it by the
      forest the corresponding function computes. */
  class TaskStore {
    var tasks: seq<Task>

    constructor (initial: seq<Task>)
      ensures tasks == initial
    {
      tasks := initial;
    }

    function GetAllTasks(): (r: seq<Task>)
      reads this
      ensures r == Flatten(tasks)
      ensures |r| == Size(tasks)
    {
      FlattenLength(tasks);
      Flatten(tasks)
    }

    method AddTask(data: TaskData, newId: Id, now: Timestamp)
      requires newId !in IdSet(tasks)
      modifies this
      ensures tasks == Store.AddTask(old(tasks), data, newId, now)
      ensures UniqueIds(old(tasks)) ==> UniqueIds(tasks)
    {
      AddTaskEffect(tasks, data, newId, now);
      tasks := Store.AddTask(tasks, data, newId, now);
    }

    method UpdateTask(id: Id, p: Patch, now: Timestamp)
      modifies this
      ensures tasks == Store.UpdateTask(old(tasks), id, p, now)
      ensures UniqueIds(old(tasks)) && (p.id.None? || p.id == Some(id)) && p.subtasks.None? ==>
              UniqueIds(tasks)
    {
      if UniqueIds(tasks) && (p.id.None? || p.id == Some(id)) && p.subtasks.None? {
        UpdateTaskKeepsIds(tasks, id, p, now);
      }
      tasks := Store.UpdateTask(tasks, id, p, now);
    }

    method DeleteTask(id: Id)
      modifies this
      ensures tasks == Store.DeleteTask(old(tasks), id)
      ensures UniqueIds(old(tasks)) ==> UniqueIds(tasks)
    {
      if UniqueIds(tasks) {
        RemoveKeepsUnique(tasks, id);
      }
      tasks := Store.DeleteTask(tasks, id);
    }

    method ToggleTaskComplete(id: Id, now: Timestamp)
      modifies this
      ensures tasks == Store.ToggleTaskComplete(old(tasks), id, now)
      ensures UniqueIds(old(tasks)) ==> UniqueIds(tasks)
    {
      if UniqueIds(tasks) {
        ToggleKeepsUnique(tasks, id, now);
      }
      tasks := Store.ToggleTaskComplete(tasks, id, now);
    }

    method AddSubtask(pid: Id, data: TaskData, newId: Id, now: Timestamp)
      requires newId !in IdSet(tasks)
      modifies this
      ensures tasks == Store.AddSubtask(old(tasks), pid, data, newId, now)
      ensures UniqueIds(old(tasks)) ==> UniqueIds(tasks)
    {
      if UniqueIds(tasks) {
        if pid in IdSet(tasks) {
          AddSubtaskFound(tasks, pid, data, newId, now);
        } else {
          AddSubtaskMissing(tasks, pid, data, newId, now);
        }
      }
      tasks := Store.AddSubtask(tasks, pid, data, newId, now);
    }

    method MoveTask(id: Id, newParent: Option<Id>, newOrder: int)
      modifies this
      ensures tasks == Store.MoveTask(old(tasks), id, newParent, newOrder)
      ensures UniqueIds(old(tasks)) ==> UniqueIds(tasks)
    {
      if UniqueIds(tasks) {
        if id !in IdSet(tasks) {
          MoveTaskMissing(tasks, id, newParent, newOrder);
        } else if newParent.None? {
          MoveTaskToRoot(tasks, id, newOrder);
        } else if newParent.value in IdSet(Remove(tasks, id)) {
          MoveTaskUnderParent(tasks, id, newParent.value, newOrder);
        } else {
          MoveTaskLostParent(tasks, id, newParent.value, newOrder);
          RemoveKeepsUnique(tasks, id);
        }
      }
      tasks := Store.MoveTask(tasks, id, newParent, newOrder);
    }

    function GetTaskById(id: Id): (r: Option<Task>)
      reads this
      ensures r == Lookup(tasks, id)
    {
      GetTaskByIdIsLookup(tasks, id);
      Store.GetTaskById(tasks, id)
    }

    function GetTodayTasks(today: Day): (r: seq<Task>)
      reads this
      ensures r == TodayTasks(tasks, today)
      ensures IsSubseq(r, Flatten(tasks))
    {
      TodayOverdueDisjoint(tasks, today);
      TodayTasks(tasks, today)
    }

    function GetOverdueTasks(today: Day): (r: seq<Task>)
      reads this
      ensures r == OverdueTasks(tasks, today)
      ensures IsSubseq(r, Flatten(tasks))
    {
      TodayOverdueDisjoint(tasks, today);
      OverdueTasks(tasks, today)
    }
  }
}
