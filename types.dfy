/** The task record and its enumerations.

    Calendar dates are integer day numbers (the local-midnight truncation
    the application performs becomes the identity), timestamps are
    integers, and identifiers are opaque strings. */
module Types {

  datatype Option<+T> = None | Some(value: T) {
    function GetOr(default: T): T {
      match this
      case Some(v) => v
      case None => default
    }
  }

  type Id = string
  /** A calendar day, counted from an arbitrary epoch. */
  type Day = int
  /** A point in time, in milliseconds from an arbitrary epoch. */
  type Timestamp = int

  datatype Priority = Low | Medium | High | Urgent
  datatype Status = Todo | InProgress | Review | Completed
  datatype SortOption = ByDueDate | ByPriority | ByStatus | ByCreatedAt | Custom

  /** A node of the task forest; it owns its subtasks. */
  datatype Task = Task(
    id: Id,
    title: string,
    description: string,
    notes: string,
    dueDate: Option<Day>,
    priority: Priority,
    status: Status,
    tags: seq<string>,
    colorLabel: Option<string>,
    parentId: Option<Id>,
    subtasks: seq<Task>,
    order: int,
    completed: bool,
    createdAt: Timestamp,
    updatedAt: Timestamp,
    startDate: Option<Day>,
    duration: int)

  /** What the creation operations take: a task without id, timestamps
      and subtasks. */
  datatype TaskData = TaskData(
    title: string,
    description: string,
    notes: string,
    dueDate: Option<Day>,
    priority: Priority,
    status: Status,
    tags: seq<string>,
    colorLabel: Option<string>,
    parentId: Option<Id>,
    order: int,
    completed: bool,
    startDate: Option<Day>,
    duration: int)

  /** A partial task: `None` leaves a field alone, `Some(v)` sets it.
      Nullable fields carry one more Option (`Some(None)` sets null). */
  datatype Patch = Patch(
    id: Option<Id>,
    title: Option<string>,
    description: Option<string>,
    notes: Option<string>,
    dueDate: Option<Option<Day>>,
    priority: Option<Priority>,
    status: Option<Status>,
    tags: Option<seq<string>>,
    colorLabel: Option<Option<string>>,
    parentId: Option<Option<Id>>,
    subtasks: Option<seq<Task>>,
    order: Option<int>,
    completed: Option<bool>,
    createdAt: Option<Timestamp>,
    updatedAt: Option<Timestamp>,
    startDate: Option<Option<Day>>,
    duration: Option<int>)

  const EmptyPatch := Patch(None, None, None, None, None, None, None, None, None,
                            None, None, None, None, None, None, None, None)

  datatype DateRange = DateRange(start: Option<Day>, end: Option<Day>)

  /** The store's filter record; every part is optional. */
  datatype TaskFilter = TaskFilter(
    status: Option<seq<Status>>,
    priority: Option<seq<Priority>>,
    tags: Option<seq<string>>,
    dueDateRange: Option<DateRange>,
    searchQuery: Option<string>)

  /** The spread `{...task, ...updates}`: every field the patch carries wins.
      The caller then overrides `updatedAt`. */
  function Merge(t: Task, p: Patch): (r: Task)
    ensures p == EmptyPatch ==> r == t
    ensures p.subtasks.None? ==> r.subtasks == t.subtasks
    ensures p.id.None? ==> r.id == t.id
    ensures r.status == p.status.GetOr(t.status) && r.completed == p.completed.GetOr(t.completed)
    // every field the patch carries wins; every other field is the task's
    ensures (p.id.Some? ==> r.id == p.id.value) && (p.id.None? ==> r.id == t.id)
    ensures (p.title.Some? ==> r.title == p.title.value) && (p.title.None? ==> r.title == t.title)
    ensures (p.description.Some? ==> r.description == p.description.value) && (p.description.None? ==> r.description == t.description)
    ensures (p.notes.Some? ==> r.notes == p.notes.value) && (p.notes.None? ==> r.notes == t.notes)
    ensures (p.dueDate.Some? ==> r.dueDate == p.dueDate.value) && (p.dueDate.None? ==> r.dueDate == t.dueDate)
    ensures (p.priority.Some? ==> r.priority == p.priority.value) && (p.priority.None? ==> r.priority == t.priority)
    ensures (p.status.Some? ==> r.status == p.status.value) && (p.status.None? ==> r.status == t.status)
    ensures (p.tags.Some? ==> r.tags == p.tags.value) && (p.tags.None? ==> r.tags == t.tags)
    ensures (p.colorLabel.Some? ==> r.colorLabel == p.colorLabel.value) && (p.colorLabel.None? ==> r.colorLabel == t.colorLabel)
    ensures (p.parentId.Some? ==> r.parentId == p.parentId.value) && (p.parentId.None? ==> r.parentId == t.parentId)
    ensures (p.subtasks.Some? ==> r.subtasks == p.subtasks.value) && (p.subtasks.None? ==> r.subtasks == t.subtasks)
    ensures (p.order.Some? ==> r.order == p.order.value) && (p.order.None? ==> r.order == t.order)
    ensures (p.completed.Some? ==> r.completed == p.completed.value) && (p.completed.None? ==> r.completed == t.completed)
    ensures (p.createdAt.Some? ==> r.createdAt == p.createdAt.value) && (p.createdAt.None? ==> r.createdAt == t.createdAt)
    ensures (p.updatedAt.Some? ==> r.updatedAt == p.updatedAt.value) && (p.updatedAt.None? ==> r.updatedAt == t.updatedAt)
    ensures (p.startDate.Some? ==> r.startDate == p.startDate.value) && (p.startDate.None? ==> r.startDate == t.startDate)
    ensures (p.duration.Some? ==> r.duration == p.duration.value) && (p.duration.None? ==> r.duration == t.duration)
  {
    Task(p.id.GetOr(t.id), p.title.GetOr(t.title), p.description.GetOr(t.description),
         p.notes.GetOr(t.notes), p.dueDate.GetOr(t.dueDate), p.priority.GetOr(t.priority),
         p.status.GetOr(t.status), p.tags.GetOr(t.tags), p.colorLabel.GetOr(t.colorLabel),
         p.parentId.GetOr(t.parentId), p.subtasks.GetOr(t.subtasks), p.order.GetOr(t.order),
         p.completed.GetOr(t.completed), p.createdAt.GetOr(t.createdAt),
         p.updatedAt.GetOr(t.updatedAt), p.startDate.GetOr(t.startDate),
         p.duration.GetOr(t.duration))
  }

  /** A task seen as a complete patch (every field present). */
  function AsPatch(t: Task): (p: Patch)
    ensures forall u: Task :: Merge(u, p) == t
  {
    Patch(Some(t.id), Some(t.title), Some(t.description), Some(t.notes), Some(t.dueDate),
          Some(t.priority), Some(t.status), Some(t.tags), Some(t.colorLabel), Some(t.parentId),
          Some(t.subtasks), Some(t.order), Some(t.completed), Some(t.createdAt),
          Some(t.updatedAt), Some(t.startDate), Some(t.duration))
  }

  /** Rank used by the priority sort: urgent first, low last. */
  function PriorityRank(p: Priority): (r: nat)
    ensures r < 4
  {
    match p
    case Urgent => 0
    case High => 1
    case Medium => 2
    case Low => 3
  }

  /** Rank used by the status sort: todo first, completed last. */
  function StatusRank(s: Status): (r: nat)
    ensures r < 4
  {
    match s
    case Todo => 0
    case InProgress => 1
    case Review => 2
    case Completed => 3
  }

  /** The priorities in the order the dashboard lists them. */
  const AllPriorities: seq<Priority> := [Low, Medium, High, Urgent]
  /** The statuses in board order. */
  const AllStatuses: seq<Status> := [Todo, InProgress, Review, Completed]

  /** Each enumeration lists every value exactly once, and the ranks are
      one-to-one, so the two sorts by rank are total orders. */
  lemma EnumerationsComplete()
    ensures forall p: Priority :: p in AllPriorities
    ensures forall s: Status :: s in AllStatuses
    ensures forall i, j :: 0 <= i < j < 4 ==> AllPriorities[i] != AllPriorities[j] && AllStatuses[i] != AllStatuses[j]
    ensures forall p, q :: PriorityRank(p) == PriorityRank(q) ==> p == q
    ensures forall s, u :: StatusRank(s) == StatusRank(u) ==> s == u
  {
    forall p: Priority ensures p in AllPriorities {
      match p
      case Low => assert AllPriorities[0] == p;
      case Medium => assert AllPriorities[1] == p;
      case High => assert AllPriorities[2] == p;
      case Urgent => assert AllPriorities[3] == p;
    }
    forall s: Status ensures s in AllStatuses {
      match s
      case Todo => assert AllStatuses[0] == s;
      case InProgress => assert AllStatuses[1] == s;
      case Review => assert AllStatuses[2] == s;
      case Completed => assert AllStatuses[3] == s;
    }
  }
}
