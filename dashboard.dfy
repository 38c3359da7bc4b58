/** The statistics of `DashboardView.tsx`: the counts over the flattened
    forest, the rounded progress percentage, and the data of the two
    charts. */
module Dashboard {
  import opened Types
  import opened Sequences
  import opened Forest
  import opened Store
  import opened Kanban

  datatype Stats = Stats(
    total: nat,
    completed: nat,
    inProgress: nat,
    todo: nat,
    today: nat,
    overdue: nat,
    progressPercentage: int)

  /** `Math.round(c / t * 100)`, taken as exact rational arithmetic:
      the nearest integer, halves rounded up; 0 when there are no tasks. */
  function Percent(c: nat, t: nat): (p: int)
    ensures t == 0 ==> p == 0
    ensures t > 0 ==> 2 * t * p <= 200 * c + t < 2 * t * p + 2 * t
  {
    if t > 0 then (200 * c + t) / (2 * t) else 0
  }

  /** The percentage of a part lies between 0 and 100, is 0 for none and
      100 for all. */
  lemma PercentBounds(c: nat, t: nat)
    requires c <= t
    ensures 0 <= Percent(c, t) <= 100
    ensures c == 0 ==> Percent(c, t) == 0
    ensures 0 < t == c ==> Percent(c, t) == 100
  {
    if t > 0 {
      var p, d := Percent(c, t), 2 * t;
      if p > 100 {
        MulMonotone(101, p, d);
        assert false;
      }
      if p < 0 {
        MulMonotone(p, -1, d);
        assert false;
      }
      if c == 0 && p != 0 {
        MulMonotone(1, p, d);
        assert false;
      }
      if c == t && p != 100 {
        MulMonotone(p, 99, d);
        assert false;
      }
    }
  }

  lemma {:induction false} MulMonotone(a: int, b: int, k: nat)
    requires a <= b
    ensures a * k <= b * k
    decreases k
  {
    if k > 0 {
      MulMonotone(a, b, k - 1);
      assert a * k == a * (k - 1) + a && b * k == b * (k - 1) + b;
    }
  }

  function IsDone(): Task -> bool {
    (t: Task) => t.completed
  }

  /** `stats` */
  function ComputeStats(ts: seq<Task>, today: Day): (s: Stats)
    ensures s.total == Size(ts)
    ensures s.completed <= s.total && s.inProgress + s.todo <= s.total
    ensures s.today == |TodayTasks(ts, today)| && s.overdue == |OverdueTasks(ts, today)|
    ensures 0 <= s.progressPercentage <= 100
  {
    var all := Flatten(ts);
    FlattenLength(ts);
    ColumnsPartition(all);
    var total := |all|;
    var completed := |Filter(all, IsDone())|;
    PercentBounds(completed, total);
    Stats(total, completed, |Column(all, InProgress)|, |Column(all, Todo)|,
          |TodayTasks(ts, today)|, |OverdueTasks(ts, today)|, Percent(completed, total))
  }

  /** The counts mean what their names say. */
  lemma ComputeStatsCounts(ts: seq<Task>, today: Day)
    ensures var s := ComputeStats(ts, today);
      s.completed == |Filter(Flatten(ts), IsDone())| &&
      s.inProgress == |Column(Flatten(ts), InProgress)| &&
      s.todo == |Column(Flatten(ts), Todo)| &&
      s.progressPercentage == Percent(s.completed, s.total)
  {
  }

  /** One slice of the status pie or bar of the priority chart. */
  datatype Slice = Slice(name: string, value: nat)

  function Sum(s: seq<Slice>): (n: nat)
    ensures forall i :: 0 <= i < |s| ==> s[i].value <= n
    decreases |s|
  {
    if s == [] then 0 else s[0].value + Sum(s[1..])
  }

  lemma Sum4(a: Slice, b: Slice, c: Slice, d: Slice)
    ensures Sum([a, b, c, d]) == a.value + b.value + c.value + d.value
  {
    var s1, s2, s3, s4 := [d], [c, d], [b, c, d], [a, b, c, d];
    assert s1[1..] == [] && s2[1..] == s1 && s3[1..] == s2 && s4[1..] == s3;
    assert Sum(s1) == d.value;
    assert Sum(s2) == c.value + Sum(s1);
    assert Sum(s3) == b.value + Sum(s2);
    assert Sum(s4) == a.value + Sum(s3);
  }

  function NonZero(): Slice -> bool {
    (x: Slice) => x.value > 0
  }

  /** Dropping the zero slices does not change the sum. */
  lemma {:induction false} SumNonZero(s: seq<Slice>)
    ensures Sum(Filter(s, NonZero())) == Sum(s)
    decreases |s|
  {
    if s != [] {
      SumNonZero(s[1..]);
      if s[0].value > 0 {
        assert Filter(s, NonZero())[1..] == Filter(s[1..], NonZero());
      }
    }
  }

  function AllStatusSlices(all: seq<Task>): (r: seq<Slice>)
    ensures |r| == 4
  {
    [Slice("To Do", |Column(all, Todo)|), Slice("In Progress", |Column(all, InProgress)|),
     Slice("Review", |Column(all, Review)|), Slice("Completed", |Column(all, Completed)|)]
  }

  /** `statusData`: the four status counts in board order, zeros dropped. */
  function StatusData(ts: seq<Task>): (r: seq<Slice>)
    ensures |r| <= 4
    ensures forall i :: 0 <= i < |r| ==> r[i].value > 0
  {
    Filter(AllStatusSlices(Flatten(ts)), NonZero())
  }

  /** The pie's slices keep the board order and add up to the task count. */
  lemma StatusDataCorrect(ts: seq<Task>)
    ensures IsSubseq(StatusData(ts), AllStatusSlices(Flatten(ts)))
    ensures Sum(StatusData(ts)) == Size(ts)
  {
    var all := Flatten(ts);
    FilterSubseq(AllStatusSlices(all), NonZero());
    SumNonZero(AllStatusSlices(all));
    ColumnsPartition(all);
    FlattenLength(ts);
    var r := AllStatusSlices(all);
    Sum4(r[0], r[1], r[2], r[3]);
    assert r == [r[0], r[1], r[2], r[3]];
  }

  function HasPriority(p: Priority): Task -> bool {
    (t: Task) => t.priority == p
  }

  /** `priorityData`: the four priority counts, low to urgent. */
  function PriorityData(ts: seq<Task>): (r: seq<Slice>)
    ensures |r| == 4
    ensures forall i :: 0 <= i < 4 ==> r[i].value == |Filter(Flatten(ts), HasPriority(AllPriorities[i]))|
  {
    var all := Flatten(ts);
    [Slice("Low", |Filter(all, HasPriority(Low))|), Slice("Medium", |Filter(all, HasPriority(Medium))|),
     Slice("High", |Filter(all, HasPriority(High))|), Slice("Urgent", |Filter(all, HasPriority(Urgent))|)]
  }

  lemma PriorityDataSum(ts: seq<Task>)
    ensures Sum(PriorityData(ts)) == Size(ts)
  {
    var all := Flatten(ts);
    FilterPartition(all, HasPriority(Low), HasPriority(Medium), HasPriority(High), HasPriority(Urgent));
    FlattenLength(ts);
    var r := PriorityData(ts);
    Sum4(r[0], r[1], r[2], r[3]);
    assert r == [r[0], r[1], r[2], r[3]];
  }
}
