/** The logic of `ListView.tsx`: the tree-shaped filter, the per-level
    sort with its comparator, and the set of expanded task identifiers.

    Case folding is ASCII only; the `'all'` choice of the status and
    priority selectors is `None`. */
module ListView {
  import opened Types
  import opened Sequences
  import opened Forest

  // ---------------------------------------------------------------------
  // filterRecursive

  function ToLowerChar(c: char): char {
    if 'A' <= c <= 'Z' then (c as int + 32) as char else c
  }

  /** `toLowerCase`, on ASCII letters. */
  function ToLower(s: string): (r: string)
    ensures |r| == |s|
    ensures forall i :: 0 <= i < |s| ==> r[i] == ToLowerChar(s[i])
    ensures forall i :: 0 <= i < |r| ==> !('A' <= r[i] <= 'Z')
  {
    seq(|s|, i requires 0 <= i < |s| => ToLowerChar(s[i]))
  }

  /** `String.prototype.includes`: `q` occurs in `s` at some offset. */
  predicate Includes(s: string, q: string) {
    exists i :: 0 <= i <= |s| && q <= s[i..]
  }

  lemma IncludesEmpty(s: string)
    ensures Includes(s, [])
  {
    assert [] <= s[0..];
  }

  /** The three controls above the list. */
  datatype Criteria = Criteria(query: string, status: Option<Status>, priority: Option<Priority>)

  const NoCriteria := Criteria([], None, None)

  /** The predicate of the `.filter` step: the title contains the query
      ignoring case (unless the query is empty), and the status and the
      priority match their selectors (unless set to all). */
  predicate Matches(t: Task, c: Criteria) {
    (c.query == [] || Includes(ToLower(t.title), ToLower(c.query))) &&
    (c.status.None? || t.status == c.status.value) &&
    (c.priority.None? || t.priority == c.priority.value)
  }

  /** `filterRecursive`: keep the matching nodes of each level, in order,
      and filter their subtasks the same way. */
  function FilterTree(ts: seq<Task>, c: Criteria): (r: seq<Task>)
    ensures |r| <= |ts|
    ensures IdSet(r) <= IdSet(ts)
    ensures Size(r) <= Size(ts)
    decreases ts
  {
    if ts == [] then []
    else
      var kept := if Matches(ts[0], c) then [ts[0].(subtasks := FilterTree(ts[0].subtasks, c))] else [];
      var rest := FilterTree(ts[1..], c);
      FlattenAppend(kept, rest);
      SingletonTree(ts[0]);
      SingletonTree(ts[0].(subtasks := FilterTree(ts[0].subtasks, c)));
      kept + rest
  }

  lemma FilterTreeCons(ts: seq<Task>, c: Criteria)
    requires ts != []
    ensures Matches(ts[0], c) ==>
      FilterTree(ts, c) == [ts[0].(subtasks := FilterTree(ts[0].subtasks, c))] + FilterTree(ts[1..], c)
    ensures !Matches(ts[0], c) ==> FilterTree(ts, c) == FilterTree(ts[1..], c)
  {
  }

  /** Every node the filter keeps, at any depth, matches the criteria. */
  lemma {:induction false} FilterTreeSound(ts: seq<Task>, c: Criteria)
    ensures forall t :: t in Flatten(FilterTree(ts, c)) ==> Matches(t, c)
    decreases ts
  {
    if ts != [] {
      var t0 := ts[0];
      FilterTreeSound(t0.subtasks, c);
      FilterTreeSound(ts[1..], c);
      FilterTreeCons(ts, c);
      if Matches(t0, c) {
        var t' := t0.(subtasks := FilterTree(t0.subtasks, c));
        FlattenAppend([t'], FilterTree(ts[1..], c));
        SingletonTree(t');
      }
    }
  }

  /** Conversely, when every node matches the filter loses nothing. */
  lemma {:induction false} FilterTreeAllMatch(ts: seq<Task>, c: Criteria)
    requires forall t :: t in Flatten(ts) ==> Matches(t, c)
    ensures FilterTree(ts, c) == ts
    decreases ts
  {
    if ts != [] {
      var t0 := ts[0];
      assert Flatten(ts) == [t0] + Flatten(t0.subtasks) + Flatten(ts[1..]);
      FilterTreeAllMatch(t0.subtasks, c);
      FilterTreeAllMatch(ts[1..], c);
      assert ts == [t0] + ts[1..];
    }
  }

  /** With an empty query and both selectors on all, the filter is the
      identity on the forest. */
  lemma FilterTreeNoCriteria(ts: seq<Task>)
    ensures FilterTree(ts, NoCriteria) == ts
  {
    FilterTreeAllMatch(ts, NoCriteria);
  }

  /** A node that does not match takes its whole subtree with it: with
      unique identifiers, no identifier of that subtree is kept. */
  lemma {:induction false} FilterTreePrunes(ts: seq<Task>, c: Criteria, t: Task)
    requires UniqueIds(ts) && t in Flatten(ts) && !Matches(t, c)
    ensures IdSet([t]) !! IdSet(FilterTree(ts, c))
    decreases ts
  {
    var t0, rest := ts[0], ts[1..];
    assert Flatten(ts) == [t0] + Flatten(t0.subtasks) + Flatten(rest);
    FilterTreeCons(ts, c);
    var kept := if Matches(t0, c) then [t0.(subtasks := FilterTree(t0.subtasks, c))] else [];
    FlattenAppend(kept, FilterTree(rest, c));
    SingletonTree(t0);
    SingletonTree(t0.(subtasks := FilterTree(t0.subtasks, c)));
    if t == t0 {
      assert IdSet(FilterTree(ts, c)) <= IdSet(rest);
    } else if t in Flatten(t0.subtasks) {
      FlattenSubtree(t0.subtasks, t);
      FilterTreePrunes(t0.subtasks, c, t);
    } else {
      FlattenSubtree(rest, t);
      FilterTreePrunes(rest, c, t);
    }
  }

  /** The filter keeps order at every level: the kept nodes are a
      subsequence of the original pre-order, each with its own fields. */
  lemma {:induction false} FilterTreeKeepsOrder(ts: seq<Task>, c: Criteria)
    ensures IsSubseq(Heads(Flatten(FilterTree(ts, c))), Heads(Flatten(ts)))
    decreases ts
  {
    if ts != [] {
      var t0, rest := ts[0], ts[1..];
      var hSub, hRest := Heads(Flatten(t0.subtasks)), Heads(Flatten(rest));
      var hSub', hRest' := Heads(Flatten(FilterTree(t0.subtasks, c))), Heads(Flatten(FilterTree(rest, c)));
      HeadsFlattenCons(ts);
      FilterTreeKeepsOrder(t0.subtasks, c);
      FilterTreeKeepsOrder(rest, c);
      FilterTreeCons(ts, c);
      if !Matches(t0, c) {
        SubseqDropPrefix([Head(t0)] + hSub, hRest', hRest);
        assert [Head(t0)] + (hSub + hRest) == ([Head(t0)] + hSub) + hRest;
      } else {
        var r := FilterTree(ts, c);
        var t' := t0.(subtasks := FilterTree(t0.subtasks, c));
        assert r[0] == t' && r[1..] == FilterTree(rest, c);
        HeadsFlattenCons(r);
        SubseqConcat(hSub', hSub, hRest', hRest);
        SubseqRefl([Head(t0)]);
        SubseqConcat([Head(t0)], [Head(t0)], hSub' + hRest', hSub + hRest);
      }
    }
  }

  /** Each level of the result is the matching part of the same level of
      the input. */
  lemma {:induction false} FilterTreeLevel(ts: seq<Task>, c: Criteria)
    ensures Heads(FilterTree(ts, c)) == Heads(Filter(ts, t => Matches(t, c)))
    decreases ts
  {
    if ts != [] {
      FilterTreeLevel(ts[1..], c);
      FilterTreeCons(ts, c);
      var t' := ts[0].(subtasks := FilterTree(ts[0].subtasks, c));
      if Matches(ts[0], c) {
        HeadsAppend([t'], FilterTree(ts[1..], c));
        HeadsAppend([ts[0]], Filter(ts[1..], t => Matches(t, c)));
        assert Head(t') == Head(ts[0]);
      }
    }
  }

  lemma {:induction false} FilterTreeKeepsUnique(ts: seq<Task>, c: Criteria)
    requires UniqueIds(ts)
    ensures UniqueIds(FilterTree(ts, c))
    decreases ts
  {
    if ts != [] {
      var t0 := ts[0];
      FilterTreeKeepsUnique(t0.subtasks, c);
      FilterTreeKeepsUnique(ts[1..], c);
      FilterTreeCons(ts, c);
      if Matches(t0, c) {
        var t' := t0.(subtasks := FilterTree(t0.subtasks, c));
        UniqueAppend([t'], FilterTree(ts[1..], c));
        UniqueSingleton(t');
        SingletonTree(t');
      }
    }
  }

  // ---------------------------------------------------------------------
  // The sort comparator

  /** The comparator handed to `Array.prototype.sort`, as written: negative
      means `a` first. Due dates are compared by day: two tasks due on
      the same day tie, whatever their times of day. */
  function Compare(opt: SortOption, a: Task, b: Task): (r: int)
    ensures opt == ByDueDate && a.dueDate.None? ==> r > 0
    ensures !(opt == ByDueDate && a.dueDate.None? && b.dueDate.None?) ==> (r <= 0 <==> Le(opt, a, b))
  {
    match opt
    case ByDueDate =>
      if a.dueDate.None? then 1
      else if b.dueDate.None? then -1
      else a.dueDate.value - b.dueDate.value
    case ByPriority => PriorityRank(a.priority) - PriorityRank(b.priority)
    case ByStatus => StatusRank(a.status) - StatusRank(b.status)
    case ByCreatedAt => b.createdAt - a.createdAt
    case Custom => a.order - b.order
  }

  /** The written comparator is not consistent: two undated tasks each
      compare greater than the other, so `sort` may order them any way. */
  lemma CompareUndatedInconsistent(a: Task, b: Task)
    requires a.dueDate.None? && b.dueDate.None?
    ensures Compare(ByDueDate, a, b) > 0 && Compare(ByDueDate, b, a) > 0
  {
  }

  /** The comparator with undated pairs tied, which places dated tasks
      first in ascending date order and undated ones after them. */
  function CompareFixed(opt: SortOption, a: Task, b: Task): (r: int)
    ensures r <= 0 <==> Le(opt, a, b)
  {
    if opt == ByDueDate && a.dueDate.None? && b.dueDate.None? then 0
    else Compare(opt, a, b)
  }

  /** The order both comparators aim for: a total preorder per option. */
  predicate Le(opt: SortOption, a: Task, b: Task) {
    match opt
    case ByDueDate =>
      (match (a.dueDate, b.dueDate)
       case (Some(x), Some(y)) => x <= y
       case (Some(_), None) => true
       case (None, Some(_)) => false
       case (None, None) => true)
    case ByPriority => PriorityRank(a.priority) <= PriorityRank(b.priority)
    case ByStatus => StatusRank(a.status) <= StatusRank(b.status)
    case ByCreatedAt => b.createdAt <= a.createdAt
    case Custom => a.order <= b.order
  }

  /** The corrected comparator is consistent (swapping the arguments
      negates its sign) and says "`a` not after `b`" exactly when `Le`
      does; the written one agrees with it everywhere except on undated
      pairs. */
  lemma CompareFixedConsistent(opt: SortOption, a: Task, b: Task)
    ensures CompareFixed(opt, a, b) <= 0 <==> Le(opt, a, b)
    ensures CompareFixed(opt, a, b) > 0 <==> CompareFixed(opt, b, a) < 0
    ensures CompareFixed(opt, a, b) == 0 <==> CompareFixed(opt, b, a) == 0
    ensures !(opt == ByDueDate && a.dueDate.None? && b.dueDate.None?) ==>
            Compare(opt, a, b) == CompareFixed(opt, a, b)
  {
  }

  lemma LeTotalPreorder(opt: SortOption)
    ensures forall a, b :: Le(opt, a, b) || Le(opt, b, a)
    ensures forall a, b, c :: Le(opt, a, b) && Le(opt, b, c) ==> Le(opt, a, c)
  {
  }

  /** The sort keys, spelled out: custom ascends by `order`, priority puts
      urgent first, status puts todo first, creation time descends, and
      the due-date order puts every dated task before every undated one. */
  lemma SortKeys(a: Task, b: Task)
    ensures Le(Custom, a, b) <==> a.order <= b.order
    ensures Le(ByPriority, a, b) && a.priority == Low ==> b.priority == Low
    ensures a.priority == Urgent ==> Le(ByPriority, a, b)
    ensures a.status == Todo ==> Le(ByStatus, a, b)
    ensures Le(ByStatus, a, b) && a.status == Completed ==> b.status == Completed
    ensures Le(ByCreatedAt, a, b) <==> a.createdAt >= b.createdAt
    ensures a.dueDate.Some? && b.dueDate.None? ==> Le(ByDueDate, a, b) && !Le(ByDueDate, b, a)
  {
  }

  // ---------------------------------------------------------------------
  // sortRecursive

  predicate Sorted(opt: SortOption, s: seq<Task>) {
    forall i, j :: 0 <= i < j < |s| ==> Le(opt, s[i], s[j])
  }

  function Insert(opt: SortOption, x: Task, s: seq<Task>): (r: seq<Task>)
    ensures |r| == |s| + 1
    ensures multiset(r) == multiset(s) + multiset{x}
    decreases |s|
  {
    if s == [] then [x]
    else if Le(opt, x, s[0]) then [x] + s
    else
      assert s == [s[0]] + s[1..];
      [s[0]] + Insert(opt, x, s[1..])
  }

  lemma {:induction false} InsertSorted(opt: SortOption, x: Task, s: seq<Task>)
    requires Sorted(opt, s)
    ensures Sorted(opt, Insert(opt, x, s))
    decreases |s|
  {
    LeTotalPreorder(opt);
    if s != [] && !Le(opt, x, s[0]) {
      InsertSorted(opt, x, s[1..]);
      var r := Insert(opt, x, s);
      forall j | 1 <= j < |r| ensures Le(opt, r[0], r[j]) {
        assert r[j] in multiset(s[1..]) + multiset{x};
        if r[j] != x {
          assert r[j] in s[1..];
        }
      }
    }
  }

  /** Inserting into a level keeps its nodes and identifiers... */
  lemma {:induction false} InsertTree(opt: SortOption, x: Task, s: seq<Task>)
    ensures Size(Insert(opt, x, s)) == Size([x]) + Size(s)
    ensures IdSet(Insert(opt, x, s)) == IdSet([x]) + IdSet(s)
    decreases |s|
  {
    FlattenAppend([x], s);
    if s != [] && !Le(opt, x, s[0]) {
      InsertTree(opt, x, s[1..]);
      assert s == [s[0]] + s[1..];
      FlattenAppend([s[0]], Insert(opt, x, s[1..]));
      FlattenAppend([s[0]], s[1..]);
    }
  }

  /** ... and the multiset of its node fields. */
  lemma {:induction false} InsertHeads(opt: SortOption, x: Task, s: seq<Task>)
    ensures multiset(Heads(Insert(opt, x, s))) == multiset{Head(x)} + multiset(Heads(s))
    decreases |s|
  {
    HeadsAppend([x], s);
    if s != [] && !Le(opt, x, s[0]) {
      InsertHeads(opt, x, s[1..]);
      assert s == [s[0]] + s[1..];
      HeadsAppend([s[0]], Insert(opt, x, s[1..]));
      HeadsAppend([s[0]], s[1..]);
    }
  }

  /** The sort of one level, as an insertion sort under `Le`. */
  function SortLevel(opt: SortOption, s: seq<Task>): (r: seq<Task>)
    ensures |r| == |s|
    ensures multiset(r) == multiset(s)
    decreases |s|
  {
    if s == [] then []
    else
      assert s == [s[0]] + s[1..];
      Insert(opt, s[0], SortLevel(opt, s[1..]))
  }

  /** Sorting a level yields an ordered permutation of it that has the
      same nodes, identifiers and node fields. */
  lemma SortLevelCorrect(opt: SortOption, s: seq<Task>)
    ensures Sorted(opt, SortLevel(opt, s))
    ensures Size(SortLevel(opt, s)) == Size(s)
    ensures IdSet(SortLevel(opt, s)) == IdSet(s)
    ensures multiset(Heads(SortLevel(opt, s))) == multiset(Heads(s))
  {
    SortLevelSorted(opt, s);
    SortLevelTree(opt, s);
    SortLevelHeads(opt, s);
  }

  lemma {:induction false} SortLevelSorted(opt: SortOption, s: seq<Task>)
    ensures Sorted(opt, SortLevel(opt, s))
    decreases |s|
  {
    if s != [] {
      SortLevelSorted(opt, s[1..]);
      InsertSorted(opt, s[0], SortLevel(opt, s[1..]));
    }
  }

  lemma {:induction false} SortLevelTree(opt: SortOption, s: seq<Task>)
    ensures Size(SortLevel(opt, s)) == Size(s)
    ensures IdSet(SortLevel(opt, s)) == IdSet(s)
    decreases |s|
  {
    if s != [] {
      var x, s1 := s[0], s[1..];
      SortLevelTree(opt, s1);
      InsertTree(opt, x, SortLevel(opt, s1));
      assert s == [x] + s1;
      FlattenAppend([x], s1);
    }
  }

  lemma {:induction false} SortLevelHeads(opt: SortOption, s: seq<Task>)
    ensures multiset(Heads(SortLevel(opt, s))) == multiset(Heads(s))
    decreases |s|
  {
    if s != [] {
      var x, s1 := s[0], s[1..];
      var r1 := SortLevel(opt, s1);
      assert SortLevel(opt, s) == Insert(opt, x, r1);
      SortLevelHeads(opt, s1);
      InsertHeads(opt, x, r1);
      assert Heads(s) == [Head(x)] + Heads(s1);
      assert multiset(Heads(s)) == multiset{Head(x)} + multiset(Heads(s1));
    }
  }

  /** `sortRecursive`: each node gets its subtasks sorted, and each level
      is sorted. The source sorts first and then recurses; the keys do not
      read `subtasks`, so recursing first gives the same forest. */
  function SortTree(opt: SortOption, ts: seq<Task>): (r: seq<Task>)
    ensures |r| == |ts|
    decreases ts, 1
  {
    SortLevel(opt, SortChildren(opt, ts))
  }

  function SortChildren(opt: SortOption, ts: seq<Task>): (r: seq<Task>)
    ensures |r| == |ts|
    ensures Heads(r) == Heads(ts)
    decreases ts, 0
  {
    if ts == [] then []
    else
      var r := [ts[0].(subtasks := SortTree(opt, ts[0].subtasks))] + SortChildren(opt, ts[1..]);
      HeadsAppend([r[0]], r[1..]);
      HeadsAppend([ts[0]], ts[1..]);
      assert r[1..] == SortChildren(opt, ts[1..]);
      assert ts == [ts[0]] + ts[1..];
      r
  }

  /** Sorting keeps the forest's nodes and identifiers, and the roots come
      out ordered with the same node fields as before; the nested levels
      are covered by `SortTreeAllLevels` and `SortTreeNode`. */
  lemma {:induction false} SortTreeCorrect(opt: SortOption, ts: seq<Task>)
    ensures Sorted(opt, SortTree(opt, ts))
    ensures multiset(Heads(SortTree(opt, ts))) == multiset(Heads(ts))
    ensures Size(SortTree(opt, ts)) == Size(ts)
    ensures IdSet(SortTree(opt, ts)) == IdSet(ts)
    decreases ts, 1
  {
    SortChildrenTree(opt, ts);
    SortLevelCorrect(opt, SortChildren(opt, ts));
  }

  lemma {:induction false} SortChildrenTree(opt: SortOption, ts: seq<Task>)
    ensures Size(SortChildren(opt, ts)) == Size(ts)
    ensures IdSet(SortChildren(opt, ts)) == IdSet(ts)
    decreases ts, 0
  {
    if ts != [] {
      SortTreeCorrect(opt, ts[0].subtasks);
      SortChildrenTree(opt, ts[1..]);
    }
  }

  /** The `k`-th entry of the recursion keeps its fields and gets its
      subtasks sorted. */
  lemma {:induction false} SortChildrenAt(opt: SortOption, ts: seq<Task>, k: nat)
    requires k < |ts|
    ensures SortChildren(opt, ts)[k] == ts[k].(subtasks := SortTree(opt, ts[k].subtasks))
    decreases k
  {
    if k > 0 {
      SortChildrenAt(opt, ts[1..], k - 1);
    }
  }

  /** Every level comes out ordered: the roots, and the subtasks of every
      node of the sorted forest. */
  lemma {:induction false} SortTreeAllLevels(opt: SortOption, ts: seq<Task>)
    ensures Sorted(opt, SortTree(opt, ts))
    ensures forall t :: t in Flatten(SortTree(opt, ts)) ==> Sorted(opt, t.subtasks)
    decreases ts, 1
  {
    SortTreeCorrect(opt, ts);
    var sc := SortChildren(opt, ts);
    FlattenPermutation(SortLevel(opt, sc), sc);
    SortChildrenAllLevels(opt, ts);
  }

  lemma {:induction false} SortChildrenAllLevels(opt: SortOption, ts: seq<Task>)
    ensures forall t :: t in Flatten(SortChildren(opt, ts)) ==> Sorted(opt, t.subtasks)
    decreases ts, 0
  {
    if ts != [] {
      var x := ts[0].(subtasks := SortTree(opt, ts[0].subtasks));
      var rest := SortChildren(opt, ts[1..]);
      assert SortChildren(opt, ts) == [x] + rest;
      FlattenAppend([x], rest);
      SingletonTree(x);
      SortTreeAllLevels(opt, ts[0].subtasks);
      SortChildrenAllLevels(opt, ts[1..]);
    }
  }

  /** Every node of the forest reappears in the sorted forest with the
      same fields and the same children, reordered. */
  lemma {:induction false} SortTreeNode(opt: SortOption, ts: seq<Task>, u: Task)
    requires u in Flatten(ts)
    ensures exists v :: v in Flatten(SortTree(opt, ts)) && Head(v) == Head(u) &&
                        multiset(Heads(v.subtasks)) == multiset(Heads(u.subtasks))
    decreases ts
  {
    FlattenMember(ts, u);
    var x :| x in ts && u in Flatten([x]);
    var k :| 0 <= k < |ts| && ts[k] == x;
    var sc := SortChildren(opt, ts);
    SortChildrenAt(opt, ts, k);
    var y := sc[k];
    SingletonTree(x);
    SingletonTree(y);
    FlattenPermutation(SortLevel(opt, sc), sc);
    FlattenMember(sc, u);
    var v: Task;
    if u == x {
      SortTreeCorrect(opt, x.subtasks);
      v := y;
    } else {
      SortTreeNode(opt, x.subtasks, u);
      v :| v in Flatten(SortTree(opt, x.subtasks)) && Head(v) == Head(u) &&
           multiset(Heads(v.subtasks)) == multiset(Heads(u.subtasks));
    }
    assert v in Flatten([y]);
    FlattenMember(sc, v);
    assert v in Flatten(SortTree(opt, ts));
  }

  /** Conversely, every node of the sorted forest comes from a node of the
      forest with the same fields. */
  lemma {:induction false} SortTreeNodeFrom(opt: SortOption, ts: seq<Task>, v: Task)
    requires v in Flatten(SortTree(opt, ts))
    ensures exists u :: u in Flatten(ts) && Head(u) == Head(v)
    decreases ts
  {
    var sc := SortChildren(opt, ts);
    FlattenPermutation(SortLevel(opt, sc), sc);
    FlattenMember(sc, v);
    var y :| y in sc && v in Flatten([y]);
    var k :| 0 <= k < |sc| && sc[k] == y;
    SortChildrenAt(opt, ts, k);
    var x := ts[k];
    SingletonTree(x);
    SingletonTree(y);
    FlattenMember(ts, x);
    assert x in Flatten([x]);
    var u: Task;
    if v == y {
      u := x;
    } else {
      SortTreeNodeFrom(opt, x.subtasks, v);
      u :| u in Flatten(x.subtasks) && Head(u) == Head(v);
    }
    assert u in Flatten([x]);
    FlattenMember(ts, u);
  }

  /** With unique identifiers, looking a task up in the sorted forest
      finds its fields unchanged and its children permuted. */
  lemma SortTreeLookup(opt: SortOption, ts: seq<Task>, u: Task)
    requires UniqueIds(ts) && u in Flatten(ts)
    ensures var r := Lookup(SortTree(opt, ts), u.id);
      r.Some? && Head(r.value) == Head(u) &&
      multiset(Heads(r.value.subtasks)) == multiset(Heads(u.subtasks))
  {
    SortTreeNode(opt, ts, u);
    var v :| v in Flatten(SortTree(opt, ts)) && Head(v) == Head(u) &&
             multiset(Heads(v.subtasks)) == multiset(Heads(u.subtasks));
    SortTreeKeepsUnique(opt, ts);
    assert v.id == Head(v).id;
    LookupUnique(SortTree(opt, ts), v);
  }

  /** Sorting keeps identifiers unique. */
  lemma SortTreeKeepsUnique(opt: SortOption, ts: seq<Task>)
    requires UniqueIds(ts)
    ensures UniqueIds(SortTree(opt, ts))
  {
    SortTreeCorrect(opt, ts);
    UniqueByCount(ts);
    UniqueByCount(SortTree(opt, ts));
  }

  /** What the list shows: the filtered forest, sorted. */
  function Visible(ts: seq<Task>, c: Criteria, opt: SortOption): (r: seq<Task>)
    ensures |r| <= |ts|
    ensures Sorted(opt, r)
    ensures forall t :: t in Flatten(r) ==> Matches(t, c) && Sorted(opt, t.subtasks)
  {
    var f := FilterTree(ts, c);
    FilterTreeSound(ts, c);
    SortTreeAllLevels(opt, f);
    forall t | t in Flatten(SortTree(opt, f)) ensures Matches(t, c) {
      SortTreeNodeFrom(opt, f, t);
      var u :| u in Flatten(f) && Head(u) == Head(t);
      assert u.title == Head(u).title && t.title == Head(t).title;
    }
    SortTree(opt, f)
  }

  // ---------------------------------------------------------------------
  // Expanded tasks

  /** The identifiers of the nodes, at any depth, with at least one
      subtask: what `expandAll` collects. */
  function Expandable(ts: seq<Task>): (r: set<Id>)
    ensures r <= IdSet(ts)
  {
    forall t | t in Flatten(ts) ensures t.id in IdSet(ts) {
      IdSetFlatten(ts, t.id);
    }
    set t | t in Flatten(ts) && t.subtasks != [] :: t.id
  }

  lemma ExpandableAppend(a: seq<Task>, b: seq<Task>)
    ensures Expandable(a + b) == Expandable(a) + Expandable(b)
  {
    FlattenAppend(a, b);
  }

  lemma ExpandableSingle(t: Task)
    ensures Expandable([t]) == (if t.subtasks != [] then {t.id} else {}) + Expandable(t.subtasks)
  {
    SingletonTree(t);
  }

  function ToggleMember(s: set<Id>, id: Id): (r: set<Id>)
    ensures id in r <==> id !in s
    ensures forall x :: x != id ==> (x in r <==> x in s)
  {
    if id in s then s - {id} else s + {id}
  }

  lemma ToggleMemberTwice(s: set<Id>, id: Id)
    ensures ToggleMember(ToggleMember(s, id), id) == s
  {
  }

  /** `collectIds`: add the identifiers of the nodes with subtasks,
      descending only into those. */
  method CollectIds(ts: seq<Task>, acc: set<Id>) returns (result: set<Id>)
    ensures result == acc + Expandable(ts)
    decreases ts
  {
    result := acc;
    var k := 0;
    while k < |ts|
      invariant 0 <= k <= |ts|
      invariant result == acc + Expandable(ts[..k])
    {
      var t := ts[k];
      ExpandableAppend(ts[..k], [t]);
      ExpandableSingle(t);
      if |t.subtasks| > 0 {
        result := result + {t.id};
        result := CollectIds(t.subtasks, result);
      } else {
        assert Flatten(t.subtasks) == [];
      }
      assert ts[..k + 1] == ts[..k] + [t];
      k := k + 1;
    }
    assert ts[..k] == ts;
  }

  /** The list's `expandedTasks` state. */
  class ExpandState {
    var expanded: set<Id>

    constructor ()
      ensures expanded == {}
    {
      expanded := {};
    }

    /** `toggleExpand` */
    method ToggleExpand(id: Id)
      modifies this
      ensures expanded == ToggleMember(old(expanded), id)
    {
      var s := expanded;
      if id in s {
        s := s - {id};
      } else {
        s := s + {id};
      }
      expanded := s;
    }

    /** `expandAll` */
    method ExpandAll(ts: seq<Task>)
      modifies this
      ensures expanded == Expandable(ts)
    {
      var all := CollectIds(ts, {});
      expanded := all;
    }

    /** `collapseAll` */
    method CollapseAll()
      modifies this
      ensures expanded == {}
    {
      expanded := {};
    }
  }
}
