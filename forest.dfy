/** The task forest: a sequence of root tasks, each owning its subtasks.

    This module holds the traversals every store operation is built from:
    pre-order flattening, node counting, the identifiers a forest holds,
    depth-first lookup, the "rewrite the matching node" map that
    `updateTask`, `toggleTaskComplete` and `addSubtask` share, and the
    cascading removal that `deleteTask` and `moveTask` share. */
module Forest {
  import opened Types
  import opened Sequences

  /** Pre-order flattening: a node, then its subtree, then its younger
      siblings. */
  function Flatten(ts: seq<Task>): seq<Task>
    decreases ts
  {
    if ts == [] then [] else [ts[0]] + Flatten(ts[0].subtasks) + Flatten(ts[1..])
  }

  /** The number of nodes, summed node by node. */
  function Size(ts: seq<Task>): nat
    decreases ts
  {
    if ts == [] then 0 else 1 + Size(ts[0].subtasks) + Size(ts[1..])
  }

  /** The identifiers present anywhere in the forest. */
  function IdSet(ts: seq<Task>): set<Id>
    decreases ts
  {
    if ts == [] then {} else {ts[0].id} + IdSet(ts[0].subtasks) + IdSet(ts[1..])
  }

  /** Identifiers are unique across the whole forest: no node shares its id
      with a node of its subtree or of its younger siblings' subtrees. */
  predicate UniqueIds(ts: seq<Task>)
    decreases ts
  {
    ts == [] ||
    (ts[0].id !in IdSet(ts[0].subtasks) && ts[0].id !in IdSet(ts[1..]) &&
     IdSet(ts[0].subtasks) !! IdSet(ts[1..]) &&
     UniqueIds(ts[0].subtasks) && UniqueIds(ts[1..]))
  }

  /** A node's own fields, without its subtree. */
  function Head(t: Task): Task {
    t.(subtasks := [])
  }

  function Heads(s: seq<Task>): (r: seq<Task>)
    ensures |r| == |s|
    decreases |s|
  {
    if s == [] then [] else [Head(s[0])] + Heads(s[1..])
  }

  lemma {:induction false} FlattenLength(ts: seq<Task>)
    ensures |Flatten(ts)| == Size(ts)
    decreases ts
  {
    if ts != [] {
      FlattenLength(ts[0].subtasks);
      FlattenLength(ts[1..]);
    }
  }

  lemma {:induction false} FlattenAppend(a: seq<Task>, b: seq<Task>)
    ensures Flatten(a + b) == Flatten(a) + Flatten(b)
    ensures Size(a + b) == Size(a) + Size(b)
    ensures IdSet(a + b) == IdSet(a) + IdSet(b)
    decreases a
  {
    if a == [] {
      assert a + b == b;
    } else {
      assert (a + b)[0] == a[0];
      assert (a + b)[1..] == a[1..] + b;
      FlattenAppend(a[1..], b);
    }
  }

  lemma SingletonTree(t: Task)
    ensures Flatten([t]) == [t] + Flatten(t.subtasks)
    ensures Size([t]) == 1 + Size(t.subtasks)
    ensures IdSet([t]) == {t.id} + IdSet(t.subtasks)
  {
    assert [t][1..] == [];
  }

  lemma {:induction false} UniqueAppend(a: seq<Task>, b: seq<Task>)
    ensures UniqueIds(a + b) <==> UniqueIds(a) && UniqueIds(b) && IdSet(a) !! IdSet(b)
    decreases a
  {
    if a == [] {
      assert a + b == b;
    } else {
      assert (a + b)[0] == a[0];
      assert (a + b)[1..] == a[1..] + b;
      UniqueAppend(a[1..], b);
      FlattenAppend(a[1..], b);
    }
  }

  lemma UniqueSingleton(t: Task)
    ensures UniqueIds([t]) <==> t.id !in IdSet(t.subtasks) && UniqueIds(t.subtasks)
  {
    assert [t][1..] == [];
  }

  /** A node of the flattening lies in the subtree of some root. */
  lemma {:induction false} FlattenMember(s: seq<Task>, t: Task)
    ensures t in Flatten(s) <==> exists x :: x in s && t in Flatten([x])
    decreases s
  {
    if s != [] {
      SingletonTree(s[0]);
      FlattenMember(s[1..], t);
      if t in Flatten(s[1..]) {
        var x :| x in s[1..] && t in Flatten([x]);
        assert x in s;
      }
      if exists x :: x in s && t in Flatten([x]) {
        var x :| x in s && t in Flatten([x]);
        if x != s[0] {
          assert x in s[1..];
        }
      }
    }
  }

  /** Reordering the roots keeps the set of nodes of the flattening. */
  lemma FlattenPermutation(a: seq<Task>, b: seq<Task>)
    requires multiset(a) == multiset(b)
    ensures forall t :: t in Flatten(a) <==> t in Flatten(b)
  {
    forall t ensures t in Flatten(a) <==> t in Flatten(b) {
      FlattenMember(a, t);
      FlattenMember(b, t);
      assert forall x :: x in a <==> x in multiset(a);
      assert forall x :: x in b <==> x in multiset(b);
    }
  }

  /** `IdSet` is exactly the set of identifiers of the flattening. */
  lemma {:induction false} IdSetFlatten(ts: seq<Task>, id: Id)
    ensures id in IdSet(ts) <==> exists t :: t in Flatten(ts) && t.id == id
    decreases ts
  {
    if ts != [] {
      IdSetFlatten(ts[0].subtasks, id);
      IdSetFlatten(ts[1..], id);
    }
  }

  /** Depth-first lookup: the first node with `id` in pre-order. */
  function Lookup(ts: seq<Task>, id: Id): (r: Option<Task>)
    ensures r.Some? ==> r.value.id == id
    ensures r.None? <==> id !in IdSet(ts)
    decreases ts
  {
    if ts == [] then None
    else if ts[0].id == id then Some(ts[0])
    else match Lookup(ts[0].subtasks, id)
      case Some(t) => Some(t)
      case None => Lookup(ts[1..], id)
  }

  lemma {:induction false} LookupInFlatten(ts: seq<Task>, id: Id)
    requires Lookup(ts, id).Some?
    ensures Lookup(ts, id).value in Flatten(ts)
    decreases ts
  {
    if ts[0].id != id {
      if Lookup(ts[0].subtasks, id).Some? {
        LookupInFlatten(ts[0].subtasks, id);
      } else {
        LookupInFlatten(ts[1..], id);
      }
    }
  }

  /** In a forest with unique identifiers, looking up the identifier of
      any node finds that node. */
  lemma {:induction false} LookupUnique(ts: seq<Task>, t: Task)
    requires UniqueIds(ts) && t in Flatten(ts)
    ensures Lookup(ts, t.id) == Some(t)
    decreases ts
  {
    var t0, rest := ts[0], ts[1..];
    assert Flatten(ts) == [t0] + Flatten(t0.subtasks) + Flatten(rest);
    if t != t0 {
      if t in Flatten(t0.subtasks) {
        IdSetFlatten(t0.subtasks, t.id);
        LookupUnique(t0.subtasks, t);
      } else {
        IdSetFlatten(rest, t.id);
        LookupUnique(rest, t);
      }
    }
  }

  /** Looking up in a concatenation searches the first part first. */
  lemma {:induction false} LookupAppend(a: seq<Task>, b: seq<Task>, id: Id)
    ensures Lookup(a + b, id) == if id in IdSet(a) then Lookup(a, id) else Lookup(b, id)
    decreases a
  {
    if a == [] {
      assert a + b == b;
    } else {
      assert (a + b)[0] == a[0] && (a + b)[1..] == a[1..] + b;
      LookupAppend(a[1..], b, id);
    }
  }

  /** The subtree found by a lookup sits inside the forest: its identifiers
      are the forest's, and in a forest with unique identifiers it has
      unique identifiers too. */
  lemma {:induction false} LookupSubtree(ts: seq<Task>, id: Id)
    requires Lookup(ts, id).Some?
    ensures IdSet([Lookup(ts, id).value]) <= IdSet(ts)
    ensures Size([Lookup(ts, id).value]) <= Size(ts)
    ensures UniqueIds(ts) ==> UniqueIds([Lookup(ts, id).value])
    decreases ts
  {
    var t := Lookup(ts, id).value;
    SingletonTree(t);
    UniqueSingleton(t);
    if ts[0].id != id {
      if Lookup(ts[0].subtasks, id).Some? {
        LookupSubtree(ts[0].subtasks, id);
      } else {
        LookupSubtree(ts[1..], id);
      }
    }
  }

  /** Every node of the flattening roots a subtree of the forest. */
  lemma {:induction false} FlattenSubtree(ts: seq<Task>, t: Task)
    requires t in Flatten(ts)
    ensures IdSet([t]) <= IdSet(ts)
    ensures Size([t]) <= Size(ts)
    ensures UniqueIds(ts) ==> UniqueIds([t])
    decreases ts
  {
    var t0, rest := ts[0], ts[1..];
    assert Flatten(ts) == [t0] + Flatten(t0.subtasks) + Flatten(rest);
    SingletonTree(t);
    SingletonTree(t0);
    UniqueSingleton(t0);
    if t != t0 {
      if t in Flatten(t0.subtasks) {
        FlattenSubtree(t0.subtasks, t);
      } else {
        FlattenSubtree(rest, t);
      }
    }
  }

  /** A forest never has more distinct identifiers than nodes, and has
      unique identifiers exactly when the two counts agree. */
  lemma {:induction false} UniqueByCount(ts: seq<Task>)
    ensures |IdSet(ts)| <= Size(ts)
    ensures UniqueIds(ts) <==> |IdSet(ts)| == Size(ts)
    decreases ts
  {
    if ts != [] {
      var t0, rest := ts[0], ts[1..];
      var a, b := IdSet(t0.subtasks), IdSet(rest);
      UniqueByCount(t0.subtasks);
      UniqueByCount(rest);
      assert IdSet(ts) == {t0.id} + (a + b);
      assert |a + b| == |a| + |b| - |a * b|;
      if a !! b {
        assert a * b == {};
      } else {
        var x :| x in a && x in b;
        assert x in a * b;
      }
      if t0.id in a + b {
        assert {t0.id} + (a + b) == a + b;
      } else {
        assert |{t0.id} + (a + b)| == 1 + |a + b|;
      }
    }
  }

  /** The recursion `updateTask`, `toggleTaskComplete` and `addSubtask`
      share: each node whose id is `id` is replaced by `f` of it, and the
      search does not descend below a replaced node; every other node keeps
      its fields and has the same rewrite applied to its subtasks. */
  function MapMatching(ts: seq<Task>, id: Id, f: Task -> Task): (r: seq<Task>)
    ensures |r| == |ts|
    decreases ts
  {
    if ts == [] then []
    else
      var t := ts[0];
      var t' := if t.id == id then f(t) else t.(subtasks := MapMatching(t.subtasks, id, f));
      [t'] + MapMatching(ts[1..], id, f)
  }

  /** Without a matching node the rewrite is the identity. */
  lemma {:induction false} MapMatchingAbsent(ts: seq<Task>, id: Id, f: Task -> Task)
    requires id !in IdSet(ts)
    ensures MapMatching(ts, id, f) == ts
    decreases ts
  {
    if ts != [] {
      MapMatchingAbsent(ts[0].subtasks, id, f);
      MapMatchingAbsent(ts[1..], id, f);
    }
  }

  /** When `f` keeps identifiers, looking the id up afterwards finds the
      rewritten version of the node found before. */
  lemma {:induction false} MapMatchingLookup(ts: seq<Task>, id: Id, f: Task -> Task)
    requires forall t: Task :: t.id == id ==> f(t).id == id
    ensures Lookup(MapMatching(ts, id, f), id) ==
            match Lookup(ts, id) case None => None case Some(t) => Some(f(t))
    decreases ts
  {
    if ts != [] && ts[0].id != id {
      MapMatchingLookup(ts[0].subtasks, id, f);
      MapMatchingLookup(ts[1..], id, f);
    }
  }

  /** The root list after the rewrite: the first root rewritten by one
      step, followed by the rewrite of the others. */
  lemma MapMatchingCons(ts: seq<Task>, id: Id, f: Task -> Task)
    requires ts != []
    ensures var r0 := if ts[0].id == id then f(ts[0])
                      else ts[0].(subtasks := MapMatching(ts[0].subtasks, id, f));
      MapMatching(ts, id, f) == [r0] + MapMatching(ts[1..], id, f) &&
      MapMatching(ts, id, f)[0] == r0 &&
      MapMatching(ts, id, f)[1..] == MapMatching(ts[1..], id, f)
  {
  }

  /** With unique identifiers, the rewrite replaces exactly one subtree,
      the one the lookup finds, by `f` of it: the node count changes by
      the difference of the two subtrees' sizes. */
  lemma {:induction false} MapMatchingSize(ts: seq<Task>, id: Id, f: Task -> Task)
    requires UniqueIds(ts) && Lookup(ts, id).Some?
    ensures Size(MapMatching(ts, id, f)) ==
            Size(ts) - Size([Lookup(ts, id).value]) + Size([f(Lookup(ts, id).value)])
    decreases ts
  {
    var t := Lookup(ts, id).value;
    var t0, rest := ts[0], ts[1..];
    MapMatchingCons(ts, id, f);
    SingletonTree(t);
    SingletonTree(f(t));
    if t0.id == id {
      MapMatchingAbsent(rest, id, f);
    } else if Lookup(t0.subtasks, id).Some? {
      MapMatchingSize(t0.subtasks, id, f);
      MapMatchingAbsent(rest, id, f);
    } else {
      MapMatchingAbsent(t0.subtasks, id, f);
      MapMatchingSize(rest, id, f);
    }
  }

  /** ... and the identifiers of the found subtree give way to those of
      its replacement. */
  lemma {:induction false} MapMatchingIds(ts: seq<Task>, id: Id, f: Task -> Task)
    requires UniqueIds(ts) && Lookup(ts, id).Some?
    ensures IdSet(MapMatching(ts, id, f)) ==
            (IdSet(ts) - IdSet([Lookup(ts, id).value])) + IdSet([f(Lookup(ts, id).value)])
    decreases ts
  {
    var t := Lookup(ts, id).value;
    var t0, rest := ts[0], ts[1..];
    MapMatchingCons(ts, id, f);
    SingletonTree(t);
    SingletonTree(f(t));
    if t0.id == id {
      MapMatchingAbsent(rest, id, f);
    } else if Lookup(t0.subtasks, id).Some? {
      LookupSubtree(t0.subtasks, id);
      MapMatchingIds(t0.subtasks, id, f);
      MapMatchingAbsent(rest, id, f);
    } else {
      LookupSubtree(rest, id);
      MapMatchingAbsent(t0.subtasks, id, f);
      MapMatchingIds(rest, id, f);
    }
  }

  /** ... and uniqueness is kept when the replacement brings unique
      identifiers that the rest of the forest does not use. */
  lemma {:induction false} MapMatchingUnique(ts: seq<Task>, id: Id, f: Task -> Task)
    requires UniqueIds(ts) && Lookup(ts, id).Some?
    requires UniqueIds([f(Lookup(ts, id).value)])
    requires IdSet([f(Lookup(ts, id).value)]) !! (IdSet(ts) - IdSet([Lookup(ts, id).value]))
    ensures UniqueIds(MapMatching(ts, id, f))
    decreases ts
  {
    var t := Lookup(ts, id).value;
    var t0, rest := ts[0], ts[1..];
    MapMatchingCons(ts, id, f);
    var r := MapMatching(ts, id, f);
    var r0 := r[0];
    UniqueAppend([r0], r[1..]);
    assert r == [r0] + r[1..];
    UniqueSingleton(r0);
    SingletonTree(r0);
    SingletonTree(t);
    SingletonTree(t0);
    if t0.id == id {
      MapMatchingAbsent(rest, id, f);
    } else if Lookup(t0.subtasks, id).Some? {
      LookupSubtree(t0.subtasks, id);
      MapMatchingIds(t0.subtasks, id, f);
      MapMatchingUnique(t0.subtasks, id, f);
      MapMatchingAbsent(rest, id, f);
    } else {
      LookupSubtree(rest, id);
      MapMatchingAbsent(t0.subtasks, id, f);
      MapMatchingIds(rest, id, f);
      MapMatchingUnique(rest, id, f);
    }
  }

  /** When `f` keeps a matching node's own fields, the rewrite keeps the
      fields of the roots. */
  lemma {:induction false} MapMatchingHeads(ts: seq<Task>, id: Id, f: Task -> Task)
    requires forall t: Task :: t.id == id ==> Head(f(t)) == Head(t)
    ensures Heads(MapMatching(ts, id, f)) == Heads(ts)
    decreases ts
  {
    if ts != [] {
      MapMatchingCons(ts, id, f);
      MapMatchingHeads(ts[1..], id, f);
    }
  }

  /** "Nothing else changes", node by node: with unique identifiers and a
      replacement that brings no identifier used outside the replaced
      subtree, every node outside that subtree is still found, with its
      own fields and with the rewrite applied to its subtasks. */
  lemma {:induction false} MapMatchingOutside(ts: seq<Task>, id: Id, f: Task -> Task, x: Id)
    requires UniqueIds(ts) && Lookup(ts, id).Some?
    requires IdSet([f(Lookup(ts, id).value)]) !! (IdSet(ts) - IdSet([Lookup(ts, id).value]))
    requires x in IdSet(ts) - IdSet([Lookup(ts, id).value])
    ensures var o := Lookup(ts, x).value;
      Lookup(MapMatching(ts, id, f), x) == Some(o.(subtasks := MapMatching(o.subtasks, id, f)))
    decreases ts
  {
    var t := Lookup(ts, id).value;
    var t0, rest := ts[0], ts[1..];
    MapMatchingCons(ts, id, f);
    SingletonTree(t);
    SingletonTree(f(t));
    if t0.id == id {
      assert t == t0;
      MapMatchingAbsent(rest, id, f);
      LookupSubtree(rest, x);
      var o := Lookup(rest, x).value;
      SingletonTree(o);
      MapMatchingAbsent(o.subtasks, id, f);
    } else if x == t0.id {
    } else if Lookup(t0.subtasks, id).Some? {
      LookupSubtree(t0.subtasks, id);
      if x in IdSet(t0.subtasks) {
        MapMatchingOutside(t0.subtasks, id, f, x);
      } else {
        MapMatchingIds(t0.subtasks, id, f);
        MapMatchingAbsent(rest, id, f);
        LookupSubtree(rest, x);
        var o := Lookup(rest, x).value;
        SingletonTree(o);
        MapMatchingAbsent(o.subtasks, id, f);
      }
    } else {
      LookupSubtree(rest, id);
      MapMatchingAbsent(t0.subtasks, id, f);
      if x in IdSet(t0.subtasks) {
        LookupSubtree(t0.subtasks, x);
        var o := Lookup(t0.subtasks, x).value;
        SingletonTree(o);
        MapMatchingAbsent(o.subtasks, id, f);
      } else {
        MapMatchingOutside(rest, id, f, x);
      }
    }
  }

  /** Inside the replaced subtree: when the replacement keeps the node's
      identifier and subtasks, every node below it is found unchanged. */
  lemma {:induction false} MapMatchingInside(ts: seq<Task>, id: Id, f: Task -> Task, x: Id)
    requires UniqueIds(ts) && Lookup(ts, id).Some?
    requires f(Lookup(ts, id).value).id == id
    requires f(Lookup(ts, id).value).subtasks == Lookup(ts, id).value.subtasks
    requires x in IdSet(Lookup(ts, id).value.subtasks)
    ensures Lookup(MapMatching(ts, id, f), x) == Lookup(ts, x)
    decreases ts
  {
    var t := Lookup(ts, id).value;
    var t0, rest := ts[0], ts[1..];
    MapMatchingCons(ts, id, f);
    SingletonTree(t);
    if t0.id == id {
      assert t == t0;
    } else if Lookup(t0.subtasks, id).Some? {
      LookupSubtree(t0.subtasks, id);
      MapMatchingInside(t0.subtasks, id, f, x);
    } else {
      LookupSubtree(rest, id);
      MapMatchingAbsent(t0.subtasks, id, f);
      MapMatchingInside(rest, id, f, x);
    }
  }

  /** The fields of each node of a flattening after the rewrite: a node
      with the id gets the fields of `f` of it, every other node keeps its
      own. */
  function Relabel(s: seq<Task>, id: Id, f: Task -> Task): (r: seq<Task>)
    ensures |r| == |s|
    decreases |s|
  {
    if s == [] then []
    else [Head(if s[0].id == id then f(s[0]) else s[0])] + Relabel(s[1..], id, f)
  }

  lemma {:induction false} HeadsAppend(a: seq<Task>, b: seq<Task>)
    ensures Heads(a + b) == Heads(a) + Heads(b)
    decreases |a|
  {
    if a == [] {
      assert a + b == b;
    } else {
      assert (a + b)[1..] == a[1..] + b;
      HeadsAppend(a[1..], b);
    }
  }

  lemma {:induction false} RelabelAppend(a: seq<Task>, b: seq<Task>, id: Id, f: Task -> Task)
    ensures Relabel(a + b, id, f) == Relabel(a, id, f) + Relabel(b, id, f)
    ensures Heads(a + b) == Heads(a) + Heads(b)
    decreases |a|
  {
    HeadsAppend(a, b);
    if a == [] {
      assert a + b == b;
    } else {
      assert (a + b)[1..] == a[1..] + b;
      RelabelAppend(a[1..], b, id, f);
    }
  }

  lemma {:induction false} RelabelNoMatch(s: seq<Task>, id: Id, f: Task -> Task)
    requires forall x :: x in s ==> x.id != id
    ensures Relabel(s, id, f) == Heads(s)
    decreases |s|
  {
    if s != [] {
      RelabelNoMatch(s[1..], id, f);
    }
  }

  lemma {:induction false} RelabelMember(s: seq<Task>, id: Id, f: Task -> Task, k: nat)
    requires k < |s|
    ensures Relabel(s, id, f)[k] == Head(if s[k].id == id then f(s[k]) else s[k])
    decreases |s|
  {
    if k > 0 {
      RelabelMember(s[1..], id, f, k - 1);
    }
  }

  /** "Nothing else changes": when `f` leaves subtasks alone and identifiers
      are unique, the flattening keeps its shape, the node with the id
      takes the fields of `f` of it, and every other node keeps its own. */
  lemma {:induction false} MapMatchingFields(ts: seq<Task>, id: Id, f: Task -> Task)
    requires UniqueIds(ts)
    requires forall t: Task :: f(t).subtasks == t.subtasks
    ensures Heads(Flatten(MapMatching(ts, id, f))) == Relabel(Flatten(ts), id, f)
    decreases ts
  {
    if ts != [] {
      var t0, rest := ts[0], ts[1..];
      var r := MapMatching(ts, id, f);
      var r0 := r[0];
      assert r[1..] == MapMatching(rest, id, f);
      var ft := Flatten(ts);
      assert ft == [t0] + Flatten(t0.subtasks) + Flatten(rest);
      RelabelAppend([t0] + Flatten(t0.subtasks), Flatten(rest), id, f);
      RelabelAppend([t0], Flatten(t0.subtasks), id, f);
      var fr := Flatten(r);
      assert fr == [r0] + Flatten(r0.subtasks) + Flatten(r[1..]);
      RelabelAppend([r0] + Flatten(r0.subtasks), Flatten(r[1..]), id, f);
      RelabelAppend([r0], Flatten(r0.subtasks), id, f);
      if t0.id == id {
        MapMatchingAbsent(rest, id, f);
        forall x | x in Flatten(t0.subtasks) ensures x.id != id {
          IdSetFlatten(t0.subtasks, x.id);
        }
        forall x | x in Flatten(rest) ensures x.id != id {
          IdSetFlatten(rest, x.id);
        }
        RelabelNoMatch(Flatten(t0.subtasks), id, f);
        RelabelNoMatch(Flatten(rest), id, f);
      } else {
        MapMatchingFields(t0.subtasks, id, f);
        MapMatchingFields(rest, id, f);
      }
    }
  }

  /** The cascading removal `deleteTask` performs (and `moveTask` repeats):
      every node with the id is dropped together with its subtree, at any
      depth; survivors keep their order at every level. */
  function Remove(ts: seq<Task>, id: Id): (r: seq<Task>)
    ensures |r| <= |ts|
    ensures id !in IdSet(r)
    ensures IdSet(r) <= IdSet(ts)
    ensures Size(r) <= Size(ts)
    decreases ts
  {
    if ts == [] then []
    else if ts[0].id == id then Remove(ts[1..], id)
    else [ts[0].(subtasks := Remove(ts[0].subtasks, id))] + Remove(ts[1..], id)
  }

  lemma {:induction false} RemoveAbsent(ts: seq<Task>, id: Id)
    requires id !in IdSet(ts)
    ensures Remove(ts, id) == ts
    decreases ts
  {
    if ts != [] {
      RemoveAbsent(ts[0].subtasks, id);
      RemoveAbsent(ts[1..], id);
    }
  }

  lemma {:induction false} RemoveKeepsUnique(ts: seq<Task>, id: Id)
    requires UniqueIds(ts)
    ensures UniqueIds(Remove(ts, id))
    decreases ts
  {
    if ts != [] {
      RemoveKeepsUnique(ts[0].subtasks, id);
      RemoveKeepsUnique(ts[1..], id);
      if ts[0].id != id {
        var t' := ts[0].(subtasks := Remove(ts[0].subtasks, id));
        UniqueAppend([t'], Remove(ts[1..], id));
        UniqueSingleton(t');
        SingletonTree(t');
      }
    }
  }

  /** With unique identifiers, removal takes out exactly the subtree the
      lookup finds: its identifiers and its node count. */
  lemma {:induction false} RemoveFound(ts: seq<Task>, id: Id)
    requires UniqueIds(ts) && Lookup(ts, id).Some?
    ensures var t := Lookup(ts, id).value;
      IdSet(Remove(ts, id)) == IdSet(ts) - IdSet([t]) &&
      Size(Remove(ts, id)) == Size(ts) - Size([t])
    decreases ts
  {
    var t := Lookup(ts, id).value;
    var t0, rest := ts[0], ts[1..];
    SingletonTree(t0);
    SingletonTree(t);
    if t0.id == id {
      RemoveAbsent(rest, id);
    } else {
      var t' := t0.(subtasks := Remove(t0.subtasks, id));
      FlattenAppend([t'], Remove(rest, id));
      SingletonTree(t');
      if Lookup(t0.subtasks, id).Some? {
        LookupSubtree(t0.subtasks, id);
        RemoveFound(t0.subtasks, id);
        RemoveAbsent(rest, id);
      } else {
        LookupSubtree(rest, id);
        RemoveFound(rest, id);
        RemoveAbsent(t0.subtasks, id);
      }
    }
  }

  lemma HeadsFlattenCons(ts: seq<Task>)
    requires ts != []
    ensures Heads(Flatten(ts)) ==
            [Head(ts[0])] + (Heads(Flatten(ts[0].subtasks)) + Heads(Flatten(ts[1..])))
  {
    assert Flatten(ts) == [ts[0]] + (Flatten(ts[0].subtasks) + Flatten(ts[1..]));
    HeadsAppend([ts[0]], Flatten(ts[0].subtasks) + Flatten(ts[1..]));
    HeadsAppend(Flatten(ts[0].subtasks), Flatten(ts[1..]));
  }

  /** Survivors keep their relative pre-order. */
  lemma {:induction false} RemoveKeepsOrder(ts: seq<Task>, id: Id)
    ensures IsSubseq(Heads(Flatten(Remove(ts, id))), Heads(Flatten(ts)))
    decreases ts
  {
    if ts != [] {
      var t0, rest := ts[0], ts[1..];
      var hSub, hRest := Heads(Flatten(t0.subtasks)), Heads(Flatten(rest));
      var hSub', hRest' := Heads(Flatten(Remove(t0.subtasks, id))), Heads(Flatten(Remove(rest, id)));
      HeadsFlattenCons(ts);
      RemoveKeepsOrder(t0.subtasks, id);
      RemoveKeepsOrder(rest, id);
      if t0.id == id {
        SubseqDropPrefix([Head(t0)] + hSub, hRest', hRest);
        assert [Head(t0)] + (hSub + hRest) == ([Head(t0)] + hSub) + hRest;
      } else {
        var r := Remove(ts, id);
        var t' := t0.(subtasks := Remove(t0.subtasks, id));
        assert r[0] == t' && r[1..] == Remove(rest, id);
        HeadsFlattenCons(r);
        SubseqConcat(hSub', hSub, hRest', hRest);
        SubseqRefl([Head(t0)]);
        SubseqConcat([Head(t0)], [Head(t0)], hSub' + hRest', hSub + hRest);
      }
    }
  }
}
