/** Order-preserving selection on sequences: the `Array.prototype.filter`
    the views and queries are built from, and the subsequence relation
    that states what it preserves. */
module Sequences {

  /** `a` is obtained from `b` by deleting elements, keeping order. */
  predicate IsSubseq<T(==)>(a: seq<T>, b: seq<T>)
    decreases |b|
  {
    a == [] ||
    (b != [] && ((a[0] == b[0] && IsSubseq(a[1..], b[1..])) || IsSubseq(a, b[1..])))
  }

  lemma {:induction false} SubseqRefl<T>(a: seq<T>)
    ensures IsSubseq(a, a)
    decreases |a|
  {
    if a != [] {
      SubseqRefl(a[1..]);
    }
  }

  lemma {:induction false} SubseqDropPrefix<T>(x: seq<T>, a: seq<T>, b: seq<T>)
    requires IsSubseq(a, b)
    ensures IsSubseq(a, x + b)
    decreases |x|
  {
    if x == [] {
      assert x + b == b;
    } else {
      SubseqDropPrefix(x[1..], a, b);
      assert (x + b)[1..] == x[1..] + b;
    }
  }

  lemma {:induction false} SubseqConcat<T>(a: seq<T>, b: seq<T>, c: seq<T>, d: seq<T>)
    requires IsSubseq(a, b) && IsSubseq(c, d)
    ensures IsSubseq(a + c, b + d)
    decreases |b|
  {
    if a == [] {
      assert a + c == c;
      SubseqDropPrefix(b, c, d);
    } else {
      assert (b + d)[1..] == b[1..] + d;
      if a[0] == b[0] && IsSubseq(a[1..], b[1..]) {
        SubseqConcat(a[1..], b[1..], c, d);
        assert (a + c)[1..] == a[1..] + c;
      } else {
        SubseqConcat(a, b[1..], c, d);
      }
    }
  }

  /** The elements of `s` that satisfy `p`, in their original order. */
  function Filter<T(!new)>(s: seq<T>, p: T -> bool): (r: seq<T>)
    ensures |r| <= |s|
    ensures forall i :: 0 <= i < |r| ==> p(r[i])
    ensures forall x :: x in r <==> x in s && p(x)
    decreases |s|
  {
    if s == [] then []
    else if p(s[0]) then [s[0]] + Filter(s[1..], p)
    else Filter(s[1..], p)
  }

  lemma {:induction false} FilterSubseq<T(!new)>(s: seq<T>, p: T -> bool)
    ensures IsSubseq(Filter(s, p), s)
    decreases |s|
  {
    if s != [] {
      FilterSubseq(s[1..], p);
      if p(s[0]) {
        assert Filter(s, p)[1..] == Filter(s[1..], p);
      }
    }
  }

  lemma {:induction false} FilterAppend<T(!new)>(a: seq<T>, b: seq<T>, p: T -> bool)
    ensures Filter(a + b, p) == Filter(a, p) + Filter(b, p)
    decreases |a|
  {
    if a == [] {
      assert a + b == b;
    } else {
      assert (a + b)[1..] == a[1..] + b;
      FilterAppend(a[1..], b, p);
    }
  }

  /** Filtering by `p` and by its negation splits `s` in two. */
  lemma {:induction false} FilterSplit<T(!new)>(s: seq<T>, p: T -> bool)
    ensures |Filter(s, p)| + |Filter(s, x => !p(x))| == |s|
    ensures multiset(Filter(s, p)) + multiset(Filter(s, x => !p(x))) == multiset(s)
    decreases |s|
  {
    if s != [] {
      FilterSplit(s[1..], p);
      assert s == [s[0]] + s[1..];
    }
  }

  /** Four predicates of which each element satisfies exactly one split a
      sequence in four: the filters' lengths add up to its length and their
      elements to its elements. */
  lemma {:induction false} FilterPartition<T(!new)>(s: seq<T>, p1: T -> bool, p2: T -> bool, p3: T -> bool, p4: T -> bool)
    requires forall x :: (p1(x) && !p2(x) && !p3(x) && !p4(x)) || (!p1(x) && p2(x) && !p3(x) && !p4(x)) ||
                         (!p1(x) && !p2(x) && p3(x) && !p4(x)) || (!p1(x) && !p2(x) && !p3(x) && p4(x))
    ensures |Filter(s, p1)| + |Filter(s, p2)| + |Filter(s, p3)| + |Filter(s, p4)| == |s|
    ensures multiset(Filter(s, p1)) + multiset(Filter(s, p2)) + multiset(Filter(s, p3)) +
            multiset(Filter(s, p4)) == multiset(s)
    decreases |s|
  {
    if s != [] {
      FilterPartition(s[1..], p1, p2, p3, p4);
      assert s == [s[0]] + s[1..];
    }
  }
}
