/** Sequence operations shared by the model: filtering, counting, flattening and
    first-occurrence de-duplication (pandas' `unique()`, Python's
    "append if not already present" loops). */
module Seqs {

  /** No element occurs twice. */
  predicate NoDup<T(==)>(s: seq<T>) {
    forall i, j :: 0 <= i < j < |s| ==> s[i] != s[j]
  }

  /** The elements of `s` that satisfy `p`, in order. */
  function Filter<T>(s: seq<T>, p: T -> bool): (r: seq<T>)
    ensures |r| <= |s|
    ensures forall i :: 0 <= i < |r| ==> p(r[i]) && r[i] in s
    ensures forall x :: x in s && p(x) ==> x in r
  {
    if |s| == 0 then []
    else if p(s[|s| - 1]) then Filter(s[..|s| - 1], p) + [s[|s| - 1]]
    else Filter(s[..|s| - 1], p)
  }

  /** Filtering distributes over concatenation. */
  lemma {:induction false} FilterAppend<T>(a: seq<T>, b: seq<T>, p: T -> bool)
    ensures Filter(a + b, p) == Filter(a, p) + Filter(b, p)
    decreases |b|
  {
    if |b| == 0 {
      assert a + b == a;
    } else {
      var b' := b[..|b| - 1];
      assert (a + b)[..|a + b| - 1] == a + b';
      assert (a + b)[|a + b| - 1] == b[|b| - 1];
      FilterAppend(a, b', p);
    }
  }

  /** How many times `x` occurs in `s`. */
  function Count<T(==)>(s: seq<T>, x: T): (n: nat)
    ensures n <= |s|
    ensures n > 0 <==> x in s
  {
    if |s| == 0 then 0
    else Count(s[..|s| - 1], x) + (if s[|s| - 1] == x then 1 else 0)
  }

  /** How many elements of `s` satisfy `p` (pandas' `np.sum(mask)`). */
  function CountWhere<T>(s: seq<T>, p: T -> bool): (n: nat)
    ensures n == |Filter(s, p)|
  {
    if |s| == 0 then 0
    else CountWhere(s[..|s| - 1], p) + (if p(s[|s| - 1]) then 1 else 0)
  }

  /** Concatenation of a sequence of sequences (`list.extend` in a loop). */
  function Flatten<T>(ss: seq<seq<T>>): (r: seq<T>)
    ensures forall i, x :: 0 <= i < |ss| && x in ss[i] ==> x in r
    ensures forall x :: x in r ==> exists i :: 0 <= i < |ss| && x in ss[i]
  {
    if |ss| == 0 then []
    else
      var r := Flatten(ss[..|ss| - 1]) + ss[|ss| - 1];
      assert forall i :: 0 <= i < |ss| - 1 ==> ss[..|ss| - 1][i] == ss[i];
      r
  }

  /** `a` is an order-preserving sub-list of `b`. */
  predicate IsSubseq<T(==)>(a: seq<T>, b: seq<T>)
    decreases |b|
  {
    if |a| == 0 then true
    else if |b| == 0 then false
    else if a[|a| - 1] == b[|b| - 1] then IsSubseq(a[..|a| - 1], b[..|b| - 1])
    else IsSubseq(a, b[..|b| - 1])
  }

  /** Filtering keeps the order of what it keeps. */
  lemma {:induction false} FilterIsSubseq<T>(s: seq<T>, p: T -> bool)
    ensures IsSubseq(Filter(s, p), s)
    decreases |s|
  {
    if |s| > 0 {
      var init := s[..|s| - 1];
      FilterIsSubseq(init, p);
      if p(s[|s| - 1]) {
        assert Filter(s, p)[..|Filter(s, p)| - 1] == Filter(init, p);
      } else {
        SubseqOfPrefix(Filter(init, p), init, s);
      }
    }
  }

  /** A sub-list of the first |s| - 1 elements is a sub-list of `s`. */
  lemma {:induction false} SubseqOfPrefix<T>(a: seq<T>, init: seq<T>, s: seq<T>)
    requires |s| > 0 && init == s[..|s| - 1]
    requires IsSubseq(a, init)
    ensures IsSubseq(a, s)
    decreases |s|, 0
  {
    if |a| > 0 && a[|a| - 1] == s[|s| - 1] {
      SubseqDropLast(a, init);
    }
  }

  /** Dropping the last element of a sub-list leaves a sub-list. */
  lemma {:induction false} SubseqDropLast<T>(a: seq<T>, b: seq<T>)
    requires |a| > 0 && IsSubseq(a, b)
    ensures IsSubseq(a[..|a| - 1], b)
    decreases |b|, 1
  {
    if a[|a| - 1] == b[|b| - 1] {
      SubseqOfPrefix(a[..|a| - 1], b[..|b| - 1], b);
    } else {
      SubseqDropLast(a, b[..|b| - 1]);
      SubseqOfPrefix(a[..|a| - 1], b[..|b| - 1], b);
    }
  }

  /** Every list is a sub-list of itself. */
  lemma {:induction false} SubseqRefl<T>(s: seq<T>)
    ensures IsSubseq(s, s)
    decreases |s|
  {
    if |s| > 0 {
      SubseqRefl(s[..|s| - 1]);
    }
  }

  /** Filtering a list without repetitions gives a list without repetitions. */
  lemma {:induction false} FilterNoDup<T>(s: seq<T>, p: T -> bool)
    requires NoDup(s)
    ensures NoDup(Filter(s, p))
    decreases |s|
  {
    if |s| > 0 {
      var init := s[..|s| - 1];
      assert NoDup(init);
      FilterNoDup(init, p);
    }
  }

  /** Two tests that agree on every element of `s` filter it alike. */
  lemma {:induction false} FilterCongruent<T>(s: seq<T>, p: T -> bool, q: T -> bool)
    requires forall x :: x in s ==> p(x) == q(x)
    ensures Filter(s, p) == Filter(s, q)
    decreases |s|
  {
    if |s| > 0 {
      FilterCongruent(s[..|s| - 1], p, q);
    }
  }

  /** Filtering with a test every element passes changes nothing. */
  lemma {:induction false} FilterAll<T>(s: seq<T>, p: T -> bool)
    requires forall x :: x in s ==> p(x)
    ensures Filter(s, p) == s
    decreases |s|
  {
    if |s| > 0 {
      FilterAll(s[..|s| - 1], p);
    }
  }

  /** Filtering with a test no element passes leaves nothing. */
  lemma {:induction false} FilterNone<T>(s: seq<T>, p: T -> bool)
    requires forall x :: x in s ==> !p(x)
    ensures Filter(s, p) == []
    decreases |s|
  {
    if |s| > 0 {
      FilterNone(s[..|s| - 1], p);
    }
  }

  /** The first element a filter keeps is the first element of the list
      that passes the test. */
  lemma {:induction false} FilterFirst<T>(s: seq<T>, p: T -> bool)
    requires |Filter(s, p)| > 0
    ensures exists i :: 0 <= i < |s| && s[i] == Filter(s, p)[0] && p(s[i]) &&
                        forall j :: 0 <= j < i ==> !p(s[j])
    decreases |s|
  {
    var init := s[..|s| - 1];
    if |Filter(init, p)| > 0 {
      FilterFirst(init, p);
      var i :| 0 <= i < |init| && init[i] == Filter(init, p)[0] && p(init[i]) &&
               forall j :: 0 <= j < i ==> !p(init[j]);
      assert s[i] == init[i];
      assert forall j :: 0 <= j < i ==> s[j] == init[j];
    } else {
      assert p(s[|s| - 1]);
      forall j | 0 <= j < |s| - 1 ensures !p(s[j]) {
        assert s[j] == init[j] && init[j] in init;
      }
    }
  }

  /** A sub-list only holds elements of the list. */
  lemma {:induction false} SubseqMembers<T>(a: seq<T>, b: seq<T>)
    requires IsSubseq(a, b)
    ensures forall x :: x in a ==> x in b
    decreases |b|
  {
    if |a| > 0 {
      if a[|a| - 1] == b[|b| - 1] {
        SubseqMembers(a[..|a| - 1], b[..|b| - 1]);
        assert forall x :: x in a ==> x in a[..|a| - 1] || x == a[|a| - 1];
      } else {
        SubseqMembers(a, b[..|b| - 1]);
      }
    }
  }

  /** A sub-list of a list without repetitions has none either. */
  lemma {:induction false} SubseqNoDup<T>(a: seq<T>, b: seq<T>)
    requires IsSubseq(a, b) && NoDup(b)
    ensures NoDup(a)
    decreases |b|
  {
    if |a| > 0 {
      var b' := b[..|b| - 1];
      assert NoDup(b');
      if a[|a| - 1] == b[|b| - 1] {
        var a' := a[..|a| - 1];
        SubseqNoDup(a', b');
        SubseqMembers(a', b');
        assert forall i :: 0 <= i < |a'| ==> a[i] == a'[i] && a'[i] in b';
      } else {
        SubseqNoDup(a, b');
      }
    }
  }

  /** Index of the first occurrence of `x` in `s`. */
  function FirstIndex<T(==)>(s: seq<T>, x: T): (i: nat)
    requires x in s
    ensures i < |s| && s[i] == x && x !in s[..i]
  {
    if s[0] == x then 0
    else
      var i := 1 + FirstIndex(s[1..], x);
      assert s[..i] == [s[0]] + s[1..][..i - 1];
      i
  }

  lemma FirstIndexOfPrefix<T>(s: seq<T>, n: nat, x: T)
    requires n <= |s| && x in s[..n]
    ensures FirstIndex(s[..n], x) == FirstIndex(s, x)
  {
    var i := FirstIndex(s[..n], x);
    assert s[..n][i] == s[i];
  }

  /** An element that occurs only at the end is first found there. */
  lemma FirstIndexLast<T>(s: seq<T>, y: T)
    requires |s| > 0 && y == s[|s| - 1] && y !in s[..|s| - 1]
    ensures FirstIndex(s, y) == |s| - 1
  {
    var i := FirstIndex(s, y);
    assert forall j :: 0 <= j < |s| - 1 ==> s[..|s| - 1][j] == s[j];
  }

  /** What filtering `s` keeps beyond filtering all but its last element is
      that last element, kept once. */
  lemma FilterNewLast<T>(s: seq<T>, p: T -> bool, y: T)
    requires |s| > 0 && y in Filter(s, p) && y !in Filter(s[..|s| - 1], p)
    ensures y == s[|s| - 1] && p(y) && y !in s[..|s| - 1]
    ensures Filter(s, p) == Filter(s[..|s| - 1], p) + [y]
  {
  }

  /** Filtering all but the last element gives a prefix of the filtered list. */
  lemma FilterInitIsPrefix<T>(s: seq<T>, p: T -> bool)
    requires |s| > 0
    ensures |Filter(s[..|s| - 1], p)| <= |Filter(s, p)|
    ensures Filter(s, p)[..|Filter(s[..|s| - 1], p)|] == Filter(s[..|s| - 1], p)
  {
    var fi := Filter(s[..|s| - 1], p);
    if p(s[|s| - 1]) {
      assert Filter(s, p) == fi + [s[|s| - 1]];
    }
  }

  /** Two elements kept from all but the last element are found in the same
      order among those kept from the shorter list. */
  lemma FirstOrderInInit<T>(s: seq<T>, p: T -> bool, x: T, y: T)
    requires |s| > 0
    requires x in Filter(s[..|s| - 1], p) && y in Filter(s[..|s| - 1], p)
    requires x in Filter(s, p) && y in Filter(s, p)
    requires FirstIndex(Filter(s, p), x) < FirstIndex(Filter(s, p), y)
    ensures FirstIndex(Filter(s[..|s| - 1], p), x) < FirstIndex(Filter(s[..|s| - 1], p), y)
  {
    var f := Filter(s, p);
    var fi := Filter(s[..|s| - 1], p);
    var n := |fi|;
    FilterInitIsPrefix(s, p);
    FirstIndexOfPrefix(f, n, x);
    FirstIndexOfPrefix(f, n, y);
    assert FirstIndex(f, x) == FirstIndex(fi, x);
    assert FirstIndex(f, y) == FirstIndex(fi, y);
  }

  /** First occurrences in all but the last element are first occurrences
      in the whole list. */
  lemma FirstOrderLift<T>(s: seq<T>, x: T, y: T)
    requires |s| > 0 && x in s[..|s| - 1] && y in s[..|s| - 1]
    requires FirstIndex(s[..|s| - 1], x) < FirstIndex(s[..|s| - 1], y)
    ensures FirstIndex(s, x) < FirstIndex(s, y)
  {
    var n := |s| - 1;
    FirstIndexOfPrefix(s, n, x);
    FirstIndexOfPrefix(s, n, y);
    assert FirstIndex(s, x) == FirstIndex(s[..n], x);
    assert FirstIndex(s, y) == FirstIndex(s[..n], y);
  }

  /** An element kept before the last one is found before it. */
  lemma FirstOrderNewLast<T>(s: seq<T>, p: T -> bool, x: T, y: T)
    requires |s| > 0 && x in Filter(s[..|s| - 1], p)
    requires y in Filter(s, p) && y !in Filter(s[..|s| - 1], p)
    ensures FirstIndex(s, x) < FirstIndex(s, y)
  {
    var n := |s| - 1;
    FilterNewLast(s, p, y);
    FirstIndexLast(s, y);
    FirstIndexOfPrefix(s, n, x);
    assert FirstIndex(s, x) == FirstIndex(s[..n], x) < n;
    assert FirstIndex(s, y) == n;
  }

  /** Filtering keeps the order of first occurrences. */
  lemma {:induction false} FilterKeepsFirstOrder<T>(s: seq<T>, p: T -> bool, x: T, y: T)
    requires x in Filter(s, p) && y in Filter(s, p)
    requires FirstIndex(Filter(s, p), x) < FirstIndex(Filter(s, p), y)
    ensures FirstIndex(s, x) < FirstIndex(s, y)
  {
    var init := s[..|s| - 1];
    var fi := Filter(init, p);
    if x in fi && y in fi {
      FirstOrderInInit(s, p, x, y);
      FilterKeepsFirstOrder(init, p, x, y);
      FirstOrderLift(s, x, y);
    } else if x in fi {
      FirstOrderNewLast(s, p, x, y);
    } else {
      FilterNewLast(s, p, x);
      FirstIndexLast(Filter(s, p), x);
    }
  }

  /** The distinct elements of `s`, each at its first occurrence
      (pandas' `Series.unique()`). */
  function Distinct<T(==)>(s: seq<T>): (r: seq<T>)
    ensures NoDup(r)
    ensures forall x :: x in r ==> x in s
    ensures forall x :: x in s ==> x in r
  {
    if |s| == 0 then []
    else
      var d := Distinct(s[..|s| - 1]);
      if s[|s| - 1] in d then d else d + [s[|s| - 1]]
  }

  /** The distinct elements appear in the order of their first occurrences. */
  lemma {:induction false} DistinctFirstOccurrenceOrder<T>(s: seq<T>)
    ensures forall i, j :: 0 <= i < j < |Distinct(s)| ==> FirstIndex(s, Distinct(s)[i]) < FirstIndex(s, Distinct(s)[j])
  {
    if |s| > 0 {
      var init := s[..|s| - 1];
      var d := Distinct(init);
      var x := s[|s| - 1];
      DistinctFirstOccurrenceOrder(init);
      assert s == init + [x];
      forall y | y in d ensures FirstIndex(s, y) == FirstIndex(init, y) {
        FirstIndexOfPrefix(s, |s| - 1, y);
      }
      if x !in d {
        assert FirstIndex(s, x) == |s| - 1;
      }
    }
  }

  lemma DistinctLength<T>(s: seq<T>)
    ensures |Distinct(s)| <= |s|
  {
    var d := Distinct(s);
    DistinctCardinality(d);
    assert (set x | x in d) <= (set x | x in s);
    SetOfSeqSize(s);
    SubsetSize(set x | x in d, set x | x in s);
  }

  lemma {:induction false} DistinctCardinality<T>(d: seq<T>)
    requires NoDup(d)
    ensures |set x | x in d| == |d|
  {
    if |d| > 0 {
      var init := d[..|d| - 1];
      DistinctCardinality(init);
      assert (set x | x in d) == (set x | x in init) + {d[|d| - 1]};
    }
  }

  lemma {:induction false} SetOfSeqSize<T>(s: seq<T>)
    ensures |set x | x in s| <= |s|
  {
    if |s| > 0 {
      var init := s[..|s| - 1];
      SetOfSeqSize(init);
      assert (set x | x in s) == (set x | x in init) + {s[|s| - 1]};
    }
  }

  lemma SubsetSize<T>(a: set<T>, b: set<T>)
    requires a <= b
    ensures |a| <= |b|
  {
    assert b == a + (b - a);
  }
}
