/** A stable sort into non-increasing order of a natural-number key: what
    `Array.prototype.sort((a, b) => b.count - a.count)` does in JavaScript
    (stable since ES2019) and how the model orders pandas' `value_counts()`. */
module Sorting {

  import opened Seqs

  /** Keys never increase from left to right. */
  predicate SortedDesc<T>(s: seq<T>, key: T -> nat) {
    forall i, j :: 0 <= i < j < |s| ==> key(s[i]) >= key(s[j])
  }

  /** Places `x` before the first element whose key is not larger than its own. */
  function Insert<T>(x: T, s: seq<T>, key: T -> nat): (r: seq<T>)
    ensures |r| == |s| + 1
    ensures multiset(r) == multiset(s) + multiset{x}
  {
    if |s| == 0 then [x]
    else if key(s[0]) <= key(x) then [x] + s
    else
      assert s == [s[0]] + s[1..];
      [s[0]] + Insert(x, s[1..], key)
  }

  lemma {:induction false} InsertSorted<T>(x: T, s: seq<T>, key: T -> nat)
    requires SortedDesc(s, key)
    ensures SortedDesc(Insert(x, s, key), key)
  {
    if |s| > 0 && key(s[0]) > key(x) {
      var t := Insert(x, s[1..], key);
      InsertSorted(x, s[1..], key);
      forall j | 0 <= j < |t| ensures key(s[0]) >= key(t[j]) {
        assert t[j] in multiset(t);
        assert t[j] == x || t[j] in multiset(s[1..]);
        if t[j] != x {
          var m :| 0 <= m < |s[1..]| && s[1..][m] == t[j];
          assert s[m + 1] == t[j];
        }
      }
    }
  }

  /** Stable insertion sort into non-increasing key order. */
  function SortDesc<T>(s: seq<T>, key: T -> nat): (r: seq<T>)
    ensures |r| == |s|
    ensures multiset(r) == multiset(s)
    ensures SortedDesc(r, key)
  {
    if |s| == 0 then []
    else
      assert s == [s[0]] + s[1..];
      var t := SortDesc(s[1..], key);
      InsertSorted(s[0], t, key);
      Insert(s[0], t, key)
  }

  /** The test "has key `k`". */
  function HasKey<T>(key: T -> nat, k: nat): T -> bool {
    x => key(x) == k
  }

  lemma FilterCons<T>(x: T, s: seq<T>, p: T -> bool)
    ensures Filter([x] + s, p) == (if p(x) then [x] else []) + Filter(s, p)
  {
    FilterAppend([x], s, p);
    assert [x][..0] == [];
    assert Filter([x], p) == (if p(x) then [x] else []);
  }

  /** An element with key `k` comes first among the elements with key `k`
      once inserted: everything `Insert` places before it has a larger key. */
  lemma {:induction false} FilterInsertSameKey<T>(x: T, s: seq<T>, key: T -> nat, k: nat)
    requires key(x) == k
    ensures Filter(Insert(x, s, key), HasKey(key, k)) == [x] + Filter(s, HasKey(key, k))
  {
    var p := HasKey(key, k);
    if |s| == 0 || key(s[0]) <= key(x) {
      FilterCons(x, s, p);
    } else {
      var t := s[1..];
      assert s == [s[0]] + t;
      FilterInsertSameKey(x, t, key, k);
      FilterCons(s[0], Insert(x, t, key), p);
      FilterCons(s[0], t, p);
    }
  }

  /** Inserting an element with another key leaves the elements with key `k` alone. */
  lemma {:induction false} FilterInsertOtherKey<T>(x: T, s: seq<T>, key: T -> nat, k: nat)
    requires key(x) != k
    ensures Filter(Insert(x, s, key), HasKey(key, k)) == Filter(s, HasKey(key, k))
  {
    var p := HasKey(key, k);
    assert !p(x);
    if |s| == 0 || key(s[0]) <= key(x) {
      FilterCons(x, s, p);
    } else {
      var t := s[1..];
      assert s == [s[0]] + t;
      assert Insert(x, s, key) == [s[0]] + Insert(x, t, key);
      FilterInsertOtherKey(x, t, key, k);
      FilterCons(s[0], Insert(x, t, key), p);
      FilterCons(s[0], t, p);
    }
  }

  /** One step of insertion sort keeps the elements with key `k` in the
      order they had in the unsorted list `[x] + u`. */
  lemma InsertStable<T>(x: T, t: seq<T>, u: seq<T>, key: T -> nat, k: nat)
    requires Filter(t, HasKey(key, k)) == Filter(u, HasKey(key, k))
    ensures Filter(Insert(x, t, key), HasKey(key, k)) == Filter([x] + u, HasKey(key, k))
  {
    if key(x) == k {
      FilterInsertSameKey(x, t, key, k);
    } else {
      FilterInsertOtherKey(x, t, key, k);
    }
    FilterCons(x, u, HasKey(key, k));
  }

  /** Stability: elements with equal keys keep their original relative order. */
  lemma {:induction false} SortDescStable<T>(s: seq<T>, key: T -> nat, k: nat)
    ensures Filter(SortDesc(s, key), HasKey(key, k)) == Filter(s, HasKey(key, k))
  {
    if |s| > 0 {
      SortDescStable(s[1..], key, k);
      InsertStable(s[0], SortDesc(s[1..], key), s[1..], key, k);
      assert s == [s[0]] + s[1..];
    }
  }

  /** Sorting a list that is already in order changes nothing. */
  lemma {:induction false} SortDescOfSorted<T>(s: seq<T>, key: T -> nat)
    requires SortedDesc(s, key)
    ensures SortDesc(s, key) == s
  {
    if |s| > 0 {
      assert SortedDesc(s[1..], key);
      SortDescOfSorted(s[1..], key);
      assert s == [s[0]] + s[1..];
      if |s| > 1 {
        assert key(s[1]) <= key(s[0]);
      }
    }
  }
}
