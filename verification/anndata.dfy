/** An abstract AnnData object: only the parts the repository's own code
    inspects (column names, label columns, keys of `uns` and `obsm`, gene
    names and preview records). The matrix itself stays with the libraries. */
module AnnData {

  import opened Seqs
  import opened Sorting
  import opened Json
  import opened Text

  /** One row of a pandas frame turned into a dictionary. */
  type Record = seq<(string, Json)>

  datatype AnnData = AnnData(
    nObs: nat,
    nVars: nat,
    /** `adata.obs.columns`, in order. */
    obsColumns: seq<string>,
    /** Each `obs` column as one label per cell. */
    obs: map<string, seq<string>>,
    /** `adata.var_names`. */
    varNames: seq<string>,
    /** `adata.var.columns`. */
    varColumns: seq<string>,
    /** Keys of `adata.uns` and `adata.obsm`. */
    uns: set<string>,
    obsm: set<string>,
    /** `obs.reset_index()` and `var.reset_index()` as records. */
    obsRecords: seq<Record>,
    varRecords: seq<Record>)

  /** `column in adata.obs.columns`. */
  predicate HasColumn(a: AnnData, column: string) {
    column in a.obs
  }

  /** One entry of a pandas `value_counts()` result. */
  datatype Tally = Tally(category: string, count: nat)

  function CountOf(t: Tally): nat {
    t.count
  }

  /** The categories of a list of tallies, in order. */
  function Categories(ts: seq<Tally>): (r: seq<string>)
    ensures |r| == |ts|
    ensures forall i :: 0 <= i < |ts| ==> r[i] == ts[i].category
  {
    seq(|ts|, i requires 0 <= i < |ts| => ts[i].category)
  }

  /** One tally per distinct label, in order of first appearance. */
  function Tallies(labels: seq<string>, distinct: seq<string>): (r: seq<Tally>)
    ensures |r| == |distinct|
    ensures Categories(r) == distinct
    ensures forall t :: t in r ==> t.count == Count(labels, t.category)
  {
    seq(|distinct|, i requires 0 <= i < |distinct| => Tally(distinct[i], Count(labels, distinct[i])))
  }

  /** `Series.value_counts()`: one tally per distinct label with its number of
      occurrences, most frequent first; labels with equal counts keep the
      order of their first appearance. */
  function ValueCounts(labels: seq<string>): seq<Tally> {
    SortDesc(Tallies(labels, Distinct(labels)), CountOf)
  }

  lemma SameElements<T>(a: seq<T>, b: seq<T>)
    requires multiset(a) == multiset(b)
    ensures forall x :: x in a <==> x in b
  {
    forall x | x in a ensures x in b {
      assert x in multiset(b);
    }
    forall x | x in b ensures x in multiset(a) {
    }
  }

  /** Rearranging tallies whose categories are distinct keeps them distinct. */
  lemma PermutationKeepsCategoriesDistinct(a: seq<Tally>, b: seq<Tally>)
    requires NoDup(Categories(a)) && multiset(a) == multiset(b)
    ensures NoDup(Categories(b))
  {
    forall i, j | 0 <= i < j < |b| ensures b[i].category != b[j].category {
      if b[i].category == b[j].category {
        assert b[i] in multiset(a) && b[j] in multiset(a);
        SameCategorySameTally(a, b[i], b[j]);
        TwiceInMultiset(b, i, j);
        var x :| 0 <= x < |a| && a[x] == b[i];
        SingleOccurrence(a, x);
      }
    }
  }

  /** Among tallies with distinct categories, the category picks the tally. */
  lemma SameCategorySameTally(a: seq<Tally>, t: Tally, u: Tally)
    requires NoDup(Categories(a)) && t in a && u in a && t.category == u.category
    ensures t == u
  {
    var x :| 0 <= x < |a| && a[x] == t;
    var y :| 0 <= y < |a| && a[y] == u;
    assert Categories(a)[x] == Categories(a)[y];
  }

  /** An element at two positions occurs at least twice. */
  lemma TwiceInMultiset<T>(b: seq<T>, i: nat, j: nat)
    requires i < j < |b| && b[i] == b[j]
    ensures multiset(b)[b[i]] >= 2
  {
    assert b == b[..j] + b[j..];
    assert b[..j][i] == b[i];
    assert b[j..][0] == b[j];
  }

  lemma SingleOccurrence(a: seq<Tally>, x: nat)
    requires x < |a| && NoDup(Categories(a))
    ensures multiset(a)[a[x]] == 1
  {
    var t := a[x];
    assert a == a[..x] + [t] + a[x + 1..];
    forall k | 0 <= k < |a| && k != x ensures a[k] != t {
      assert Categories(a)[k] != Categories(a)[x];
    }
    assert t !in a[..x];
    assert t !in a[x + 1..];
  }

  lemma ValueCountsCounts(labels: seq<string>)
    ensures forall t :: t in ValueCounts(labels) ==> t.count == Count(labels, t.category) && t.count > 0
  {
    var distinct := Distinct(labels);
    var unsorted := Tallies(labels, distinct);
    SameElements(unsorted, ValueCounts(labels));
    forall t | t in ValueCounts(labels) ensures t.category in labels {
      var i :| 0 <= i < |unsorted| && unsorted[i] == t;
      assert Categories(unsorted)[i] == distinct[i];
    }
  }

  /** Reordering tallies keeps their categories. */
  lemma CategoriesOfPermutation(a: seq<Tally>, b: seq<Tally>)
    requires multiset(a) == multiset(b)
    ensures forall l :: l in Categories(a) ==> l in Categories(b)
  {
    forall l | l in Categories(a) ensures l in Categories(b) {
      var i :| 0 <= i < |a| && Categories(a)[i] == l;
      assert a[i] in multiset(b);
      var j :| 0 <= j < |b| && b[j] == a[i];
      assert Categories(b)[j] == l;
    }
  }

  lemma ValueCountsCategories(labels: seq<string>)
    ensures forall l :: l in labels <==> l in Categories(ValueCounts(labels))
  {
    var unsorted := Tallies(labels, Distinct(labels));
    var vc := ValueCounts(labels);
    assert multiset(unsorted) == multiset(vc);
    CategoriesOfPermutation(unsorted, vc);
    CategoriesOfPermutation(vc, unsorted);
  }

  /** Every distinct label gets exactly one tally carrying its count, and the
      counts never increase. */
  lemma ValueCountsSpec(labels: seq<string>)
    ensures SortedDesc(ValueCounts(labels), CountOf)
    ensures NoDup(Categories(ValueCounts(labels)))
    ensures forall l :: l in labels <==> l in Categories(ValueCounts(labels))
    ensures forall t :: t in ValueCounts(labels) ==> t.count == Count(labels, t.category) && t.count > 0
  {
    PermutationKeepsCategoriesDistinct(Tallies(labels, Distinct(labels)), ValueCounts(labels));
    ValueCountsCounts(labels);
    ValueCountsCategories(labels);
  }

  /** The sum of the counts of a list of tallies (`counts['Count'].sum()`). */
  function Total(ts: seq<Tally>): nat {
    if |ts| == 0 then 0 else Total(ts[..|ts| - 1]) + ts[|ts| - 1].count
  }

  lemma {:induction false} TotalAppend(a: seq<Tally>, b: seq<Tally>)
    ensures Total(a + b) == Total(a) + Total(b)
    decreases |b|
  {
    if |b| == 0 {
      assert a + b == a;
    } else {
      assert (a + b)[..|a + b| - 1] == a + b[..|b| - 1];
      TotalAppend(a, b[..|b| - 1]);
    }
  }

  /** Dropping the element at `j` drops one copy of it from the multiset. */
  lemma MultisetRemoveAt<T>(b: seq<T>, j: nat)
    requires j < |b|
    ensures multiset(b[..j] + b[j + 1..]) == multiset(b) - multiset{b[j]}
  {
    assert b == b[..j] + [b[j]] + b[j + 1..];
    assert multiset(b) == multiset(b[..j]) + multiset{b[j]} + multiset(b[j + 1..]);
  }

  /** Dropping the tally at `j` takes its count off the total. */
  lemma TotalRemoveAt(b: seq<Tally>, j: nat)
    requires j < |b|
    ensures Total(b) == Total(b[..j] + b[j + 1..]) + b[j].count
  {
    var x, p, q := b[j], b[..j], b[j + 1..];
    assert b == (p + [x]) + q;
    assert Total(p + [x]) == Total(p) + x.count by {
      assert (p + [x])[..|p|] == p;
    }
    TotalAppend(p + [x], q);
    TotalAppend(p, q);
  }

  /** The total does not depend on the order of the tallies. */
  lemma {:induction false} TotalPermutation(a: seq<Tally>, b: seq<Tally>)
    requires multiset(a) == multiset(b)
    ensures Total(a) == Total(b)
    decreases |a|
  {
    if |a| > 0 {
      var x := a[|a| - 1];
      var init := a[..|a| - 1];
      assert a == init + [x];
      assert multiset(init) == multiset(a) - multiset{x};
      assert x in multiset(b);
      var j :| 0 <= j < |b| && b[j] == x;
      var rest := b[..j] + b[j + 1..];
      MultisetRemoveAt(b, j);
      TotalPermutation(init, rest);
      TotalRemoveAt(b, j);
    }
  }

  /** The occurrences of the labels in `d`, added up. */
  function CountsOver(labels: seq<string>, d: seq<string>): nat {
    if |d| == 0 then 0 else CountsOver(labels, d[..|d| - 1]) + Count(labels, d[|d| - 1])
  }

  lemma {:induction false} TalliesTotal(labels: seq<string>, d: seq<string>)
    ensures Total(Tallies(labels, d)) == CountsOver(labels, d)
    decreases |d|
  {
    if |d| > 0 {
      var init := d[..|d| - 1];
      assert Tallies(labels, d)[..|d| - 1] == Tallies(labels, init);
      TalliesTotal(labels, init);
    }
  }

  /** One more label adds one to the sum exactly when it is among `d`. */
  lemma {:induction false} CountsOverSnoc(labels: seq<string>, x: string, d: seq<string>)
    requires NoDup(d)
    ensures CountsOver(labels + [x], d) == CountsOver(labels, d) + (if x in d then 1 else 0)
    decreases |d|
  {
    if |d| > 0 {
      var init := d[..|d| - 1];
      assert forall i :: 0 <= i < |init| ==> init[i] == d[i];
      CountsOverSnoc(labels, x, init);
      assert (labels + [x])[..|labels + [x]| - 1] == labels;
      assert x in d <==> x in init || x == d[|d| - 1];

    }
  }

  /** Every label is counted exactly once over the distinct labels. */
  lemma {:induction false} CountsOverDistinct(labels: seq<string>)
    ensures CountsOver(labels, Distinct(labels)) == |labels|
    decreases |labels|
  {
    if |labels| > 0 {
      var init := labels[..|labels| - 1];
      var x := labels[|labels| - 1];
      assert labels == init + [x];
      CountsOverDistinct(init);
      var d := Distinct(init);
      CountsOverSnoc(init, x, d);
      if x !in d {
        assert Distinct(labels) == d + [x];
        assert (d + [x])[..|d|] == d;
        assert Count(init, x) == 0;
      }
    }
  }

  /** The counts of `value_counts()` add up to the number of labels, so the
      percentages `Count / total * 100` add up to 100. */
  lemma ValueCountsTotal(labels: seq<string>)
    ensures Total(ValueCounts(labels)) == |labels|
  {
    var unsorted := Tallies(labels, Distinct(labels));
    TotalPermutation(unsorted, ValueCounts(labels));
    TalliesTotal(labels, Distinct(labels));
    CountsOverDistinct(labels);
  }

  /** The legend name `f"{cat} (n={counts[cat]})"` given to each category. */
  function CountedName(category: string, n: nat): (r: string)
    ensures |r| > |category| + 5
  {
    category + " (n=" + NatToString(n) + ")"
  }

  predicate IsDigit(c: char) {
    '0' <= c <= '9'
  }

  /** The length of the run of digits at the end of `s`. */
  function TrailingDigitCount(s: string): (n: nat)
    ensures n <= |s|
  {
    if |s| > 0 && IsDigit(s[|s| - 1]) then TrailingDigitCount(s[..|s| - 1]) + 1 else 0
  }

  /** Digits written after a text that ends with a non-digit can be read back
      off the end. */
  lemma {:induction false} TrailingDigits(p: string, d: string)
    requires |p| > 0 && !IsDigit(p[|p| - 1])
    requires forall i :: 0 <= i < |d| ==> IsDigit(d[i])
    ensures TrailingDigitCount(p + d) == |d|
    decreases |d|
  {
    if |d| == 0 {
      assert p + d == p;
    } else {
      assert (p + d)[..|p + d| - 1] == p + d[..|d| - 1];
      TrailingDigits(p, d[..|d| - 1]);
    }
  }

  /** Different categories, or different counts, never share a legend name,
      so renaming the categories this way cannot clash. */
  lemma CountedNameInjective(a: string, n: nat, b: string, m: nat)
    requires CountedName(a, n) == CountedName(b, m)
    ensures a == b && n == m
  {
    var da := NatToString(n);
    var db := NatToString(m);
    var x := CountedName(a, n);
    var head := x[..|x| - 1];
    assert head == (a + " (n=") + da;
    assert head == (b + " (n=") + db;
    TrailingDigits(a + " (n=", da);
    TrailingDigits(b + " (n=", db);
    assert da == head[|head| - |da|..] == db;
    assert a + " (n=" == head[..|head| - |da|] == b + " (n=";
    assert a == (a + " (n=")[..|a|];
    NatToStringRoundTrip(n);
    NatToStringRoundTrip(m);
  }

  /** `cat.rename_categories(new_cats)` on a label column: every label is
      replaced by its legend name. */
  function CountedLabels(labels: seq<string>): (r: seq<string>)
    ensures |r| == |labels|
    ensures forall i :: 0 <= i < |labels| ==> r[i] == CountedName(labels[i], Count(labels, labels[i]))
  {
    seq(|labels|, i requires 0 <= i < |labels| => CountedName(labels[i], Count(labels, labels[i])))
  }

  /** The renaming is one-to-one: two cells share a legend label exactly when
      they shared a label, so no categories merge. */
  lemma CountedLabelsKeepEquality(labels: seq<string>)
    ensures forall i, j :: 0 <= i < |labels| && 0 <= j < |labels| ==>
      (CountedLabels(labels)[i] == CountedLabels(labels)[j] <==> labels[i] == labels[j])
  {
    var r := CountedLabels(labels);
    forall i, j | 0 <= i < |labels| && 0 <= j < |labels| && r[i] == r[j]
      ensures labels[i] == labels[j]
    {
      CountedNameInjective(labels[i], Count(labels, labels[i]), labels[j], Count(labels, labels[j]));
    }
  }
}
