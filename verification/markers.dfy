/** Marker genes and the per-(marker, cell type) expression table built by
    `count_marker_gene_expression` (the same logic in the back end and in the
    older root module). Expression values stay with the libraries: whether a
    cell expresses a marker above the threshold is a parameter. */
module Markers {

  import opened Wrappers
  import opened Seqs

  /** `marker_dict`: cell type to marker genes, in dictionary order. */
  type MarkerDict = seq<(string, seq<string>)>

  function MarkerLists(d: MarkerDict): (r: seq<seq<string>>)
    ensures |r| == |d|
    ensures forall i :: 0 <= i < |d| ==> r[i] == d[i].1
  {
    seq(|d|, i requires 0 <= i < |d| => d[i].1)
  }

  /** `all_markers`: every list of the dictionary, one after the other. */
  function AllMarkers(d: MarkerDict): seq<string> {
    Flatten(MarkerLists(d))
  }

  function InVarNames(varNames: seq<string>): string -> bool {
    m => m in varNames
  }

  /** The markers that are kept: the distinct markers present in `var_names`,
      each at its first occurrence. */
  function KeptMarkers(d: MarkerDict, varNames: seq<string>): (r: seq<string>)
    ensures NoDup(r)
    ensures forall m :: m in r <==> m in AllMarkers(d) && m in varNames
  {
    Distinct(Filter(AllMarkers(d), InVarNames(varNames)))
  }

  lemma FlattenSnoc<T>(ss: seq<seq<T>>, i: nat)
    requires i < |ss|
    ensures Flatten(ss[..i + 1]) == Flatten(ss[..i]) + ss[i]
  {
    assert ss[..i + 1][..i] == ss[..i];
  }

  lemma DistinctSnoc<T>(f: seq<T>, x: T)
    ensures Distinct(f + [x]) == if x in Distinct(f) then Distinct(f) else Distinct(f) + [x]
  {
    assert (f + [x])[..|f|] == f;
  }

  lemma FilterSnoc<T>(s: seq<T>, n: nat, p: T -> bool)
    requires n < |s|
    ensures Filter(s[..n + 1], p) == if p(s[n]) then Filter(s[..n], p) + [s[n]] else Filter(s[..n], p)
  {
    assert s[..n + 1][..n] == s[..n];
  }

  /** One step of "append if kept and not seen yet". */
  lemma DistinctFilterSnoc<T>(s: seq<T>, n: nat, p: T -> bool)
    requires n < |s|
    ensures Distinct(Filter(s[..n + 1], p)) ==
      var d := Distinct(Filter(s[..n], p));
      if p(s[n]) && s[n] !in d then d + [s[n]] else d
  {
    FilterSnoc(s, n, p);
    if p(s[n]) {
      DistinctSnoc(Filter(s[..n], p), s[n]);
    }
  }

  /** The two loops: flatten the dictionary's lists, then append each marker
      that is in `var_names` and not yet in the result. */
  method UniqueMarkers(d: MarkerDict, varNames: seq<string>) returns (unique: seq<string>)
    ensures unique == KeptMarkers(d, varNames)
    ensures NoDup(unique)
    ensures forall m :: m in unique <==> m in AllMarkers(d) && m in varNames
  {
    var lists := MarkerLists(d);
    var all: seq<string> := [];
    for i := 0 to |d|
      invariant all == Flatten(lists[..i])
    {
      FlattenSnoc(lists, i);
      all := all + d[i].1;
    }
    assert lists[..|d|] == lists;
    var p := InVarNames(varNames);
    unique := [];
    for i := 0 to |all|
      invariant unique == Distinct(Filter(all[..i], p))
    {
      DistinctFilterSnoc(all, i, p);
      if all[i] !in unique && all[i] in varNames {
        unique := unique + [all[i]];
      }
    }
    assert all[..|all|] == all;
  }

  /** The kept markers appear in the order of their first occurrences in
      the dictionary's lists. */
  lemma KeptMarkersFirstOccurrenceOrder(d: MarkerDict, varNames: seq<string>)
    ensures forall i, j :: 0 <= i < j < |KeptMarkers(d, varNames)| ==>
      FirstIndex(AllMarkers(d), KeptMarkers(d, varNames)[i]) < FirstIndex(AllMarkers(d), KeptMarkers(d, varNames)[j])
  {
    var all := AllMarkers(d);
    var p := InVarNames(varNames);
    var f := Filter(all, p);
    var k := KeptMarkers(d, varNames);
    DistinctFirstOccurrenceOrder(f);
    forall i, j | 0 <= i < j < |k| ensures FirstIndex(all, k[i]) < FirstIndex(all, k[j]) {
      FilterKeepsFirstOrder(all, p, k[i], k[j]);
    }
  }

  /** Index of the first dictionary entry whose list holds `marker`. */
  function FirstOwner(d: MarkerDict, marker: string): (r: Option<nat>)
    ensures r.Some? ==> r.value < |d| && marker in d[r.value].1
    ensures r.Some? ==> forall j :: 0 <= j < r.value ==> marker !in d[j].1
    ensures r.None? <==> forall j :: 0 <= j < |d| ==> marker !in d[j].1
  {
    if |d| == 0 then None
    else if marker in d[0].1 then Some(0)
    else
      var r := FirstOwner(d[1..], marker);
      assert forall j :: 1 <= j < |d| ==> d[1..][j - 1] == d[j];
      if r.Some? then Some(r.value + 1) else None
  }

  /** The "Marker For" column:
      `next((ct for ct, markers in d.items() if marker in markers), 'Unknown')`. */
  function MarkerFor(d: MarkerDict, marker: string): string {
    match FirstOwner(d, marker)
    case Some(i) => d[i].0
    case None => "Unknown"
  }

  /** Every kept marker came from some list of the dictionary, so its owner
      is the first cell type listing it and never the fallback. */
  lemma KeptMarkersHaveOwner(d: MarkerDict, varNames: seq<string>, m: string)
    requires m in KeptMarkers(d, varNames)
    ensures m in varNames
    ensures FirstOwner(d, m).Some?
    ensures MarkerFor(d, m) == d[FirstOwner(d, m).value].0
  {
    assert m in AllMarkers(d);
    var i :| 0 <= i < |MarkerLists(d)| && m in MarkerLists(d)[i];
    assert m in d[i].1;
  }

  /** The number of the first `n` cells that carry label `cellType` and
      express `marker` above the threshold. */
  function ExpressingCount(annotation: seq<string>, cellType: string, marker: string,
                           expressed: (string, nat) -> bool, n: nat): (c: nat)
    requires n <= |annotation|
    ensures c <= Count(annotation[..n], cellType)
  {
    if n == 0 then 0
    else
      assert annotation[..n][..n - 1] == annotation[..n - 1];
      ExpressingCount(annotation, cellType, marker, expressed, n - 1)
      + (if annotation[n - 1] == cellType && expressed(marker, n - 1) then 1 else 0)
  }

  /** One row of the table. */
  datatype MarkerRow = MarkerRow(
    marker: string,
    cellType: string,
    total: nat,
    expressing: nat,
    percentage: real,
    markerFor: string)

  /** `expressing / total * 100`, or 0 for a cell type without cells. */
  function Percentage(expressing: nat, total: nat): (p: real)
    requires expressing <= total
    ensures 0.0 <= p <= 100.0
    ensures total == 0 ==> p == 0.0
    ensures total > 0 ==> p * (total as real) == (expressing as real) * 100.0
  {
    if total > 0 then
      assert (expressing as real) / (total as real) <= 1.0;
      (expressing as real) / (total as real) * 100.0
    else 0.0
  }

  function Row(d: MarkerDict, marker: string, cellType: string, annotation: seq<string>,
               expressed: (string, nat) -> bool): (r: MarkerRow)
    ensures r.marker == marker && r.cellType == cellType
    ensures r.total == Count(annotation, cellType)
    ensures r.expressing <= r.total
    ensures 0.0 <= r.percentage <= 100.0
    ensures r.total == 0 ==> r.percentage == 0.0
  {
    assert annotation[..|annotation|] == annotation;
    var total := Count(annotation, cellType);
    var expressing := ExpressingCount(annotation, cellType, marker, expressed, |annotation|);
    MarkerRow(marker, cellType, total, expressing, Percentage(expressing, total), MarkerFor(d, marker))
  }

  /** The nested loops `for x in xs: for y in ys: rows.append(f(x, y))`. */
  function Product<A, B, R>(xs: seq<A>, ys: seq<B>, f: (A, B) -> R): seq<R> {
    if |xs| == 0 then []
    else
      Product(xs[..|xs| - 1], ys, f)
      + seq(|ys|, j requires 0 <= j < |ys| => f(xs[|xs| - 1], ys[j]))
  }

  lemma {:induction false} ProductLength<A, B, R>(xs: seq<A>, ys: seq<B>, f: (A, B) -> R)
    ensures |Product(xs, ys, f)| == |xs| * |ys|
  {
    if |xs| > 0 {
      ProductLength(xs[..|xs| - 1], ys, f);
      assert (|xs| - 1) * |ys| + |ys| == |xs| * |ys|;
    }
  }

  lemma MulStep(i: nat, j: nat, k: nat, n: nat)
    requires i < n && j < k
    ensures i * k + j < n * k
  {
    assert i * k + j < i * k + k == (i + 1) * k;
    assert (i + 1) * k <= n * k;
  }

  /** The loops are outer-major: entry `i * |ys| + j` pairs `xs[i]` with `ys[j]`. */
  lemma {:induction false} ProductAt<A, B, R>(xs: seq<A>, ys: seq<B>, f: (A, B) -> R, i: nat, j: nat)
    requires i < |xs| && j < |ys|
    ensures i * |ys| + j < |Product(xs, ys, f)|
    ensures Product(xs, ys, f)[i * |ys| + j] == f(xs[i], ys[j])
  {
    var n := |xs|;
    var k := |ys|;
    ProductLength(xs, ys, f);
    ProductLength(xs[..n - 1], ys, f);
    MulStep(i, j, k, n);
    if i < n - 1 {
      ProductAt(xs[..n - 1], ys, f, i, j);
      MulStep(i, j, k, n - 1);
    } else {
      assert i * k == (n - 1) * k;
    }
  }

  /** Every entry comes from some pair. */
  lemma {:induction false} ProductMember<A, B, R>(xs: seq<A>, ys: seq<B>, f: (A, B) -> R, r: R)
    requires r in Product(xs, ys, f)
    ensures exists i, j :: 0 <= i < |xs| && 0 <= j < |ys| && r == f(xs[i], ys[j])
  {
    var n := |xs|;
    var init := Product(xs[..n - 1], ys, f);
    if r in init {
      ProductMember(xs[..n - 1], ys, f, r);
      var i, j :| 0 <= i < n - 1 && 0 <= j < |ys| && r == f(xs[..n - 1][i], ys[j]);
      assert xs[..n - 1][i] == xs[i];
    } else {
      var last := seq(|ys|, j requires 0 <= j < |ys| => f(xs[n - 1], ys[j]));
      assert r in last;
      var j :| 0 <= j < |ys| && last[j] == r;
      assert r == f(xs[n - 1], ys[j]);
    }
  }

  function RowOf(d: MarkerDict, annotation: seq<string>, expressed: (string, nat) -> bool)
    : (string, string) -> MarkerRow
  {
    (marker, cellType) => Row(d, marker, cellType, annotation, expressed)
  }

  /** `count_marker_gene_expression`: one row for each kept marker (outer
      loop) and each distinct label of the annotation column (inner loop,
      `unique()` order). */
  function MarkerExpressionTable(d: MarkerDict, varNames: seq<string>, annotation: seq<string>,
                                 expressed: (string, nat) -> bool): seq<MarkerRow>
  {
    Product(KeptMarkers(d, varNames), Distinct(annotation), RowOf(d, annotation, expressed))
  }

  /** The table has exactly one row per (kept marker, cell type) pair, marker-major. */
  lemma MarkerExpressionTableLayout(d: MarkerDict, varNames: seq<string>, annotation: seq<string>,
                                    expressed: (string, nat) -> bool, i: nat, j: nat)
    requires i < |KeptMarkers(d, varNames)| && j < |Distinct(annotation)|
    ensures |MarkerExpressionTable(d, varNames, annotation, expressed)|
      == |KeptMarkers(d, varNames)| * |Distinct(annotation)|
    ensures i * |Distinct(annotation)| + j < |MarkerExpressionTable(d, varNames, annotation, expressed)|
    ensures var r := MarkerExpressionTable(d, varNames, annotation, expressed)[i * |Distinct(annotation)| + j];
      r.marker == KeptMarkers(d, varNames)[i] && r.cellType == Distinct(annotation)[j]
  {
    var f := RowOf(d, annotation, expressed);
    ProductLength(KeptMarkers(d, varNames), Distinct(annotation), f);
    ProductAt(KeptMarkers(d, varNames), Distinct(annotation), f, i, j);
  }

  /** Every row is consistent: its cell type has cells (the types come from
      the same column), so the percentage is the expressing share times 100
      and lies in [0, 100]; the marker is in `var_names`; and "Marker For"
      is the first dictionary cell type listing the marker, never the
      "Unknown" fallback. */
  lemma MarkerExpressionTableRows(d: MarkerDict, varNames: seq<string>, annotation: seq<string>,
                                  expressed: (string, nat) -> bool, r: MarkerRow)
    requires r in MarkerExpressionTable(d, varNames, annotation, expressed)
    ensures r.total == Count(annotation, r.cellType) > 0
    ensures r.expressing <= r.total
    ensures 0.0 <= r.percentage <= 100.0
    ensures r.percentage * (r.total as real) == (r.expressing as real) * 100.0
    ensures r.marker in varNames
    ensures FirstOwner(d, r.marker).Some?
    ensures r.markerFor == d[FirstOwner(d, r.marker).value].0
  {
    var markers := KeptMarkers(d, varNames);
    var types := Distinct(annotation);
    ProductMember(markers, types, RowOf(d, annotation, expressed), r);
    var i, j :| 0 <= i < |markers| && 0 <= j < |types| && r == RowOf(d, annotation, expressed)(markers[i], types[j]);
    RowInTable(d, markers[i], types[j], annotation, expressed, r);
    KeptMarkersHaveOwner(d, varNames, markers[i]);
  }

  lemma RowInTable(d: MarkerDict, marker: string, cellType: string, annotation: seq<string>,
                   expressed: (string, nat) -> bool, r: MarkerRow)
    requires r == Row(d, marker, cellType, annotation, expressed)
    requires cellType in annotation
    ensures r.marker == marker && r.cellType == cellType && r.markerFor == MarkerFor(d, marker)
    ensures r.total == Count(annotation, r.cellType) > 0
    ensures r.expressing <= r.total
    ensures 0.0 <= r.percentage <= 100.0
    ensures r.percentage * (r.total as real) == (r.expressing as real) * 100.0
  {
    PercentageShare(r);
  }

  lemma PercentageShare(r: MarkerRow)
    requires r.expressing <= r.total && r.total > 0
    requires r.percentage == Percentage(r.expressing, r.total)
    ensures r.percentage * (r.total as real) == (r.expressing as real) * 100.0
  {
  }
}
