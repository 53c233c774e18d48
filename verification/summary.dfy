/** `summarize_h5ad`: the dictionary the back end reports about an AnnData
    object — shape, column names, short previews, the Leiden cluster sizes,
    the label counts of the three annotation columns, and whether the data
    looks preprocessed.

    The file system is abstract: what resolving, testing and reading the
    given path would yield is passed in as a `Disk`. */
module Summary {

  import opened Wrappers
  import opened Seqs
  import opened Json
  import opened AnnData

  /** What the file system says about the path that was given. */
  datatype Disk = Disk(resolved: string, found: bool, contents: AnnData)

  datatype SummaryError =
    /** Neither a path nor an object was given. */
    | NoInput
    /** The given path does not exist. */
    | FileNotFound(path: string)
    /** `clusters` is read at the end without having been bound, because the
        object has no `leiden` column. */
    | ClustersUnbound

  /** `label_counts`: per annotation column, the value counts of its labels. */
  type LabelCounts = seq<(string, seq<Tally>)>

  datatype H5adSummary = H5adSummary(
    path: string,
    nObs: nat,
    nVars: nat,
    obsColumns: seq<string>,
    varColumns: seq<string>,
    preprocessed: bool,
    obsPreview: seq<Record>,
    varPreview: seq<Record>,
    clusters: Option<seq<Tally>>,
    labelCounts: Option<LabelCounts>)

  /** The annotation columns whose counts are reported, in report order. */
  const LabelColumns: seq<string> := ["cellmarker", "panglaodb", "cancersea"]

  const PreviewRows: nat := 5

  /** `frame.head(5)`. */
  function Head(records: seq<Record>): (r: seq<Record>)
    ensures |r| <= PreviewRows
    ensures |r| == if |records| < PreviewRows then |records| else PreviewRows
    ensures r == records[..|r|]
  {
    if |records| <= PreviewRows then records else records[..PreviewRows]
  }

  /** The counts of every column of `columns` that `a` has, in the order of
      `columns` (the loop over the label columns). */
  function LabelCountsOf(a: AnnData, columns: seq<string>): (r: LabelCounts)
    ensures forall i :: 0 <= i < |r| ==> r[i].0 in columns && HasColumn(a, r[i].0) &&
                                         r[i].1 == ValueCounts(a.obs[r[i].0])
    ensures forall c :: c in columns && HasColumn(a, c) ==> c in Keys(r)
  {
    if |columns| == 0 then []
    else
      var init := columns[..|columns| - 1];
      var c := columns[|columns| - 1];
      var r0 := LabelCountsOf(a, init);
      assert forall x :: x in columns ==> x in init || x == c;
      if HasColumn(a, c) then
        var r := r0 + [(c, ValueCounts(a.obs[c]))];
        assert Keys(r) == Keys(r0) + [c];
        r
      else
        r0
  }

  /** The reported columns keep the order of `columns`. */
  lemma {:induction false} LabelCountsOfOrder(a: AnnData, columns: seq<string>)
    ensures IsSubseq(Keys(LabelCountsOf(a, columns)), columns)
    decreases |columns|
  {
    if |columns| > 0 {
      var init := columns[..|columns| - 1];
      var c := columns[|columns| - 1];
      var r0 := LabelCountsOf(a, init);
      LabelCountsOfOrder(a, init);
      if HasColumn(a, c) {
        var r := r0 + [(c, ValueCounts(a.obs[c]))];
        assert Keys(r) == Keys(r0) + [c];
        assert Keys(r)[..|Keys(r)| - 1] == Keys(r0);
      } else {
        SubseqOfPrefix(Keys(r0), init, columns);
      }
    }
  }

  /** The object the summary describes: the one given, or else the file. */
  function Described(adata: Option<AnnData>, disk: Disk): AnnData {
    if adata.Some? then adata.value else disk.contents
  }

  /** `summarize_h5ad(path, adata)`. */
  function SummarizeH5ad(path: Option<string>, adata: Option<AnnData>, disk: Disk)
    : (r: Result<H5adSummary, SummaryError>)
    ensures r == Err(NoInput) <==> path.None? && adata.None?
    ensures path.Some? && !disk.found ==> r == Err(FileNotFound(disk.resolved))
    ensures r.Ok? ==> HasColumn(Described(adata, disk), "leiden")
    ensures r.Ok? ==> r.value.path == if path.Some? then disk.resolved else "None"
    ensures r.Ok? ==> |r.value.obsPreview| <= PreviewRows && |r.value.varPreview| <= PreviewRows
  {
    if path.None? && adata.None? then Err(NoInput)
    else if path.Some? && !disk.found then Err(FileNotFound(disk.resolved))
    else
      var a := Described(adata, disk);
      if !HasColumn(a, "leiden") then Err(ClustersUnbound)
      else
        var clusters := ValueCounts(a.obs["leiden"]);
        var labelCounts := LabelCountsOf(a, LabelColumns);
        Ok(H5adSummary(
          if path.Some? then disk.resolved else "None",
          a.nObs, a.nVars, a.obsColumns, a.varColumns,
          "neighbors" in a.uns || "X_pca" in a.obsm || HasColumn(a, "leiden"),
          Head(a.obsRecords), Head(a.varRecords),
          if |clusters| > 0 then Some(clusters) else None,
          if |labelCounts| > 0 then Some(labelCounts) else None))
  }

  /** A summary exists exactly when some input was given, a given path
      exists, and the object has a `leiden` column; the other failures are
      the missing input and the missing file, in that order. */
  lemma SummarizeSucceeds(path: Option<string>, adata: Option<AnnData>, disk: Disk)
    ensures SummarizeH5ad(path, adata, disk).Ok? <==>
      (path.Some? || adata.Some?) && (path.Some? ==> disk.found) && HasColumn(Described(adata, disk), "leiden")
    ensures SummarizeH5ad(path, adata, disk) == Err(ClustersUnbound) <==>
      (path.Some? || adata.Some?) && (path.Some? ==> disk.found) && !HasColumn(Described(adata, disk), "leiden")
  {
  }

  /** A given path is checked even when the object itself is given too. */
  lemma SummarizeChecksPathFirst(path: string, a: AnnData, disk: Disk)
    requires !disk.found
    ensures SummarizeH5ad(Some(path), Some(a), disk) == Err(FileNotFound(disk.resolved))
  {
  }

  /** The reported fields of a successful summary: the shape and columns of
      the described object, the first five records of each preview, and the
      Leiden cluster sizes (absent when there are no cells). */
  lemma SummarizeFields(path: Option<string>, adata: Option<AnnData>, disk: Disk)
    requires SummarizeH5ad(path, adata, disk).Ok?
    ensures var s := SummarizeH5ad(path, adata, disk).value;
      var a := Described(adata, disk);
      && s.nObs == a.nObs && s.nVars == a.nVars
      && s.obsColumns == a.obsColumns && s.varColumns == a.varColumns
      && s.obsPreview == a.obsRecords[..|s.obsPreview|]
      && s.varPreview == a.varRecords[..|s.varPreview|]
      && (|a.obsRecords| >= PreviewRows ==> |s.obsPreview| == PreviewRows)
      && (s.clusters.None? <==> |a.obs["leiden"]| == 0)
      && (s.clusters.Some? ==> s.clusters.value == ValueCounts(a.obs["leiden"]))
  {
    var a := Described(adata, disk);
    var labels := a.obs["leiden"];
    ValueCountsSpec(labels);
    if |labels| > 0 {
      assert labels[0] in Distinct(labels);
    }
  }

  /** The cluster list has one entry per distinct Leiden label, with the
      number of cells carrying it, largest first. */
  lemma SummarizeClusters(path: Option<string>, adata: Option<AnnData>, disk: Disk)
    requires SummarizeH5ad(path, adata, disk).Ok?
    requires SummarizeH5ad(path, adata, disk).value.clusters.Some?
    ensures var cs := SummarizeH5ad(path, adata, disk).value.clusters.value;
      var labels := Described(adata, disk).obs["leiden"];
      && (forall t :: t in cs ==> t.count == Count(labels, t.category) && t.count > 0)
      && (forall l :: l in labels <==> l in Categories(cs))
      && NoDup(Categories(cs))
      && Total(cs) == |labels|
  {
    var labels := Described(adata, disk).obs["leiden"];
    ValueCountsSpec(labels);
    ValueCountsTotal(labels);
  }

  /** The data counts as preprocessed exactly when a neighbour graph, a PCA
      embedding or Leiden clusters are present — so every summary that
      succeeds reports it as preprocessed. */
  lemma SummarizePreprocessed(path: Option<string>, adata: Option<AnnData>, disk: Disk)
    requires SummarizeH5ad(path, adata, disk).Ok?
    ensures var a := Described(adata, disk);
      SummarizeH5ad(path, adata, disk).value.preprocessed ==
        ("neighbors" in a.uns || "X_pca" in a.obsm || HasColumn(a, "leiden"))
    ensures SummarizeH5ad(path, adata, disk).value.preprocessed
  {
  }

  /** The label counts of an object name exactly the annotation columns it
      has, each once and in the fixed order; there are none exactly when it
      has none of those columns. */
  lemma LabelCountsColumns(a: AnnData)
    ensures var lc := LabelCountsOf(a, LabelColumns);
      && (|lc| == 0 <==> forall c :: c in LabelColumns ==> !HasColumn(a, c))
      && (forall c :: c in Keys(lc) <==> c in LabelColumns && HasColumn(a, c))
      && NoDup(Keys(lc))
  {
    var lc := LabelCountsOf(a, LabelColumns);
    LabelColumnsDistinct();
    LabelCountsOfOrder(a, LabelColumns);
    SubseqNoDup(Keys(lc), LabelColumns);
    LabelCountsMembers(a, LabelColumns);
  }

  lemma LabelColumnsDistinct()
    ensures NoDup(LabelColumns)
  {
  }

  lemma LabelCountsMembers(a: AnnData, columns: seq<string>)
    ensures var lc := LabelCountsOf(a, columns);
      && (|lc| == 0 <==> forall c :: c in columns ==> !HasColumn(a, c))
      && (forall c :: c in Keys(lc) <==> c in columns && HasColumn(a, c))
  {
    var lc := LabelCountsOf(a, columns);
    if |lc| > 0 {
      assert lc[0].0 in columns && HasColumn(a, lc[0].0);
    }
    forall c | c in Keys(lc) ensures c in columns && HasColumn(a, c) {
      var i :| 0 <= i < |lc| && Keys(lc)[i] == c;
    }
  }

  /** The label counts of a summary: exactly the annotation columns the
      object has, each once and in the fixed order, each with that column's
      value counts; absent when the object has none of them. */
  lemma SummarizeLabelCounts(path: Option<string>, adata: Option<AnnData>, disk: Disk)
    requires SummarizeH5ad(path, adata, disk).Ok?
    ensures var s := SummarizeH5ad(path, adata, disk).value;
      var a := Described(adata, disk);
      && (s.labelCounts.None? <==> forall c :: c in LabelColumns ==> !HasColumn(a, c))
      && (s.labelCounts.Some? ==>
            && (forall c :: c in Keys(s.labelCounts.value) <==> c in LabelColumns && HasColumn(a, c))
            && IsSubseq(Keys(s.labelCounts.value), LabelColumns)
            && NoDup(Keys(s.labelCounts.value))
            && (forall i :: 0 <= i < |s.labelCounts.value| ==>
                  s.labelCounts.value[i].1 == ValueCounts(a.obs[s.labelCounts.value[i].0])))
  {
    LabelCountsColumns(Described(adata, disk));
    LabelCountsOfOrder(Described(adata, disk), LabelColumns);
  }
}
