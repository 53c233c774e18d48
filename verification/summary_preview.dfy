/** The preview of a data summary: a header with the file name and the
    shape, one row of chips per annotation column with its labels sorted by
    count, the Leiden cluster table, and the first records of `obs` and
    `var` as tables. */
module SummaryPreview {

  import opened Wrappers
  import opened Seqs
  import opened Sorting
  import opened Text
  import opened Json
  import opened AnnData
  import opened Summary

  // ---------------------------------------------------------------------
  // Header

  /** The title: the text after the last `/` or `\`. */
  function Title(path: string): (r: string)
    ensures EndsWith(path, r)
    ensures forall i :: 0 <= i < |r| ==> r[i] != '/' && r[i] != '\\'
  {
    LastSegment(path, {'/', '\\'})
  }

  /** A file joined onto a directory gives the title of the joined path. */
  lemma TitleOfJoin(dir: string, file: string)
    requires '/' !in file && '\\' !in file
    ensures Title(PathJoin(dir, file)) == file
  {
    var r := PathJoin(dir, file);
    assert r[|r| - |file|..] == file;
    if |file| < |r| && !(|file| > 0 && file[0] == '/') {
      assert r[|r| - |file| - 1] == '/';
    }
    LastSegmentOfSuffix(r, {'/', '\\'}, file);
  }

  /** The three chips of the header: cells, genes, and the preprocessing state. */
  function HeaderChips(s: H5adSummary): (r: seq<string>)
    ensures |r| == 3
    ensures r[0] == NatToString(s.nObs) + " cells" && r[1] == NatToString(s.nVars) + " genes"
    ensures r[2] == (if s.preprocessed then "pre-processed" else "raw")
  {
    [NatToString(s.nObs) + " cells", NatToString(s.nVars) + " genes",
     if s.preprocessed then "pre-processed" else "raw"]
  }

  /** The number on the cells chip reads back as the number of cells. */
  lemma CellsChipReadsBack(s: H5adSummary)
    ensures var chip := HeaderChips(s)[0];
      var digits := chip[..|chip| - |" cells"|];
      (forall i :: 0 <= i < |digits| ==> '0' <= digits[i] <= '9') && DigitsValue(digits) == s.nObs
  {
    var chip := HeaderChips(s)[0];
    assert chip[..|chip| - |" cells"|] == NatToString(s.nObs);
    NatToStringRoundTrip(s.nObs);
  }

  // ---------------------------------------------------------------------
  // Label counts

  /** Each column's tallies, re-sorted by count, largest first. */
  function SortedLabelCounts(lc: Option<LabelCounts>): (r: Option<LabelCounts>)
    ensures r.None? <==> lc.None?
    ensures r.Some? ==> Keys(r.value) == Keys(lc.value)
    ensures r.Some? ==> forall i :: 0 <= i < |r.value| ==>
      multiset(r.value[i].1) == multiset(lc.value[i].1) && SortedDesc(r.value[i].1, CountOf)
  {
    if lc.None? then None
    else
      var cols := lc.value;
      Some(seq(|cols|, i requires 0 <= i < |cols| => (cols[i].0, SortDesc(cols[i].1, CountOf))))
  }

  /** Labels with equal counts keep their order. */
  lemma SortedLabelCountsStable(lc: LabelCounts, i: nat, k: nat)
    requires i < |lc|
    ensures Filter(SortedLabelCounts(Some(lc)).value[i].1, HasKey(CountOf, k)) ==
            Filter(lc[i].1, HasKey(CountOf, k))
  {
    SortDescStable(lc[i].1, CountOf, k);
  }

  /** Columns already listed largest first are left as they are. */
  lemma SortingSortedColumns(cols: LabelCounts)
    requires forall i :: 0 <= i < |cols| ==> SortedDesc(cols[i].1, CountOf)
    ensures SortedLabelCounts(Some(cols)) == Some(cols)
  {
    forall i | 0 <= i < |cols| ensures SortDesc(cols[i].1, CountOf) == cols[i].1 {
      SortDescOfSorted(cols[i].1, CountOf);
    }
    assert SortedLabelCounts(Some(cols)).value == cols;
  }

  /** The back end already lists each column's counts largest first, so
      re-sorting a summary's label counts changes nothing. */
  lemma SortingSummaryCountsIsIdentity(path: Option<string>, adata: Option<AnnData>, disk: Disk)
    requires SummarizeH5ad(path, adata, disk).Ok?
    ensures var lc := SummarizeH5ad(path, adata, disk).value.labelCounts;
      SortedLabelCounts(lc) == lc
  {
    var lc := SummarizeH5ad(path, adata, disk).value.labelCounts;
    if lc.Some? {
      var cols := lc.value;
      assert forall i :: 0 <= i < |cols| ==> SortedDesc(cols[i].1, CountOf) by {
        SummaryCountsSorted(path, adata, disk);
      }
      SortingSortedColumns(cols);
    }
  }

  /** Each column of a summary's label counts is `value_counts()` of that
      column, hence largest first. */
  lemma SummaryCountsSorted(path: Option<string>, adata: Option<AnnData>, disk: Disk)
    requires SummarizeH5ad(path, adata, disk).Ok?
    ensures var lc := SummarizeH5ad(path, adata, disk).value.labelCounts;
      lc.Some? ==> forall i :: 0 <= i < |lc.value| ==> SortedDesc(lc.value[i].1, CountOf)
  {
    var lc := SummarizeH5ad(path, adata, disk).value.labelCounts;
    var a := Described(adata, disk);
    SummarizeLabelCounts(path, adata, disk);
    if lc.Some? {
      forall i | 0 <= i < |lc.value| ensures SortedDesc(lc.value[i].1, CountOf) {
        ValueCountsSpec(a.obs[lc.value[i].0]);
      }
    }
  }

  /** The text of one label chip: `label (count)`. */
  function ChipText(t: Tally): string {
    t.category + " (" + NatToString(t.count) + ")"
  }

  datatype Section = Section(title: string, chips: seq<string>)

  function SectionOf(column: (string, seq<Tally>)): (r: Section)
    ensures |r.chips| == |column.1|
  {
    Section("Cell types by (" + column.0 + ")",
            seq(|column.1|, j requires 0 <= j < |column.1| => ChipText(column.1[j])))
  }

  /** One section per column of the sorted label counts, none when they are
      null or empty. */
  function Sections(sorted: Option<LabelCounts>): (r: seq<Section>)
    ensures sorted.None? ==> r == []
    ensures sorted.Some? ==> |r| == |sorted.value|
  {
    if sorted.None? then []
    else seq(|sorted.value|, i requires 0 <= i < |sorted.value| => SectionOf(sorted.value[i]))
  }

  /** For a summary, every annotation column the object has gets a section,
      and every label of that column appears on one of its chips together
      with the number of cells carrying it. */
  lemma SectionsOfSummary(path: Option<string>, adata: Option<AnnData>, disk: Disk, c: string, l: string)
    requires SummarizeH5ad(path, adata, disk).Ok?
    requires c in LabelColumns && HasColumn(Described(adata, disk), c)
    requires l in Described(adata, disk).obs[c]
    ensures var s := SummarizeH5ad(path, adata, disk).value;
      var labels := Described(adata, disk).obs[c];
      exists i, j :: 0 <= i < |Sections(SortedLabelCounts(s.labelCounts))| &&
        Sections(SortedLabelCounts(s.labelCounts))[i].title == "Cell types by (" + c + ")" &&
        0 <= j < |Sections(SortedLabelCounts(s.labelCounts))[i].chips| &&
        Sections(SortedLabelCounts(s.labelCounts))[i].chips[j] == ChipText(Tally(l, Count(labels, l)))
  {
    var s := SummarizeH5ad(path, adata, disk).value;
    var labels := Described(adata, disk).obs[c];
    assert s.labelCounts.Some? && c in Keys(s.labelCounts.value) &&
      forall i :: 0 <= i < |s.labelCounts.value| && s.labelCounts.value[i].0 == c ==>
        s.labelCounts.value[i].1 == ValueCounts(labels)
    by {
      SummarizeLabelCounts(path, adata, disk);
    }
    SummaryCountsSorted(path, adata, disk);
    SectionsOfColumns(s.labelCounts.value, c, labels, l);
  }

  /** Columns listed largest first, one of which holds the value counts of
      `labels`: that column's section shows every label with its count. */
  lemma SectionsOfColumns(cols: LabelCounts, c: string, labels: seq<string>, l: string)
    requires c in Keys(cols) && l in labels
    requires forall i :: 0 <= i < |cols| && cols[i].0 == c ==> cols[i].1 == ValueCounts(labels)
    requires forall i :: 0 <= i < |cols| ==> SortedDesc(cols[i].1, CountOf)
    ensures exists i, j :: 0 <= i < |Sections(SortedLabelCounts(Some(cols)))| &&
              Sections(SortedLabelCounts(Some(cols)))[i].title == "Cell types by (" + c + ")" &&
              0 <= j < |Sections(SortedLabelCounts(Some(cols)))[i].chips| &&
              Sections(SortedLabelCounts(Some(cols)))[i].chips[j] == ChipText(Tally(l, Count(labels, l)))
  {
    var i :| 0 <= i < |cols| && Keys(cols)[i] == c;
    SortingSortedColumns(cols);
    ChipOfLabel(cols, i, labels, l);
  }

  /** A column whose tallies are the value counts of `labels` shows every
      label on a chip with its count. */
  lemma ChipOfLabel(cols: LabelCounts, i: nat, labels: seq<string>, l: string)
    requires i < |cols| && cols[i].1 == ValueCounts(labels) && l in labels
    ensures Sections(Some(cols))[i].title == "Cell types by (" + cols[i].0 + ")"
    ensures exists j :: 0 <= j < |Sections(Some(cols))[i].chips| &&
                        Sections(Some(cols))[i].chips[j] == ChipText(Tally(l, Count(labels, l)))
  {
    var vc := ValueCounts(labels);
    ValueCountsSpec(labels);
    var j :| 0 <= j < |vc| && Categories(vc)[j] == l;
    assert vc[j] in vc;
    var sec := Sections(Some(cols))[i];
    assert sec == SectionOf(cols[i]);
    assert sec.chips[j] == ChipText(vc[j]);
  }

  // ---------------------------------------------------------------------
  // Tables

  /** A rendered table: the column names and, per row, the value under each
      (`None` where the row has no such key and `undefined` is shown). */
  datatype Table = Table(headers: seq<string>, cells: seq<seq<Option<Json>>>)

  function RowOf(record: Record, headers: seq<string>): (r: seq<Option<Json>>)
    ensures |r| == |headers|
    ensures forall j :: 0 <= j < |headers| ==> r[j] == Lookup(record, headers[j])
  {
    seq(|headers|, j requires 0 <= j < |headers| => Lookup(record, headers[j]))
  }

  /** `renderTable(rows)`: nothing for no rows; otherwise the keys of the
      first row are the columns of every row. */
  function RenderTable(rows: seq<Record>): (r: Option<Table>)
    ensures r.None? <==> |rows| == 0
    ensures r.Some? ==> r.value.headers == Keys(rows[0]) && |r.value.cells| == |rows|
    ensures r.Some? ==> forall i :: 0 <= i < |rows| ==>
      |r.value.cells[i]| == |r.value.headers| &&
      forall j :: 0 <= j < |r.value.headers| ==> r.value.cells[i][j] == Lookup(rows[i], r.value.headers[j])
  {
    if |rows| == 0 then None
    else
      var headers := Keys(rows[0]);
      Some(Table(headers, seq(|rows|, i requires 0 <= i < |rows| => RowOf(rows[i], headers))))
  }

  /** When all rows have the same keys, as the records of one frame do, the
      table shows every row completely: each cell is the row's own value. */
  lemma RenderTableLossless(rows: seq<Record>)
    requires |rows| > 0 && NoDup(Keys(rows[0]))
    requires forall i :: 0 <= i < |rows| ==> Keys(rows[i]) == Keys(rows[0])
    ensures var t := RenderTable(rows).value;
      forall i, j :: 0 <= i < |rows| && 0 <= j < |rows[i]| ==>
        j < |t.headers| && t.headers[j] == rows[i][j].0 && t.cells[i][j] == Some(rows[i][j].1)
  {
    var t := RenderTable(rows).value;
    forall i, j | 0 <= i < |rows| && 0 <= j < |rows[i]|
      ensures j < |t.headers| && t.headers[j] == rows[i][j].0 && t.cells[i][j] == Some(rows[i][j].1)
    {
      assert Keys(rows[i])[j] == rows[i][j].0;
      LookupAt(rows[i], j);
    }
  }

  /** The clusters as the back end sends them: `{cluster, count}` records. */
  function ClusterRecords(cs: seq<Tally>): (r: seq<Record>)
    ensures |r| == |cs|
    ensures forall i :: 0 <= i < |cs| ==> r[i] == [("cluster", Str(cs[i].category)), ("count", Num(cs[i].count as real))]
  {
    seq(|cs|, i requires 0 <= i < |cs| => [("cluster", Str(cs[i].category)), ("count", Num(cs[i].count as real))])
  }

  /** The cluster table has the columns `cluster` and `count` and one row
      per cluster, holding its name and size. */
  lemma ClusterTable(cs: seq<Tally>)
    requires |cs| > 0
    ensures var t := RenderTable(ClusterRecords(cs)).value;
      t.headers == ["cluster", "count"] && |t.cells| == |cs| &&
      forall i :: 0 <= i < |cs| ==> t.cells[i] == [Some(Str(cs[i].category)), Some(Num(cs[i].count as real))]
  {
    var rows := ClusterRecords(cs);
    var t := RenderTable(rows).value;
    assert t.headers == ["cluster", "count"] by {
      assert Keys(rows[0]) == ["cluster", "count"];
    }
    forall i | 0 <= i < |cs|
      ensures t.cells[i] == [Some(Str(cs[i].category)), Some(Num(cs[i].count as real))]
    {
      PairLookups(rows[i], "cluster", "count", Str(cs[i].category), Num(cs[i].count as real));
    }
  }

  /** A two-field record with distinct keys yields each field's value. */
  lemma PairLookups(r: Record, a: string, b: string, va: Json, vb: Json)
    requires r == [(a, va), (b, vb)] && a != b
    ensures Lookup(r, a) == Some(va) && Lookup(r, b) == Some(vb)
  {
    assert r[1..] == [(b, vb)];
  }

  // ---------------------------------------------------------------------
  // The clusters section

  /** What evaluating the guard of the clusters section yields: a decision,
      or a TypeError thrown by reading `.length` of `null`. */
  datatype Guard = Decided(visible: bool) | Thrown

  /** The guard as written: `clusters.length > 0 &&
      sortedLabelCountsArray.length == 0`, where `clusters` may be `null`,
      and `sortedLabelCountsArray` is `null` or a plain object, whose
      `.length` is `undefined`. */
  function ClustersGuardAsWritten(clusters: Option<seq<Tally>>, sorted: Option<LabelCounts>): (g: Guard)
    ensures clusters.None? ==> g == Thrown
    ensures clusters.Some? && |clusters.value| > 0 && sorted.None? ==> g == Thrown
  {
    if clusters.None? then Thrown
    else if |clusters.value| == 0 then Decided(false)
    else if sorted.None? then Thrown
    else Decided(false)
  }

  /** As written, the cluster table is never shown: the guard either throws
      or is false, whatever the summary holds. */
  lemma ClustersNeverShown(clusters: Option<seq<Tally>>, sorted: Option<LabelCounts>)
    ensures ClustersGuardAsWritten(clusters, sorted) != Decided(true)
  {
  }

  /** A concrete summary of clustered data without annotation columns makes
      the preview throw. */
  lemma ClustersGuardThrows()
    ensures ClustersGuardAsWritten(Some([Tally("0", 3)]), SortedLabelCounts(None)) == Thrown
  {
  }

  /** The guard as evidently intended: show the cluster table when there are
      clusters and no label counts to show instead. */
  function ClustersShown(clusters: Option<seq<Tally>>, sorted: Option<LabelCounts>): (b: bool)
    ensures b <==> clusters.Some? && |clusters.value| > 0 && (sorted.None? || |sorted.value| == 0)
  {
    clusters.Some? && |clusters.value| > 0 && (sorted.None? || |sorted.value| == 0)
  }

  /** For a summary, the cluster table appears exactly when there are cells
      and the object has none of the annotation columns. */
  lemma ClustersShownForSummary(path: Option<string>, adata: Option<AnnData>, disk: Disk)
    requires SummarizeH5ad(path, adata, disk).Ok?
    ensures var s := SummarizeH5ad(path, adata, disk).value;
      var a := Described(adata, disk);
      ClustersShown(s.clusters, SortedLabelCounts(s.labelCounts)) <==>
        |a.obs["leiden"]| > 0 && forall c :: c in LabelColumns ==> !HasColumn(a, c)
  {
    SummarizeFields(path, adata, disk);
    SummarizeLabelCounts(path, adata, disk);
    var s := SummarizeH5ad(path, adata, disk).value;
    if s.clusters.Some? {
      assert |s.clusters.value| > 0;
    }
  }

  // ---------------------------------------------------------------------
  // The whole preview

  datatype PreviewView = PreviewView(
    title: string,
    chips: seq<string>,
    sections: seq<Section>,
    clusters: Option<Table>,
    obsTable: Option<Table>,
    varTable: Option<Table>)

  /** The preview of a summary, with the corrected clusters guard. */
  function RenderSummary(s: H5adSummary): (v: PreviewView)
    ensures v.title == Title(s.path) && v.chips == HeaderChips(s)
    ensures |v.sections| == (if s.labelCounts.Some? then |s.labelCounts.value| else 0)
    ensures v.clusters.Some? <==> ClustersShown(s.clusters, SortedLabelCounts(s.labelCounts))
    ensures v.obsTable.None? <==> |s.obsPreview| == 0
    ensures v.varTable.None? <==> |s.varPreview| == 0
  {
    var sorted := SortedLabelCounts(s.labelCounts);
    PreviewView(
      Title(s.path),
      HeaderChips(s),
      Sections(sorted),
      if ClustersShown(s.clusters, sorted) then RenderTable(ClusterRecords(s.clusters.value)) else None,
      RenderTable(s.obsPreview),
      RenderTable(s.varPreview))
  }

  /** The preview of a summary lists at most five records of each kind. */
  lemma PreviewShowsFewRows(path: Option<string>, adata: Option<AnnData>, disk: Disk)
    requires SummarizeH5ad(path, adata, disk).Ok?
    ensures var v := RenderSummary(SummarizeH5ad(path, adata, disk).value);
      (v.obsTable.Some? ==> |v.obsTable.value.cells| <= PreviewRows) &&
      (v.varTable.Some? ==> |v.varTable.value.cells| <= PreviewRows)
  {
  }
}
