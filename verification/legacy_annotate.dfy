/** The older root-level annotation run (`annotate` in the root annotate
    module). It shares the reader dispatch, the parameter merge and the
    database order with the back end, but writes no `cell_type` column,
    returns only the annotated data, and after each database saves a
    cell-type count table and a marker-expression table. */
module LegacyAnnotate {

  import opened Wrappers
  import opened Seqs
  import opened Sorting
  import opened Text
  import opened Json
  import opened Params
  import opened AnnData
  import opened Markers
  import opened Annotate

  /** One row of the cell-type count table: label, cells, share of all cells in percent. */
  datatype CountRow = CountRow(cellType: string, count: nat, percentage: real)

  function RowCount(r: CountRow): nat {
    r.count
  }

  /** `count / total * 100`; with no cells there are no rows to divide. */
  function Share(count: nat, total: nat): (p: real)
    ensures total > 0 ==> p * (total as real) == (count as real) * 100.0
  {
    if total == 0 then 0.0 else (count as real) / (total as real) * 100.0
  }

  /** The count rows of the tallies of a column with `n` cells. */
  function RowsOf(ts: seq<Tally>, n: nat): (r: seq<CountRow>)
    ensures |r| == |ts|
    ensures forall i :: 0 <= i < |ts| ==> r[i] == CountRow(ts[i].category, ts[i].count, Share(ts[i].count, n))
  {
    seq(|ts|, i requires 0 <= i < |ts| => CountRow(ts[i].category, ts[i].count, Share(ts[i].count, n)))
  }

  /** `value_counts().reset_index()` with the `Percentage` column added. */
  function CountRows(labels: seq<string>): seq<CountRow> {
    RowsOf(ValueCounts(labels), |labels|)
  }

  /** `save_celltype_counts`: the rows sorted by `Count`, descending. */
  function CelltypeCounts(labels: seq<string>): seq<CountRow> {
    SortDesc(CountRows(labels), RowCount)
  }

  /** The table has one row per distinct label with that label's number of
      cells, in non-increasing count order; the final sort finds the rows
      already in order and keeps them. */
  lemma CelltypeCountsSpec(labels: seq<string>)
    ensures CelltypeCounts(labels) == CountRows(labels)
    ensures |CelltypeCounts(labels)| == |Distinct(labels)|
    ensures SortedDesc(CelltypeCounts(labels), RowCount)
    ensures forall i, j :: 0 <= i < j < |CelltypeCounts(labels)| ==>
      CelltypeCounts(labels)[i].cellType != CelltypeCounts(labels)[j].cellType
    ensures forall l :: l in labels <==> exists i :: 0 <= i < |CelltypeCounts(labels)| && CelltypeCounts(labels)[i].cellType == l
    ensures forall r :: r in CelltypeCounts(labels) ==> r.count == Count(labels, r.cellType) > 0
  {
    var rows := CountRows(labels);
    CountRowsSorted(labels);
    assert CelltypeCounts(labels) == rows;
    assert |rows| == |Distinct(labels)|;
    CountRowsDistinct(labels);
    CountRowsCover(labels);
    CountRowsCounts(labels);
  }

  lemma CountRowsDistinct(labels: seq<string>)
    ensures forall i, j :: 0 <= i < j < |CountRows(labels)| ==>
      CountRows(labels)[i].cellType != CountRows(labels)[j].cellType
  {
    var vc := ValueCounts(labels);
    var rows := CountRows(labels);
    assert NoDup(Categories(vc)) by { ValueCountsSpec(labels); }
    forall i, j | 0 <= i < j < |rows| ensures rows[i].cellType != rows[j].cellType {
      assert Categories(vc)[i] != Categories(vc)[j];
    }
  }

  lemma CountRowsCover(labels: seq<string>)
    ensures forall l :: l in labels <==> exists i :: 0 <= i < |CountRows(labels)| && CountRows(labels)[i].cellType == l
  {
    var vc := ValueCounts(labels);
    var rows := CountRows(labels);
    assert forall l :: l in labels <==> l in Categories(vc) by { ValueCountsSpec(labels); }
    forall l ensures l in labels <==> exists i :: 0 <= i < |rows| && rows[i].cellType == l {
      if l in labels {
        assert l in Categories(vc);
        var i :| 0 <= i < |vc| && Categories(vc)[i] == l;
        assert rows[i].cellType == l;
      }
      if exists i :: 0 <= i < |rows| && rows[i].cellType == l {
        var i :| 0 <= i < |rows| && rows[i].cellType == l;
        assert Categories(vc)[i] == l;
      }
    }
  }

  lemma CountRowsCounts(labels: seq<string>)
    ensures forall r :: r in CountRows(labels) ==> r.count == Count(labels, r.cellType) > 0
  {
    var vc := ValueCounts(labels);
    var rows := CountRows(labels);
    assert forall t :: t in vc ==> t.count == Count(labels, t.category) && t.count > 0 by { ValueCountsSpec(labels); }
    forall r | r in rows ensures r.count == Count(labels, r.cellType) > 0 {
      var i :| 0 <= i < |rows| && rows[i] == r;
      assert vc[i] in vc;
    }
  }

  lemma CountRowsSorted(labels: seq<string>)
    ensures SortedDesc(CountRows(labels), RowCount)
    ensures CelltypeCounts(labels) == CountRows(labels)
  {
    var vc := ValueCounts(labels);
    var rows := CountRows(labels);
    ValueCountsSpec(labels);
    forall i, j | 0 <= i < j < |rows| ensures rows[i].count >= rows[j].count {
      assert CountOf(vc[i]) >= CountOf(vc[j]);
    }
    SortDescOfSorted(rows, RowCount);
  }

  /** The sum of the `Percentage` column. */
  function PercentTotal(rows: seq<CountRow>): real {
    if |rows| == 0 then 0.0 else PercentTotal(rows[..|rows| - 1]) + rows[|rows| - 1].percentage
  }

  /** The sum of the `Count` column. */
  function CountTotal(rows: seq<CountRow>): nat {
    if |rows| == 0 then 0 else CountTotal(rows[..|rows| - 1]) + rows[|rows| - 1].count
  }

  lemma Distribute(a: real, b: real, c: real)
    ensures (a + b) * c == a * c + b * c
  {
  }

  lemma {:induction false} PercentTotalOfShares(ts: seq<Tally>, n: nat)
    requires n > 0
    ensures PercentTotal(RowsOf(ts, n)) * (n as real) == (Total(ts) as real) * 100.0
  {
    if |ts| > 0 {
      var init := ts[..|ts| - 1];
      var rows := RowsOf(ts, n);
      assert rows[..|ts| - 1] == RowsOf(init, n);
      PercentTotalOfShares(init, n);
      var last := rows[|ts| - 1];
      assert last.percentage * (n as real) == (last.count as real) * 100.0;
      Distribute(PercentTotal(RowsOf(init, n)), last.percentage, n as real);
    }
  }

  lemma {:induction false} CountTotalOfTallies(ts: seq<Tally>, n: nat)
    ensures CountTotal(RowsOf(ts, n)) == Total(ts)
  {
    if |ts| > 0 {
      var init := ts[..|ts| - 1];
      CountTotalOfTallies(init, n);
      assert RowsOf(ts, n)[..|ts| - 1] == RowsOf(init, n);
    }
  }

  /** Every cell is counted once: the counts add up to the number of cells. */
  lemma CelltypeCountsTotal(labels: seq<string>)
    ensures CountTotal(CelltypeCounts(labels)) == |labels|
  {
    CountRowsSorted(labels);
    CountTotalOfTallies(ValueCounts(labels), |labels|);
    ValueCountsTotal(labels);
  }

  /** For a non-empty column the percentages add up to 100. */
  lemma CelltypeCountsPercentTotal(labels: seq<string>)
    requires |labels| > 0
    ensures PercentTotal(CelltypeCounts(labels)) == 100.0
  {
    CountRowsSorted(labels);
    ValueCountsTotal(labels);
    PercentTotalHundred(ValueCounts(labels), |labels|);
  }

  lemma PercentTotalHundred(ts: seq<Tally>, n: nat)
    requires n > 0 && Total(ts) == n
    ensures PercentTotal(RowsOf(ts, n)) == 100.0
  {
    var p := PercentTotal(RowsOf(ts, n));
    PercentTotalOfShares(ts, n);
    Cancel(p, 100.0, n as real, Total(ts) as real);
  }

  lemma Cancel(x: real, y: real, n: real, m: real)
    requires n > 0.0 && n == m && x * n == m * y
    ensures x == y
  {
    assert (x - y) * n == 0.0;
  }

  /** `name` is an optional Python argument; a falsy one (None or "") adds no prefix. */
  predicate NameGiven(name: Option<string>) {
    name.Some? && name.value != ""
  }

  /** `<name>_` when a name is given, nothing otherwise. */
  function NamePrefix(name: Option<string>): string {
    if NameGiven(name) then name.value + "_" else ""
  }

  function CountsSuffix(timestamp: string): string {
    "_celltype_counts_" + timestamp + ".csv"
  }

  /** The file name of a count table. */
  function CountsFileName(name: Option<string>, db: string, timestamp: string): string {
    NamePrefix(name) + db + CountsSuffix(timestamp)
  }

  /** The name prefix is there exactly when a name is given; the rest is
      the same either way. */
  lemma CountsFileNamePrefix(name: Option<string>, db: string, timestamp: string)
    ensures var tail := db + "_celltype_counts_" + timestamp + ".csv";
      var f := CountsFileName(name, db, timestamp);
      && EndsWith(f, tail)
      && (NameGiven(name) <==> |f| > |tail|)
      && (NameGiven(name) ==> f[..|name.value| + 1] == name.value + "_")
  {
    var tail := db + "_celltype_counts_" + timestamp + ".csv";
    assert db + CountsSuffix(timestamp) == tail;
    assert CountsFileName(name, db, timestamp) == NamePrefix(name) + tail;
  }

  /** The count tables of two different databases never share a file name,
      whatever their timestamps. */
  lemma CountsFilesDistinct(name: Option<string>, a: Annotator, b: Annotator, t1: string, t2: string)
    requires a != b
    ensures CountsFileName(name, DbType(a), t1) != CountsFileName(name, DbType(b), t2)
  {
    DbTypeInitials(a, b);
    DifferentAfterPrefix(NamePrefix(name), DbType(a), DbType(b), CountsSuffix(t1), CountsSuffix(t2));
  }

  lemma DifferentAfterPrefix(p: string, x: string, y: string, s1: string, s2: string)
    requires |x| >= 2 && |y| >= 2 && x[..2] != y[..2]
    ensures p + x + s1 != p + y + s2
  {
    assert (p + x + s1)[|p|..|p| + 2] == x[..2];
    assert (p + y + s2)[|p|..|p| + 2] == y[..2];
  }

  /** The first two letters tell the databases apart. */
  lemma DbTypeInitials(a: Annotator, b: Annotator)
    requires a != b
    ensures |DbType(a)| >= 2 && |DbType(b)| >= 2
    ensures DbType(a)[..2] != DbType(b)[..2]
  {
    assert DbType(a)[1] != DbType(b)[1] || DbType(a)[0] != DbType(b)[0];
  }

  /** The effects of a run, in order. */
  datatype LegacyStep =
    | CreateOutputDir(dir: string)
    | RunPreprocessing(params: Fields)
    /** `annotate_with_scsa`: the database run on the clusters, then the
        count table of its labels and the marker table of its markers. */
    | AnnotateWith(db: string, cellTypeSet: string, countsFile: string,
                   labels: seq<string>, markers: MarkerDict)
    | WriteResult(path: string)

  /** The count table an annotation step saves. */
  function CountsTable(s: LegacyStep): seq<CountRow>
    requires s.AnnotateWith?
  {
    CelltypeCounts(s.labels)
  }

  /** The marker table an annotation step saves, for a data set with genes
      `varNames` and expression test `expressed`. */
  function MarkerCountsTable(s: LegacyStep, varNames: seq<string>, expressed: (string, nat) -> bool): seq<MarkerRow>
    requires s.AnnotateWith?
  {
    MarkerExpressionTable(s.markers, varNames, s.labels, expressed)
  }

  datatype LegacyOutcome = LegacyOutcome(
    reader: Reader,
    steps: seq<LegacyStep>,
    /** The only return value: the annotated observation table. */
    obs: map<string, seq<string>>,
    outputFile: string)

  /** What each database contributes: its labels, the marker dictionary
      derived from them, and the per-call timestamp of `annotate_with_scsa`. */
  datatype DatabaseResult = DatabaseResult(labels: seq<string>, markers: MarkerDict, timestamp: string)

  function DatabaseStep(name: string, a: Annotator, result: DatabaseResult): LegacyStep {
    AnnotateWith(DbType(a), CellTypeSet(a), CountsFileName(Some(name), DbType(a), result.timestamp),
                 result.labels, result.markers)
  }

  function DatabaseSteps(name: string, used: seq<Annotator>, results: Annotator -> DatabaseResult): (r: seq<LegacyStep>)
    ensures |r| == |used|
    ensures forall i :: 0 <= i < |used| ==> r[i] == DatabaseStep(name, used[i], results(used[i]))
  {
    seq(|used|, i requires 0 <= i < |used| => DatabaseStep(name, used[i], results(used[i])))
  }

  /** The observation table after the databases ran: each adds its own
      column, and nothing else changes. */
  function LegacyObs(obs: map<string, seq<string>>, used: seq<Annotator>,
                     results: Annotator -> DatabaseResult): map<string, seq<string>>
  {
    if |used| == 0 then obs
    else
      var a := used[|used| - 1];
      LegacyObs(obs, used[..|used| - 1], results)[DbType(a) := results(a).labels]
  }

  /** The steps before the databases run. */
  function SetupSteps(req: Request): seq<LegacyStep> {
    [CreateOutputDir(req.outputDir)]
    + (if req.preprocessed then [] else [RunPreprocessing(Merge(req.preprocessingParams))])
  }

  function LegacyRun(req: Request, reader: Reader, timestamp: string, obs: map<string, seq<string>>,
                     results: Annotator -> DatabaseResult): LegacyOutcome
  {
    var used := UsedAnnotators(req.toggles);
    LegacyOutcome(
      reader,
      SetupSteps(req)
      + DatabaseSteps(req.name, used, results)
      + [WriteResult(AnnotatedFile(req.outputDir, req.name, timestamp))],
      LegacyObs(obs, used, results),
      AnnotatedFile(req.outputDir, req.name, timestamp))
  }

  /** One run; an unsupported suffix raises before the output directory is made. */
  function LegacyAnnotate(req: Request, timestamp: string, obs: map<string, seq<string>>,
                          results: Annotator -> DatabaseResult): (r: Result<LegacyOutcome, Failure>)
    ensures r.Err? <==> ChooseReader(req.inputFile).Err?
    ensures r.Err? ==> r.error == UnsupportedFormat(req.inputFile)
    ensures r.Ok? ==> r.value.reader == ChooseReader(req.inputFile).value
    ensures r.Ok? ==> r.value == LegacyRun(req, r.value.reader, timestamp, obs, results)
  {
    match ChooseReader(req.inputFile)
    case Err(e) => Err(e)
    case Ok(reader) => Ok(LegacyRun(req, reader, timestamp, obs, results))
  }

  /** The databases add exactly their own columns, and other columns keep
      their values. */
  lemma {:induction false} LegacyObsColumns(obs: map<string, seq<string>>, used: seq<Annotator>,
                                            results: Annotator -> DatabaseResult)
    ensures LegacyObs(obs, used, results).Keys == obs.Keys + set a | a in used :: DbType(a)
    ensures forall a :: a in used ==> LegacyObs(obs, used, results)[DbType(a)] == results(a).labels
    ensures forall c :: c in obs && (forall a :: a in used ==> c != DbType(a)) ==> LegacyObs(obs, used, results)[c] == obs[c]
  {
    if |used| > 0 {
      var a := used[|used| - 1];
      var init := used[..|used| - 1];
      LegacyObsColumns(obs, init, results);
      assert forall b :: b in used <==> b in init || b == a;
      forall b | b in used ensures LegacyObs(obs, used, results)[DbType(b)] == results(b).labels {
        ColumnNamesDistinct(b, a);
      }
    }
  }

  /** Every step a database contributes is an annotation step. */
  lemma DatabaseStepsAnnotate(name: string, used: seq<Annotator>, results: Annotator -> DatabaseResult)
    ensures forall s :: s in DatabaseSteps(name, used, results) ==> s.AnnotateWith?
    ensures forall s :: s in DatabaseSteps(name, used, results) ==> exists a :: a in used && s.db == DbType(a)
  {
    var mid := DatabaseSteps(name, used, results);
    forall s | s in mid ensures s.AnnotateWith? && exists a :: a in used && s.db == DbType(a) {
      var i :| 0 <= i < |mid| && mid[i] == s;
      assert used[i] in used;
    }
  }

  lemma SetupThenRest(req: Request, rest: seq<LegacyStep>)
    requires forall s :: s in rest ==> !s.RunPreprocessing?
    ensures (SetupSteps(req) + rest)[0] == CreateOutputDir(req.outputDir)
    ensures forall p :: RunPreprocessing(p) in SetupSteps(req) + rest <==> !req.preprocessed && p == Merge(req.preprocessingParams)
  {
  }

  /** Preprocessing runs, right after the output directory is made and with
      the merged parameters, exactly when the input is not marked
      preprocessed. */
  lemma LegacyPreprocessing(req: Request, reader: Reader, timestamp: string, obs: map<string, seq<string>>,
                            results: Annotator -> DatabaseResult)
    ensures var steps := LegacyRun(req, reader, timestamp, obs, results).steps;
      && steps[0] == CreateOutputDir(req.outputDir)
      && (forall p :: RunPreprocessing(p) in steps <==> !req.preprocessed && p == Merge(req.preprocessingParams))
  {
    var mid := DatabaseSteps(req.name, UsedAnnotators(req.toggles), results);
    var rest := mid + [WriteResult(AnnotatedFile(req.outputDir, req.name, timestamp))];
    DatabaseStepsAnnotate(req.name, UsedAnnotators(req.toggles), results);
    SetupThenRest(req, rest);
    assert LegacyRun(req, reader, timestamp, obs, results).steps == SetupSteps(req) + rest;
  }

  /** The setup steps never annotate. */
  lemma SetupNeverAnnotates(req: Request)
    ensures forall s :: s in SetupSteps(req) ==> !s.AnnotateWith?
  {
  }

  /** Database steps between two stretches of other steps: they sit right
      after the first stretch, in order, and are the only annotating steps. */
  lemma StepsAroundDatabases(pre: seq<LegacyStep>, name: string, used: seq<Annotator>,
                             results: Annotator -> DatabaseResult, post: seq<LegacyStep>)
    requires forall s :: s in pre ==> !s.AnnotateWith?
    requires forall s :: s in post ==> !s.AnnotateWith?
    ensures var steps := pre + DatabaseSteps(name, used, results) + post;
      && |steps| == |pre| + |used| + |post|
      && (forall i :: 0 <= i < |used| ==> steps[|pre| + i] == DatabaseStep(name, used[i], results(used[i])))
      && (forall s :: s in steps && s.AnnotateWith? ==> exists a :: a in used && s.db == DbType(a))
  {
    var mid := DatabaseSteps(name, used, results);
    DatabaseStepsAnnotate(name, used, results);
    forall i | 0 <= i < |used| ensures (pre + mid + post)[|pre| + i] == mid[i] {
    }
  }

  /** The databases run after the setup steps, in the fixed order and
      exactly the enabled ones, each on its own labels; no other step
      annotates. */
  lemma LegacyDatabaseOrder(req: Request, reader: Reader, timestamp: string, obs: map<string, seq<string>>,
                            results: Annotator -> DatabaseResult)
    ensures var steps := LegacyRun(req, reader, timestamp, obs, results).steps;
      var used := UsedAnnotators(req.toggles);
      && IsSubseq(used, AnnotatorOrder)
      && (forall a :: a in used <==> Enabled(req.toggles, a))
      && |steps| == |SetupSteps(req)| + |used| + 1
      && (forall i :: 0 <= i < |used| ==>
            steps[|SetupSteps(req)| + i] == DatabaseStep(req.name, used[i], results(used[i])))
      && (forall s :: s in steps && s.AnnotateWith? ==> exists a :: a in used && s.db == DbType(a))
  {
    var used := UsedAnnotators(req.toggles);
    UsedAnnotatorsInOrder(req.toggles);
    var post: seq<LegacyStep> := [WriteResult(AnnotatedFile(req.outputDir, req.name, timestamp))];
    SetupNeverAnnotates(req);
    StepsAroundDatabases(SetupSteps(req), req.name, used, results, post);
  }

  /** Unlike the back end, this run writes no `cell_type` column. */
  lemma LegacyKeepsCellType(req: Request, reader: Reader, timestamp: string, obs: map<string, seq<string>>,
                            results: Annotator -> DatabaseResult)
    ensures var o := LegacyRun(req, reader, timestamp, obs, results);
      && ("cell_type" in o.obs <==> "cell_type" in obs)
      && ("cell_type" in obs ==> o.obs["cell_type"] == obs["cell_type"])
  {
    var used := UsedAnnotators(req.toggles);
    LegacyObsColumns(obs, used, results);
    forall a ensures "cell_type" != DbType(a) {
      var x := DbType(a);
      assert x[0] != 't' || |x| != 9;
    }
  }

  /** Every count table a run writes has one row per distinct label of its
      database with non-increasing counts summing to the number of cells,
      under a file name carrying the run's name when one is given; every
      marker table's rows are bounded by the cells of their type. */
  lemma LegacyTables(req: Request, reader: Reader, timestamp: string, obs: map<string, seq<string>>,
                     results: Annotator -> DatabaseResult, varNames: seq<string>,
                     expressed: (string, nat) -> bool, s: LegacyStep)
    requires s in LegacyRun(req, reader, timestamp, obs, results).steps && s.AnnotateWith?
    ensures |CountsTable(s)| == |Distinct(s.labels)|
    ensures SortedDesc(CountsTable(s), RowCount)
    ensures CountTotal(CountsTable(s)) == |s.labels|
    ensures exists a :: (Enabled(req.toggles, a) && s.labels == results(a).labels &&
                         s.countsFile == CountsFileName(Some(req.name), DbType(a), results(a).timestamp))
    ensures forall r :: r in MarkerCountsTable(s, varNames, expressed) ==>
      r.expressing <= r.total && 0.0 <= r.percentage <= 100.0 && r.total > 0
  {
    var used := UsedAnnotators(req.toggles);
    var pre := SetupSteps(req);
    var mid := DatabaseSteps(req.name, used, results);
    var post: seq<LegacyStep> := [WriteResult(AnnotatedFile(req.outputDir, req.name, timestamp))];
    assert s !in pre && s !in post;
    var i :| 0 <= i < |mid| && mid[i] == s;
    assert used[i] in used;
    CelltypeCountsSpec(s.labels);
    CelltypeCountsTotal(s.labels);
    forall r | r in MarkerCountsTable(s, varNames, expressed)
      ensures r.expressing <= r.total && 0.0 <= r.percentage <= 100.0 && r.total > 0
    {
      MarkerExpressionTableRows(s.markers, varNames, s.labels, expressed, r);
    }
  }
}
