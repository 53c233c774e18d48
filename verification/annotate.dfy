/** The back end's annotation run (`annotate` in the back end's annotate
    module): pick a reader by file suffix, optionally preprocess with merged
    parameters, run the enabled annotation databases in a fixed order, copy
    the first one's labels to `cell_type` and write the result.

    The numerical work (reading, QC, clustering, SCSA annotation) belongs to
    external libraries; here the labels each database would assign are a
    parameter, and the run is described by the steps it takes. */
module Annotate {

  import opened Wrappers
  import opened Seqs
  import opened Text
  import opened Json
  import opened Params
  import opened AnnData

  /** The reader the suffix of the input file selects. */
  datatype Reader =
    | ReadH5ad(path: string)
    | Read10xH5(path: string)
    | ReadCsvTransposed(path: string)
    | Read10xMtx(dir: string)

  datatype Failure =
    | UnsupportedFormat(path: string)
    | MissingColumn(column: string)

  /** The suffix dispatch. Suffixes are case-sensitive and tried in this
      order; a `.mtx` file is read through its directory. */
  function ChooseReader(inputFile: string): (r: Result<Reader, Failure>)
    ensures r.Err? ==> r.error == UnsupportedFormat(inputFile)
    ensures r.Ok? && r.value.Read10xMtx? ==> r.value.dir == DirName(inputFile)
    ensures r.Ok? && !r.value.Read10xMtx? ==> r.value.path == inputFile
  {
    if EndsWith(inputFile, ".h5ad") then Ok(ReadH5ad(inputFile))
    else if EndsWith(inputFile, ".h5") then Ok(Read10xH5(inputFile))
    else if EndsWith(inputFile, ".csv") || EndsWith(inputFile, ".txt") then Ok(ReadCsvTransposed(inputFile))
    else if EndsWith(inputFile, ".mtx") then Ok(Read10xMtx(DirName(inputFile)))
    else Err(UnsupportedFormat(inputFile))
  }

  /** The reader for each supported extension, as a table. */
  function ReaderForExtension(ext: Option<string>, inputFile: string): Result<Reader, Failure> {
    if ext == Some("h5ad") then Ok(ReadH5ad(inputFile))
    else if ext == Some("h5") then Ok(Read10xH5(inputFile))
    else if ext == Some("csv") || ext == Some("txt") then Ok(ReadCsvTransposed(inputFile))
    else if ext == Some("mtx") then Ok(Read10xMtx(DirName(inputFile)))
    else Err(UnsupportedFormat(inputFile))
  }

  /** The chain of suffix tests is a lookup of the final extension: the
      order of the tests never matters, and everything else is rejected. */
  lemma ChooseReaderByExtension(inputFile: string)
    ensures ChooseReader(inputFile) == ReaderForExtension(Extension(inputFile), inputFile)
  {
    assert "." + "h5ad" == ".h5ad" && "." + "h5" == ".h5" && "." + "csv" == ".csv";
    assert "." + "txt" == ".txt" && "." + "mtx" == ".mtx";
    EndsWithExtension(inputFile, "h5ad");
    EndsWithExtension(inputFile, "h5");
    EndsWithExtension(inputFile, "csv");
    EndsWithExtension(inputFile, "txt");
    EndsWithExtension(inputFile, "mtx");
  }

  /** The three annotation databases. */
  datatype Annotator = CellMarker | PanglaoDb | CancerSea

  /** The database name, which is also the `obs` column it writes. */
  function DbType(a: Annotator): string {
    match a
    case CellMarker => "cellmarker"
    case PanglaoDb => "panglaodb"
    case CancerSea => "cancersea"
  }

  /** The SCSA cell-type set each database is queried with. */
  function CellTypeSet(a: Annotator): string {
    match a
    case CellMarker => "normal"
    case PanglaoDb => "normal"
    case CancerSea => "cancer"
  }

  /** The fixed order in which the databases run. */
  const AnnotatorOrder: seq<Annotator> := [CellMarker, PanglaoDb, CancerSea]

  /** The three `use_...` flags of a request. */
  datatype Toggles = Toggles(cellmarker: bool, panglao: bool, cancerSea: bool)

  predicate Enabled(t: Toggles, a: Annotator) {
    match a
    case CellMarker => t.cellmarker
    case PanglaoDb => t.panglao
    case CancerSea => t.cancerSea
  }

  function EnabledIn(t: Toggles): Annotator -> bool {
    a => Enabled(t, a)
  }

  /** The three `if use_...: ... used_annotators.append(...)` blocks. */
  function UsedAnnotators(t: Toggles): (r: seq<Annotator>)
    ensures NoDup(r)
    ensures forall a :: a in r <==> Enabled(t, a)
  {
    (if t.cellmarker then [CellMarker] else [])
    + (if t.panglao then [PanglaoDb] else [])
    + (if t.cancerSea then [CancerSea] else [])
  }

  /** The databases that run are exactly the enabled ones, taken in the
      fixed order. */
  lemma UsedAnnotatorsInOrder(t: Toggles)
    ensures UsedAnnotators(t) == Filter(AnnotatorOrder, EnabledIn(t))
    ensures IsSubseq(UsedAnnotators(t), AnnotatorOrder)
  {
    var p := EnabledIn(t);
    assert AnnotatorOrder[..2] == [CellMarker, PanglaoDb];
    assert AnnotatorOrder[..2][..1] == [CellMarker];
    assert [CellMarker][..0] == [];
    FilterIsSubseq(AnnotatorOrder, p);
  }

  /** The names reported as `used_annotators`. */
  function DbTypes(used: seq<Annotator>): (r: seq<string>)
    ensures |r| == |used|
    ensures forall i :: 0 <= i < |used| ==> r[i] == DbType(used[i])
  {
    seq(|used|, i requires 0 <= i < |used| => DbType(used[i]))
  }

  /** `adata.obs` after `annotate_with_scsa` ran for each database in
      `used`: the database's labels under its own name, and the
      counts-aware legend labels under `<name>_cnt`. */
  function AfterAnnotators(obs: map<string, seq<string>>, used: seq<Annotator>,
                           labels: Annotator -> seq<string>): (r: map<string, seq<string>>)
    ensures forall a :: a in used ==> DbType(a) in r && r[DbType(a)] == labels(a)
  {
    if |used| == 0 then obs
    else
      var a := used[|used| - 1];
      var init := used[..|used| - 1];
      var prev := AfterAnnotators(obs, init, labels);
      assert forall b :: b in used ==> b in init || b == a;
      ColumnNamesDistinct(a, a);
      assert forall b :: b in init && b != a ==> DbType(b) != DbType(a) && DbType(b) != DbType(a) + "_cnt" by {
        forall b | b in init && b != a ensures DbType(b) != DbType(a) && DbType(b) != DbType(a) + "_cnt" {
          ColumnNamesDistinct(b, a);
          ColumnNamesDistinct(a, b);
        }
      }
      prev[DbType(a) := labels(a)][DbType(a) + "_cnt" := CountedLabels(labels(a))]
  }

  /** The annotators add their own columns and nothing else. */
  lemma {:induction false} AfterAnnotatorsColumns(obs: map<string, seq<string>>, used: seq<Annotator>,
                                                  labels: Annotator -> seq<string>)
    ensures AfterAnnotators(obs, used, labels).Keys == obs.Keys + Written(used)
    ensures forall c :: c in obs && c !in Written(used) ==> AfterAnnotators(obs, used, labels)[c] == obs[c]
  {
    if |used| > 0 {
      var a := used[|used| - 1];
      var init := used[..|used| - 1];
      AfterAnnotatorsColumns(obs, init, labels);
    }
  }

  /** The column names of different databases never coincide, and a
      database's `_cnt` column is never another database's column. */
  lemma ColumnNamesDistinct(a: Annotator, b: Annotator)
    ensures DbType(a) == DbType(b) ==> a == b
    ensures DbType(a) + "_cnt" != DbType(b)
  {
    var x := DbType(a) + "_cnt";
    assert x[|x| - 1] == 't';
  }

  /** The columns the annotators write. */
  function Written(used: seq<Annotator>): set<string> {
    if |used| == 0 then {}
    else
      var a := used[|used| - 1];
      Written(used[..|used| - 1]) + {DbType(a), DbType(a) + "_cnt"}
  }

  /** The loop over `used_annotators` that breaks after its first pass:
      `cell_type` becomes a copy of the first database's column. */
  function CopyCellType(obs: map<string, seq<string>>, used: seq<string>): (r: Result<map<string, seq<string>>, Failure>)
    ensures |used| == 0 ==> r == Ok(obs)
    ensures |used| > 0 && used[0] !in obs ==> r == Err(MissingColumn(used[0]))
    ensures r.Ok? && |used| > 0 ==> "cell_type" in r.value && r.value["cell_type"] == obs[used[0]]
    ensures r.Ok? ==> forall c :: c != "cell_type" ==> (c in r.value <==> c in obs)
    ensures r.Ok? ==> forall c :: c in obs && c != "cell_type" ==> r.value[c] == obs[c]
  {
    if |used| == 0 then Ok(obs)
    else if used[0] in obs then Ok(obs["cell_type" := obs[used[0]]])
    else Err(MissingColumn(used[0]))
  }

  /** What a client sends. */
  datatype Request = Request(
    name: string,
    inputFile: string,
    outputDir: string,
    preprocessed: bool,
    preprocessingParams: map<string, Json>,
    toggles: Toggles)

  /** The effects of a run, in order. */
  datatype Step =
    | MakeOutputDir(dir: string)
    | Preprocess(params: Fields)
    | RunAnnotator(db: string, cellTypeSet: string)
    | WriteAnnotated(path: string)
    | Summarise(path: string)

  datatype Outcome = Outcome(
    reader: Reader,
    steps: seq<Step>,
    /** The second return value: the merged parameters, `{}` when skipped. */
    params: Fields,
    usedAnnotators: seq<string>,
    obs: map<string, seq<string>>,
    outputFile: string)

  /** The name of the annotated file. */
  function AnnotatedFile(outputDir: string, name: string, timestamp: string): string {
    PathJoin(outputDir, "annotated_" + name + "_" + timestamp + ".h5ad")
  }

  function AnnotatorSteps(used: seq<Annotator>): (r: seq<Step>)
    ensures |r| == |used|
    ensures forall i :: 0 <= i < |used| ==> r[i] == RunAnnotator(DbType(used[i]), CellTypeSet(used[i]))
  {
    seq(|used|, i requires 0 <= i < |used| => RunAnnotator(DbType(used[i]), CellTypeSet(used[i])))
  }

  /** The parameters preprocessing runs with and the run returns: the merge
      when it runs, `{}` when the input is already preprocessed. */
  function RunParams(req: Request): Fields {
    if req.preprocessed then [] else Merge(req.preprocessingParams)
  }

  /** The steps after the output directory exists, in order. */
  function RunSteps(req: Request, used: seq<Annotator>, outputFile: string): seq<Step> {
    [MakeOutputDir(req.outputDir)]
    + (if req.preprocessed then [] else [Preprocess(RunParams(req))])
    + AnnotatorSteps(used)
    + [WriteAnnotated(outputFile), Summarise(outputFile)]
  }

  /** The observation table that is written: the annotators' columns, then
      `cell_type` from the first of them. */
  function FinalObs(obs: map<string, seq<string>>, used: seq<Annotator>,
                    labels: Annotator -> seq<string>): map<string, seq<string>> {
    var annotated := AfterAnnotators(obs, used, labels);
    var copied := CopyCellType(annotated, DbTypes(used));
    if copied.Ok? then copied.value else annotated
  }

  /** One run. `obs` is the observation table entering the annotation stage
      (as read, or after preprocessing), `labels` what each database assigns
      and `timestamp` the formatted clock reading. An unsupported input fails
      before anything is created. */
  function Annotate(req: Request, timestamp: string, obs: map<string, seq<string>>,
                    labels: Annotator -> seq<string>): (r: Result<Outcome, Failure>)
    ensures r.Err? <==> ChooseReader(req.inputFile).Err?
    ensures r.Err? ==> r.error == UnsupportedFormat(req.inputFile)
    ensures r.Ok? ==> r == Ok(Run(req, ChooseReader(req.inputFile).value, timestamp, obs, labels))
  {
    match ChooseReader(req.inputFile)
    case Err(e) => Err(e)
    case Ok(reader) => Ok(Run(req, reader, timestamp, obs, labels))
  }

  /** A run once its reader is known. */
  function Run(req: Request, reader: Reader, timestamp: string, obs: map<string, seq<string>>,
               labels: Annotator -> seq<string>): Outcome {
    var used := UsedAnnotators(req.toggles);
    var outputFile := AnnotatedFile(req.outputDir, req.name, timestamp);
    Outcome(reader, RunSteps(req, used, outputFile), RunParams(req), DbTypes(used),
            FinalObs(obs, used, labels), outputFile)
  }

  /** Preprocessing runs exactly when the input is not marked preprocessed;
      it runs with the merged parameters, which are also returned, and a
      skipped run returns `{}`. Nothing runs before the output directory
      exists. */
  lemma AnnotatePreprocessing(req: Request, reader: Reader, timestamp: string, obs: map<string, seq<string>>,
                              labels: Annotator -> seq<string>)
    ensures var o := Run(req, reader, timestamp, obs, labels);
      && o.steps[0] == MakeOutputDir(req.outputDir)
      && (Preprocess(Merge(req.preprocessingParams)) in o.steps <==> !req.preprocessed)
      && (forall p :: Preprocess(p) in o.steps ==> p == Merge(req.preprocessingParams))
      && o.params == (if req.preprocessed then [] else Merge(req.preprocessingParams))
  {
    var used := UsedAnnotators(req.toggles);
    var outputFile := AnnotatedFile(req.outputDir, req.name, timestamp);
    PreprocessStep(req, used, outputFile);
  }

  lemma PreprocessStep(req: Request, used: seq<Annotator>, outputFile: string)
    ensures var steps := RunSteps(req, used, outputFile);
      && steps[0] == MakeOutputDir(req.outputDir)
      && (forall p :: Preprocess(p) in steps <==> !req.preprocessed && p == RunParams(req))
  {
    var mid := AnnotatorSteps(used) + [WriteAnnotated(outputFile), Summarise(outputFile)];
    var pre := if req.preprocessed then [] else [Preprocess(RunParams(req))];
    assert RunSteps(req, used, outputFile) == [MakeOutputDir(req.outputDir)] + pre + mid;
    assert forall s :: s in mid ==> !s.Preprocess?;
  }

  /** The databases run in the fixed order, only when enabled, and are
      reported in that order without duplicates. */
  lemma AnnotateRunsEnabledDatabases(req: Request, reader: Reader, timestamp: string, obs: map<string, seq<string>>,
                                     labels: Annotator -> seq<string>)
    ensures var o := Run(req, reader, timestamp, obs, labels);
      var used := UsedAnnotators(req.toggles);
      && IsSubseq(used, AnnotatorOrder)
      && o.usedAnnotators == DbTypes(used)
      && NoDup(o.usedAnnotators)
      && (forall a :: DbType(a) in o.usedAnnotators <==> Enabled(req.toggles, a))
      && (forall a :: RunAnnotator(DbType(a), CellTypeSet(a)) in o.steps <==> Enabled(req.toggles, a))
  {
    var used := UsedAnnotators(req.toggles);
    UsedAnnotatorsInOrder(req.toggles);
    AnnotatorStepsOfUsed(req, used, AnnotatedFile(req.outputDir, req.name, timestamp));
    DbTypesOfUsed(used);
  }

  lemma AnnotatorStepsOfUsed(req: Request, used: seq<Annotator>, outputFile: string)
    ensures forall a :: RunAnnotator(DbType(a), CellTypeSet(a)) in RunSteps(req, used, outputFile) <==> a in used
  {
    var pre := [MakeOutputDir(req.outputDir)] + (if req.preprocessed then [] else [Preprocess(RunParams(req))]);
    var post := [WriteAnnotated(outputFile), Summarise(outputFile)];
    assert RunSteps(req, used, outputFile) == pre + AnnotatorSteps(used) + post;
    assert forall s :: s in pre + post ==> !s.RunAnnotator?;
    forall a ensures RunAnnotator(DbType(a), CellTypeSet(a)) in AnnotatorSteps(used) <==> a in used {
      if a in used {
        var i :| 0 <= i < |used| && used[i] == a;
        assert AnnotatorSteps(used)[i] == RunAnnotator(DbType(a), CellTypeSet(a));
      }
      if RunAnnotator(DbType(a), CellTypeSet(a)) in AnnotatorSteps(used) {
        var i :| 0 <= i < |used| && AnnotatorSteps(used)[i] == RunAnnotator(DbType(a), CellTypeSet(a));
        ColumnNamesDistinct(used[i], a);
      }
    }
  }

  lemma DbTypesOfUsed(used: seq<Annotator>)
    requires NoDup(used)
    ensures NoDup(DbTypes(used))
    ensures forall a :: DbType(a) in DbTypes(used) <==> a in used
  {
    forall a | DbType(a) in DbTypes(used) ensures a in used {
      var i :| 0 <= i < |used| && DbTypes(used)[i] == DbType(a);
      ColumnNamesDistinct(used[i], a);
    }
    forall i, j | 0 <= i < j < |used| ensures DbTypes(used)[i] != DbTypes(used)[j] {
      ColumnNamesDistinct(used[i], used[j]);
    }
  }

  /** `cell_type` is the first enabled database's labels; with no database
      enabled the observation table is left exactly as it was. */
  lemma AnnotateCellType(req: Request, reader: Reader, timestamp: string, obs: map<string, seq<string>>,
                         labels: Annotator -> seq<string>)
    ensures var o := Run(req, reader, timestamp, obs, labels);
      var used := UsedAnnotators(req.toggles);
      && (|used| > 0 ==> "cell_type" in o.obs && o.obs["cell_type"] == labels(used[0]))
      && (|used| == 0 ==> o.obs == obs)
      && (req.toggles.cellmarker ==> o.obs["cell_type"] == labels(CellMarker))
  {
    var used := UsedAnnotators(req.toggles);
    if |used| > 0 {
      assert used[0] in used;
    }
  }

  /** The annotated file is `annotated_<name>_<timestamp>.h5ad` in the output
      directory, written before it is summarised. */
  lemma AnnotateWritesFile(req: Request, reader: Reader, timestamp: string, obs: map<string, seq<string>>,
                           labels: Annotator -> seq<string>)
    requires '/' !in req.name && '/' !in timestamp
    ensures var o := Run(req, reader, timestamp, obs, labels);
      && BaseName(o.outputFile) == "annotated_" + req.name + "_" + timestamp + ".h5ad"
      && o.steps[|o.steps| - 2..] == [WriteAnnotated(o.outputFile), Summarise(o.outputFile)]
  {
    var file := "annotated_" + req.name + "_" + timestamp + ".h5ad";
    assert '/' !in "annotated_" && '/' !in "_" && '/' !in ".h5ad";
    assert '/' !in "annotated_" + req.name;
    assert '/' !in "annotated_" + req.name + "_";
    assert '/' !in "annotated_" + req.name + "_" + timestamp;
    BaseNameOfJoin(req.outputDir, file);
  }
}
