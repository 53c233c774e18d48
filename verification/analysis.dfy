/** The rules the back end's analysis runs apply around their library calls
    (`run_cell_phone_db` and `run_inferncnv`): the label-column check, the
    choice of cell types that get a dot plot, the artefacts a CellPhoneDB run
    reports, the inferCNV argument normalisation and the tumour/normal
    labelling by CNV score.

    CellPhoneDB's statistics, the plots, inferCNV itself and the drug
    response model are external; their outcomes are parameters here. */
module Analysis {

  import opened Wrappers
  import opened Seqs
  import opened Text
  import opened AnnData

  /** The `ValueError`s the two runs raise. */
  datatype AnalysisError =
    | ColumnNotFound(column: string)
    | NoValidCellTypes(column: string)

  // ---------------------------------------------------------------------
  // CellPhoneDB: which cell types get a dot plot

  /** `[str(x).strip() for x in names if str(x).strip()]`, for names that
      are already strings. */
  function NormaliseRequest(names: seq<string>): (r: seq<string>)
    ensures |r| <= |names|
    ensures forall i :: 0 <= i < |r| ==> r[i] != "" && Strip(r[i]) == r[i]
  {
    if |names| == 0 then []
    else
      var s := Strip(names[|names| - 1]);
      StripIdempotent(names[|names| - 1]);
      if s == "" then NormaliseRequest(names[..|names| - 1])
      else NormaliseRequest(names[..|names| - 1]) + [s]
  }

  /** Every entry of the request comes from an entry of the input. */
  lemma {:induction false} NormaliseRequestSource(names: seq<string>, y: string) returns (i: nat)
    requires y in NormaliseRequest(names)
    ensures i < |names| && Strip(names[i]) == y && y != ""
    decreases |names|
  {
    var init := names[..|names| - 1];
    if y in NormaliseRequest(init) {
      i := NormaliseRequestSource(init, y);
      assert names[i] == init[i];
    } else {
      i := |names| - 1;
    }
  }

  /** Every entry of the input that is not blank is kept, stripped. */
  lemma {:induction false} NormaliseRequestKeeps(names: seq<string>, i: nat)
    requires i < |names| && Strip(names[i]) != ""
    ensures Strip(names[i]) in NormaliseRequest(names)
    decreases |names|
  {
    var init := names[..|names| - 1];
    if i < |init| {
      assert init[i] == names[i];
      NormaliseRequestKeeps(init, i);
    }
  }

  /** What the request holds: the stripped form of every entry that is not
      blank, and nothing else. */
  lemma NormaliseRequestMembers(names: seq<string>, y: string)
    ensures y in NormaliseRequest(names) <==> y != "" && exists i :: 0 <= i < |names| && Strip(names[i]) == y
  {
    if y in NormaliseRequest(names) {
      var i := NormaliseRequestSource(names, y);
    }
    if y != "" && exists i :: 0 <= i < |names| && Strip(names[i]) == y {
      var i :| 0 <= i < |names| && Strip(names[i]) == y;
      NormaliseRequestKeeps(names, i);
    }
  }

  /** Normalising a request that is already normalised changes nothing. */
  lemma {:induction false} NormaliseRequestIdempotent(names: seq<string>)
    ensures NormaliseRequest(NormaliseRequest(names)) == NormaliseRequest(names)
    decreases |names|
  {
    if |names| > 0 {
      var init := names[..|names| - 1];
      var s := Strip(names[|names| - 1]);
      NormaliseRequestIdempotent(init);
      StripIdempotent(names[|names| - 1]);
      if s != "" {
        var r := NormaliseRequest(init) + [s];
        assert r[..|r| - 1] == NormaliseRequest(init);
      }
    }
  }

  /** A blank entry (only whitespace) never survives normalisation. */
  lemma NormaliseRequestDropsBlanks(names: seq<string>, x: string)
    requires forall k :: 0 <= k < |x| ==> IsSpace(x[k])
    ensures Strip(x) == "" && Strip(x) !in NormaliseRequest(names)
  {
    StripEmptyIffBlank(x);
  }

  /** The lower-cased names (`list(map(str.lower, names))`). */
  function LowerAll(names: seq<string>): (r: seq<string>)
    ensures |r| == |names|
    ensures forall i :: 0 <= i < |names| ==> r[i] == Lower(names[i])
  {
    seq(|names|, i requires 0 <= i < |names| => Lower(names[i]))
  }

  /** `cell_type.lower() in list(map(str.lower, requested))`. */
  predicate Requested(cellType: string, requested: seq<string>) {
    Lower(cellType) in LowerAll(requested)
  }

  function RequestedBy(requested: seq<string>): string -> bool {
    c => Requested(c, requested)
  }

  /** A single entry that reads "all" in any case. */
  predicate AsksForAll(requested: seq<string>) {
    |requested| == 1 && Lower(requested[0]) == "all"
  }

  /** The cell types that get a dot plot, given the normalised request and
      the column's distinct labels in order of first appearance. */
  function SelectCellTypes(requested: seq<string>, cellTypes: seq<string>, column: string)
    : (r: Result<seq<string>, AnalysisError>)
    ensures |requested| == 0 ==> r == Ok([])
    ensures AsksForAll(requested) ==> r == Ok(cellTypes)
    ensures r.Ok? ==> IsSubseq(r.value, cellTypes)
    ensures r.Err? <==> |requested| > 0 && !AsksForAll(requested) &&
                        forall c :: c in cellTypes ==> !Requested(c, requested)
    ensures r.Err? ==> r.error == NoValidCellTypes(column)
  {
    SubseqRefl(cellTypes);
    FilterIsSubseq(cellTypes, RequestedBy(requested));
    if |requested| == 0 then Ok([])
    else if AsksForAll(requested) then Ok(cellTypes)
    else
      var selected := Filter(cellTypes, RequestedBy(requested));
      if |selected| == 0 then Err(NoValidCellTypes(column)) else Ok(selected)
  }

  /** Outside the two special cases a cell type is selected exactly when its
      lower-case form matches a lower-cased request, and nothing is selected
      twice. */
  lemma SelectCellTypesMatches(requested: seq<string>, cellTypes: seq<string>, column: string)
    requires |requested| > 0 && !AsksForAll(requested)
    requires NoDup(cellTypes)
    ensures SelectCellTypes(requested, cellTypes, column).Ok? ==>
      var selected := SelectCellTypes(requested, cellTypes, column).value;
      && NoDup(selected)
      && forall c :: c in selected <==> c in cellTypes && Requested(c, requested)
  {
    FilterNoDup(cellTypes, RequestedBy(requested));
  }

  /** The request is matched without regard to case: lower-casing it first
      selects the same cell types and raises the same errors. */
  lemma SelectCellTypesIgnoresCase(requested: seq<string>, cellTypes: seq<string>, column: string)
    ensures SelectCellTypes(LowerAll(requested), cellTypes, column) == SelectCellTypes(requested, cellTypes, column)
  {
    forall i | 0 <= i < |requested| ensures Lower(LowerAll(requested)[i]) == Lower(requested[i]) {
      LowerIdempotent(requested[i]);
    }
    assert LowerAll(LowerAll(requested)) == LowerAll(requested);
    FilterCongruent(cellTypes, RequestedBy(LowerAll(requested)), RequestedBy(requested));
  }

  // ---------------------------------------------------------------------
  // CellPhoneDB: the run

  /** A reported file: its path and the caption it is listed under. */
  datatype Artefact = Artefact(path: string, caption: string)

  /** The dictionary `run_cell_phone_db` returns. */
  datatype CpdbData = CpdbData(figs: seq<Artefact>, files: seq<Artefact>, timestamp: string)

  /** The directories and files created, in order, and what the run returns
      or raises. */
  datatype CpdbOutcome = CpdbOutcome(created: seq<string>, result: Result<CpdbData, AnalysisError>)

  datatype CpdbRequest = CpdbRequest(
    outputDir: string,
    name: string,
    column: string,
    plotColumnNames: seq<string>)

  function TempDir(outputDir: string): string {
    PathJoin(outputDir, "temp")
  }

  /** The counts and metadata files handed to CellPhoneDB. */
  function TempFiles(outputDir: string): seq<string> {
    [TempDir(outputDir),
     PathJoin(TempDir(outputDir), "norm_log.h5ad"),
     PathJoin(TempDir(outputDir), "meta.tsv")]
  }

  function HeatmapFig(req: CpdbRequest, timestamp: string): Artefact {
    Artefact(PathJoin(req.outputDir, req.name + "_heatmap_" + timestamp + ".png"), "Interaction Heatmap")
  }

  function DotPlotPrefix(name: string): string {
    name + "_dotplot_"
  }

  function PngSuffix(timestamp: string): string {
    "_" + timestamp + ".png"
  }

  /** `{name}_dotplot_{cell_type}_{timestamp}.png`. */
  function DotPlotFile(name: string, cellType: string, timestamp: string): string {
    DotPlotPrefix(name) + cellType + PngSuffix(timestamp)
  }

  function DotPlotFig(req: CpdbRequest, cellType: string, timestamp: string): Artefact {
    Artefact(PathJoin(req.outputDir, DotPlotFile(req.name, cellType, timestamp)), "Detailed Dot Plots")
  }

  function DotPlotFigs(req: CpdbRequest, selected: seq<string>, timestamp: string): (r: seq<Artefact>)
    ensures |r| == |selected|
    ensures forall i :: 0 <= i < |selected| ==> r[i] == DotPlotFig(req, selected[i], timestamp)
  {
    seq(|selected|, i requires 0 <= i < |selected| => DotPlotFig(req, selected[i], timestamp))
  }

  function NetworkFigs(req: CpdbRequest, timestamp: string, detailedDrawn: bool): seq<Artefact> {
    [Artefact(PathJoin(req.outputDir, req.name + "_network_" + timestamp + ".png"), "Network Plots")] +
    (if detailedDrawn
     then [Artefact(PathJoin(req.outputDir, req.name + "_detailed_network_" + timestamp + ".png"), "Network Plots")]
     else [])
  }

  /** Every figure a successful run reports, in the order they are made. */
  function CpdbFigs(req: CpdbRequest, selected: seq<string>, timestamp: string, detailedDrawn: bool)
    : (figs: seq<Artefact>)
    ensures |figs| == 2 + |selected| + (if detailedDrawn then 1 else 0)
    ensures figs[0] == HeatmapFig(req, timestamp)
    ensures forall i :: 0 <= i < |selected| ==> figs[1 + i] == DotPlotFig(req, selected[i], timestamp)
    ensures forall k :: 1 + |selected| <= k < |figs| ==> figs[k].caption == "Network Plots"
  {
    [HeatmapFig(req, timestamp)] + DotPlotFigs(req, selected, timestamp) + NetworkFigs(req, timestamp, detailedDrawn)
  }

  function Paths(figs: seq<Artefact>): (r: seq<string>)
    ensures |r| == |figs|
    ensures forall i :: 0 <= i < |figs| ==> r[i] == figs[i].path
  {
    seq(|figs|, i requires 0 <= i < |figs| => figs[i].path)
  }

  /** The directories and files made before the dot plots: the output
      directory, the temporary inputs, the results directory and pickle,
      and the heatmap. */
  function CpdbPrelude(req: CpdbRequest, timestamp: string): (r: seq<string>)
    ensures |r| == 7 && r[0] == req.outputDir && r[1..4] == TempFiles(req.outputDir)
    ensures r[6] == HeatmapFig(req, timestamp).path
  {
    [req.outputDir] + TempFiles(req.outputDir) +
    [PathJoin(req.outputDir, req.name + "_cpdb_results"),
     PathJoin(req.outputDir, req.name + "_cpdb_results.pkl"),
     HeatmapFig(req, timestamp).path]
  }

  /** `run_cell_phone_db`. `obs` holds the label columns, `timestamp` the
      clock reading and `detailedDrawn` whether the detailed network plot
      succeeded (its failure is caught and only logged). A missing label
      column is reported before anything but the output directory exists. */
  function RunCellPhoneDb(req: CpdbRequest, obs: map<string, seq<string>>, timestamp: string, detailedDrawn: bool)
    : (o: CpdbOutcome)
    ensures req.column !in obs ==> o == CpdbOutcome([req.outputDir], Err(ColumnNotFound(req.column)))
    ensures req.column in obs ==> |o.created| >= 7 && o.created[..7] == CpdbPrelude(req, timestamp)
  {
    if req.column !in obs then CpdbOutcome([req.outputDir], Err(ColumnNotFound(req.column)))
    else
      var before := CpdbPrelude(req, timestamp);
      var resultsFile := Artefact(before[5], "CellPhoneDB Results");
      match SelectCellTypes(NormaliseRequest(req.plotColumnNames), Distinct(obs[req.column]), req.column)
      case Err(e) => CpdbOutcome(before, Err(e))
      case Ok(selected) =>
        var figs := CpdbFigs(req, selected, timestamp, detailedDrawn);
        var after := Paths(figs[1..]);
        assert (before + after)[..7] == before;
        CpdbOutcome(before + after, Ok(CpdbData(figs, [resultsFile], timestamp)))
  }

  /** The figures of a successful run: the heatmap, one dot plot per selected
      cell type in selection order, the network plot and, when it could be
      drawn, the detailed network plot. */
  lemma CellPhoneDbFigures(req: CpdbRequest, obs: map<string, seq<string>>, timestamp: string, detailedDrawn: bool)
    requires req.column in obs
    ensures var o := RunCellPhoneDb(req, obs, timestamp, detailedDrawn);
      var sel := SelectCellTypes(NormaliseRequest(req.plotColumnNames), Distinct(obs[req.column]), req.column);
      && (o.result.Ok? <==> sel.Ok?)
      && (o.result.Ok? ==>
            && |o.result.value.figs| == 2 + |sel.value| + (if detailedDrawn then 1 else 0)
            && o.result.value.figs[0].caption == "Interaction Heatmap"
            && (forall i :: 0 <= i < |sel.value| ==>
                  o.result.value.figs[1 + i] == DotPlotFig(req, sel.value[i], timestamp))
            && o.result.value.figs[1 + |sel.value|].caption == "Network Plots"
            && o.result.value.timestamp == timestamp)
  {
  }

  /** An empty request (after normalisation) succeeds without any dot plot. */
  lemma CellPhoneDbEmptyRequest(req: CpdbRequest, obs: map<string, seq<string>>, timestamp: string, detailedDrawn: bool)
    requires req.column in obs
    requires |NormaliseRequest(req.plotColumnNames)| == 0
    ensures var o := RunCellPhoneDb(req, obs, timestamp, detailedDrawn);
      o.result.Ok? && forall f :: f in o.result.value.figs ==> f.caption != "Detailed Dot Plots"
  {
    var figs := CpdbFigs(req, [], timestamp, detailedDrawn);
    forall f | f in figs ensures f.caption != "Detailed Dot Plots" {
      var k :| 0 <= k < |figs| && figs[k] == f;
    }
  }

  /** A request that names no existing cell type fails after the heatmap has
      been written but before any dot plot. */
  lemma CellPhoneDbNoMatch(req: CpdbRequest, obs: map<string, seq<string>>, timestamp: string, detailedDrawn: bool)
    requires req.column in obs
    requires var requested := NormaliseRequest(req.plotColumnNames);
      |requested| > 0 && !AsksForAll(requested) &&
      forall c :: c in obs[req.column] ==> !Requested(c, requested)
    ensures var o := RunCellPhoneDb(req, obs, timestamp, detailedDrawn);
      && o.result == Err(NoValidCellTypes(req.column))
      && o.created[|o.created| - 1] == HeatmapFig(req, timestamp).path
  {
  }

  /** Distinct cell types give distinct dot-plot files. */
  lemma DotPlotFilesDistinct(name: string, a: string, b: string, timestamp: string)
    requires a != b
    ensures DotPlotFile(name, a, timestamp) != DotPlotFile(name, b, timestamp)
  {
    var p := DotPlotPrefix(name);
    var s := PngSuffix(timestamp);
    if |a| == |b| {
      assert (p + a + s)[|p|..|p| + |a|] == a;
      assert (p + b + s)[|p|..|p| + |b|] == b;
    } else {
      assert |p + a + s| != |p + b + s|;
    }
  }

  /** Joining two relative names, or two absolute ones, onto the same
      directory keeps them apart. */
  lemma PathJoinInjective(dir: string, a: string, b: string)
    requires a != b
    requires (|a| > 0 && a[0] == '/') <==> (|b| > 0 && b[0] == '/')
    ensures PathJoin(dir, a) != PathJoin(dir, b)
  {
    if !(|a| > 0 && a[0] == '/') {
      var sep := if dir == "" || dir[|dir| - 1] == '/' then "" else "/";
      assert PathJoin(dir, a) == (dir + sep) + a;
      assert PathJoin(dir, b) == (dir + sep) + b;
      assert (dir + sep + a)[|dir + sep|..] == a;
      assert (dir + sep + b)[|dir + sep|..] == b;
    }
  }

  /** A dot-plot file name is absolute exactly when the run name is. */
  lemma DotPlotFileAbsolute(name: string, cellType: string, timestamp: string)
    ensures var f := DotPlotFile(name, cellType, timestamp);
      (|f| > 0 && f[0] == '/') <==> (|name| > 0 && name[0] == '/')
  {
    var f := DotPlotFile(name, cellType, timestamp);
    assert f == name + ("_dotplot_" + cellType + PngSuffix(timestamp));
    if |name| == 0 {
      assert f[0] == '_';
    } else {
      assert f[0] == name[0];
    }
  }

  /** Distinct cell types get distinct dot-plot paths. */
  lemma DotPlotFigsDistinct(req: CpdbRequest, a: string, b: string, timestamp: string)
    requires a != b
    ensures DotPlotFig(req, a, timestamp).path != DotPlotFig(req, b, timestamp).path
  {
    DotPlotFilesDistinct(req.name, a, b, timestamp);
    DotPlotFileAbsolute(req.name, a, timestamp);
    DotPlotFileAbsolute(req.name, b, timestamp);
    PathJoinInjective(req.outputDir, DotPlotFile(req.name, a, timestamp), DotPlotFile(req.name, b, timestamp));
  }

  /** The selection never names a cell type twice. */
  lemma SelectCellTypesDistinct(requested: seq<string>, cellTypes: seq<string>, column: string)
    requires NoDup(cellTypes)
    ensures SelectCellTypes(requested, cellTypes, column).Ok? ==> NoDup(SelectCellTypes(requested, cellTypes, column).value)
  {
    if |requested| > 0 && !AsksForAll(requested) {
      SelectCellTypesMatches(requested, cellTypes, column);
    }
  }

  /** Every selected cell type gets its own dot-plot file: no plot
      overwrites another. */
  lemma DotPlotPathsDistinct(req: CpdbRequest, obs: map<string, seq<string>>, timestamp: string,
                             detailedDrawn: bool, i: nat, j: nat)
    requires req.column in obs
    requires var sel := SelectCellTypes(NormaliseRequest(req.plotColumnNames), Distinct(obs[req.column]), req.column);
      sel.Ok? && i < j < |sel.value|
    ensures var o := RunCellPhoneDb(req, obs, timestamp, detailedDrawn);
      o.result.Ok? && o.result.value.figs[1 + i].path != o.result.value.figs[1 + j].path
  {
    var requested := NormaliseRequest(req.plotColumnNames);
    var cellTypes := Distinct(obs[req.column]);
    var sel := SelectCellTypes(requested, cellTypes, req.column).value;
    SelectCellTypesDistinct(requested, cellTypes, req.column);
    DotPlotFigsDistinct(req, sel[i], sel[j], timestamp);
    CellPhoneDbFigures(req, obs, timestamp, detailedDrawn);
  }

  // ---------------------------------------------------------------------
  // inferCNV

  /** `if arg == "": arg = None`. */
  function NoneIfEmpty(arg: Option<string>): (r: Option<string>)
    ensures r != Some("")
    ensures arg != Some("") ==> r == arg
    ensures arg == Some("") ==> r == None
  {
    if arg == Some("") then None else arg
  }

  /** What `reference_cat` can be: absent (the default `None`), a text, or
      the list of categories an HTTP request carries. */
  datatype RefCat = NoCat | CatText(text: string) | CatList(items: seq<string>)

  /** The two ways `cnv.tl.infercnv` is called: without `reference_cat`, or
      with one that is neither absent nor the empty text. */
  datatype InferCnvCall =
    | WithoutCategory(referenceKey: Option<string>)
    | WithCategory(referenceKey: Option<string>, referenceCat: RefCat)

  function InferCnvCallFor(referenceKey: Option<string>, referenceCat: RefCat): (c: InferCnvCall)
    ensures c.referenceKey == NoneIfEmpty(referenceKey)
    ensures c.WithCategory? <==> referenceCat != NoCat && referenceCat != CatText("")
    ensures c.WithCategory? ==> c.referenceCat == referenceCat
  {
    var key := NoneIfEmpty(referenceKey);
    var cat := if referenceCat == CatText("") then NoCat else referenceCat;
    if cat == NoCat || cat == CatText("") then WithoutCategory(key)
    else WithCategory(key, cat)
  }

  /** An empty text and no argument at all make the same call, and the
      library never sees an empty reference key or category text. */
  lemma InferCnvEmptyIsNone(referenceKey: Option<string>, referenceCat: RefCat)
    ensures InferCnvCallFor(Some(""), referenceCat) == InferCnvCallFor(None, referenceCat)
    ensures InferCnvCallFor(referenceKey, CatText("")) == InferCnvCallFor(referenceKey, NoCat)
    ensures InferCnvCallFor(referenceKey, referenceCat).referenceKey != Some("")
    ensures InferCnvCallFor(referenceKey, referenceCat) != WithCategory(NoneIfEmpty(referenceKey), CatText(""))
  {
  }

  /** An inferCNV request as the back end reads it (`InferCNVParams` in
      `backend/app/models.py`): seven fields; a key it does not declare is
      dropped. */
  datatype InferCnvRequest = InferCnvRequest(
    inputPath: string, name: string, outputDir: string, referenceKey: string,
    gtfPath: string, referenceCat: seq<string>, cnvThreshold: real)

  /** What one inferCNV run does with its arguments: the library call, the
      tumour threshold, and the CPUs `autoResolution` gets, which are the
      `cores` argument or its default of 4. */
  datatype InferCnvRun = InferCnvRun(call: InferCnvCall, threshold: real, cpus: int)

  function RunFor(referenceKey: Option<string>, referenceCat: RefCat, threshold: real, cores: Option<int>): InferCnvRun {
    InferCnvRun(InferCnvCallFor(referenceKey, referenceCat), threshold, if cores.Some? then cores.value else 4)
  }

  /** The `/inferCNV` endpoint passes the seven request fields by position
      and no `cores`. */
  function EndpointRun(req: InferCnvRequest): (r: InferCnvRun)
    ensures r.cpus == 4 && r.threshold == req.cnvThreshold
    ensures r.call == InferCnvCallFor(Some(req.referenceKey), CatList(req.referenceCat))
  {
    RunFor(Some(req.referenceKey), CatList(req.referenceCat), req.cnvThreshold, None)
  }

  /** The endpoint as evidently meant: it also forwards the form's core
      count. */
  function EndpointRunWithCores(req: InferCnvRequest, cores: int): (r: InferCnvRun)
    ensures r.cpus == cores
    ensures r.call == EndpointRun(req).call && r.threshold == req.cnvThreshold
  {
    RunFor(Some(req.referenceKey), CatList(req.referenceCat), req.cnvThreshold, Some(cores))
  }

  /** The label one cell gets from its CNV score. */
  function CnvStatus(score: real, threshold: real): string {
    if score > threshold then "tumor" else "normal"
  }

  /** `adata.obs["cnv_status"]`: "normal" everywhere, then "tumor" where the
      score exceeds the threshold. */
  function CnvStatuses(scores: seq<real>, threshold: real): (r: seq<string>)
    ensures |r| == |scores|
    ensures forall i :: 0 <= i < |scores| ==> r[i] == CnvStatus(scores[i], threshold)
  {
    seq(|scores|, i requires 0 <= i < |scores| => CnvStatus(scores[i], threshold))
  }

  /** The positions of the cells whose status is "tumor", in order
      (`adata[adata.obs['cnv_status'] == 'tumor']`). */
  function TumorCells(statuses: seq<string>): (r: seq<nat>)
    ensures forall k :: 0 <= k < |r| ==> r[k] < |statuses| && statuses[r[k]] == "tumor"
    ensures forall i :: 0 <= i < |statuses| && statuses[i] == "tumor" ==> i in r
    ensures forall k, l :: 0 <= k < l < |r| ==> r[k] < r[l]
  {
    if |statuses| == 0 then []
    else
      var init := TumorCells(statuses[..|statuses| - 1]);
      if statuses[|statuses| - 1] == "tumor" then init + [|statuses| - 1] else init
  }

  /** A cell is labelled "tumor" exactly when its score is strictly above the
      threshold; a score equal to the threshold stays "normal". */
  lemma CnvStatusStrict(scores: seq<real>, threshold: real, i: nat)
    requires i < |scores|
    ensures CnvStatuses(scores, threshold)[i] in {"tumor", "normal"}
    ensures CnvStatuses(scores, threshold)[i] == "tumor" <==> scores[i] > threshold
    ensures scores[i] == threshold ==> CnvStatuses(scores, threshold)[i] == "normal"
  {
  }

  /** The cells kept for the drug-response step are exactly the cells whose
      score exceeds the threshold. */
  lemma TumorCellsByScore(scores: seq<real>, threshold: real)
    ensures forall i: nat :: i in TumorCells(CnvStatuses(scores, threshold)) <==> i < |scores| && scores[i] > threshold
  {
  }

  /** Raising the threshold never adds a tumour cell. */
  lemma TumorCellsAntitone(scores: seq<real>, low: real, high: real)
    requires low <= high
    ensures forall i :: i in TumorCells(CnvStatuses(scores, high)) ==> i in TumorCells(CnvStatuses(scores, low))
  {
    TumorCellsByScore(scores, low);
    TumorCellsByScore(scores, high);
  }

  /** The louvain check and relabelling after the drug-response step: every
      cell's cluster is shown with its cluster size. */
  function LouvainCounted(obs: map<string, seq<string>>): (r: Result<seq<string>, AnalysisError>)
    ensures r.Err? <==> "louvain" !in obs
    ensures r.Err? ==> r.error == ColumnNotFound("louvain")
    ensures r.Ok? ==> |r.value| == |obs["louvain"]|
    ensures r.Ok? ==> forall i :: 0 <= i < |r.value| ==>
              r.value[i] == CountedName(obs["louvain"][i], Count(obs["louvain"], obs["louvain"][i]))
  {
    if "louvain" !in obs then Err(ColumnNotFound("louvain"))
    else Ok(CountedLabels(obs["louvain"]))
  }

  /** The drug-response outputs that are reported. */
  const DrugResponseFiles: seq<string> :=
    ["IC50_prediction.csv", "drug_kill_prediction.csv", "predicted cell death.png", "GDSC prediction.png"]

  function IsDrugResponseFile(file: string): bool {
    file in DrugResponseFiles
  }

  /** The files of the output directory that are reported, in listing order,
      each joined onto the directory. */
  function DrugResponseArtefacts(outputDir: string, listing: seq<string>): (r: seq<Artefact>)
    ensures |r| <= |listing|
    ensures forall k :: 0 <= k < |r| ==> r[k].caption == "Drug Response"
    ensures forall f :: f in listing && f in DrugResponseFiles ==> Artefact(PathJoin(outputDir, f), "Drug Response") in r
    ensures forall a :: a in r ==> exists f :: f in listing && f in DrugResponseFiles && a.path == PathJoin(outputDir, f)
  {
    if |listing| == 0 then []
    else
      var init := DrugResponseArtefacts(outputDir, listing[..|listing| - 1]);
      var f := listing[|listing| - 1];
      assert forall g :: g in listing ==> g in listing[..|listing| - 1] || g == f;
      if IsDrugResponseFile(f) then init + [Artefact(PathJoin(outputDir, f), "Drug Response")] else init
  }
}
