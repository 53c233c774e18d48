/** The tumor-prediction (inferCNV) form: the reference key is chosen among
    the annotation columns of the uploaded data, the reference categories
    among that column's labels, and the whole form state is the request
    body sent to the back end. */
module TumorForm {

  import opened Wrappers
  import opened Seqs
  import opened Json
  import opened AnnData
  import opened Summary
  import Analysis
  import Layout

  datatype TumorState = TumorState(
    inputPath: string,
    outputDir: string,
    name: string,
    referenceKey: string,
    referenceCat: seq<string>,
    gtfPath: string,
    cnvThreshold: real,
    cores: int)

  const DefaultGtf: string := "db/gencode.v47.annotation.gtf.gz"

  /** The form as it opens for an upload's summary (or for none). */
  function InitialState(summary: Option<H5adSummary>): (st: TumorState)
    ensures st.inputPath == (if summary.Some? then summary.value.path else "")
    ensures st.referenceKey == "" && st.referenceCat == [] && st.name == "" && st.outputDir == ""
    ensures st.gtfPath == DefaultGtf && st.cnvThreshold == 0.03 && st.cores == 4
  {
    TumorState(if summary.Some? then summary.value.path else "", "", "", "", [], DefaultGtf, 0.03, 4)
  }

  // ---------------------------------------------------------------------
  // What the menus offer

  /** The reference keys on offer: the columns of the label counts. */
  function RefKeys(summary: Option<H5adSummary>): (r: seq<string>)
    ensures summary.None? || summary.value.labelCounts.None? ==> r == []
    ensures summary.Some? && summary.value.labelCounts.Some? ==> r == Keys(summary.value.labelCounts.value)
  {
    if summary.None? || summary.value.labelCounts.None? then [] else Keys(summary.value.labelCounts.value)
  }

  /** The categories on offer for a key: the labels counted under it. */
  function CategoriesForKey(summary: Option<H5adSummary>, key: string): (r: seq<string>)
    ensures key == "" ==> r == []
    ensures key !in RefKeys(summary) ==> r == []
    ensures key != "" && summary.Some? && summary.value.labelCounts.Some? ==>
      r == Categories(Lookup(summary.value.labelCounts.value, key).GetOr([]))
  {
    if key == "" || summary.None? || summary.value.labelCounts.None? then []
    else
      match Lookup(summary.value.labelCounts.value, key)
      case None => []
      case Some(tallies) => Categories(tallies)
  }

  /** For the summary of a data set, the keys on offer are exactly the
      annotation columns it has, each once. */
  lemma RefKeysOfSummary(path: Option<string>, adata: Option<AnnData>, disk: Disk)
    requires SummarizeH5ad(path, adata, disk).Ok?
    ensures var keys := RefKeys(Some(SummarizeH5ad(path, adata, disk).value));
      (forall c :: c in keys <==> c in LabelColumns && HasColumn(Described(adata, disk), c)) && NoDup(keys)
  {
    SummarizeLabelCounts(path, adata, disk);
  }

  /** For the summary of a data set, the categories on offer for an
      annotation column are its distinct labels, each once. */
  lemma CategoriesOfSummary(path: Option<string>, adata: Option<AnnData>, disk: Disk, c: string)
    requires SummarizeH5ad(path, adata, disk).Ok?
    requires c in LabelColumns && HasColumn(Described(adata, disk), c)
    ensures var cats := CategoriesForKey(Some(SummarizeH5ad(path, adata, disk).value), c);
      var labels := Described(adata, disk).obs[c];
      (forall l :: l in cats <==> l in labels) && NoDup(cats)
  {
    var s := SummarizeH5ad(path, adata, disk).value;
    SummarizeLabelCounts(path, adata, disk);
    CategoriesOfCounted(s, Described(adata, disk), c);
  }

  /** The categories on offer for a counted column, from the facts the
      summary establishes about its label counts. */
  lemma CategoriesOfCounted(s: H5adSummary, a: AnnData, c: string)
    requires c in LabelColumns && HasColumn(a, c)
    requires s.labelCounts.Some? && NoDup(Keys(s.labelCounts.value)) && c in Keys(s.labelCounts.value)
    requires forall i :: 0 <= i < |s.labelCounts.value| ==>
               HasColumn(a, s.labelCounts.value[i].0) && s.labelCounts.value[i].1 == ValueCounts(a.obs[s.labelCounts.value[i].0])
    ensures (forall l :: l in CategoriesForKey(Some(s), c) <==> l in a.obs[c]) && NoDup(CategoriesForKey(Some(s), c))
  {
    var cols := s.labelCounts.value;
    var i :| 0 <= i < |cols| && Keys(cols)[i] == c;
    LookupAt(cols, i);
    CategoriesOfLookup(s, c, ValueCounts(a.obs[c]));
    ValueCountsSpec(a.obs[c]);
  }

  lemma CategoriesOfLookup(s: H5adSummary, key: string, tallies: seq<Tally>)
    requires key != "" && s.labelCounts.Some? && Lookup(s.labelCounts.value, key) == Some(tallies)
    ensures CategoriesForKey(Some(s), key) == Categories(tallies)
  {
  }

  // ---------------------------------------------------------------------
  // Editing

  /** The fields edited through `on(k)`. */
  datatype FieldEdit =
    | EditInputPath(text: string)
    | EditName(text: string)
    | EditGtfPath(text: string)
    | EditCnvThreshold(value: real)
    | EditCores(count: int)

  /** `on(k)(v)`: sets one field and keeps every other. */
  function On(st: TumorState, e: FieldEdit): (r: TumorState)
    ensures r.outputDir == st.outputDir && r.referenceKey == st.referenceKey && r.referenceCat == st.referenceCat
    ensures r.inputPath == (if e.EditInputPath? then e.text else st.inputPath)
    ensures r.name == (if e.EditName? then e.text else st.name)
    ensures r.gtfPath == (if e.EditGtfPath? then e.text else st.gtfPath)
    ensures r.cnvThreshold == (if e.EditCnvThreshold? then e.value else st.cnvThreshold)
    ensures r.cores == (if e.EditCores? then e.count else st.cores)
  {
    match e
    case EditInputPath(t) => st.(inputPath := t)
    case EditName(t) => st.(name := t)
    case EditGtfPath(t) => st.(gtfPath := t)
    case EditCnvThreshold(v) => st.(cnvThreshold := v)
    case EditCores(n) => st.(cores := n)
  }

  /** Choosing a reference key clears the chosen categories and nothing else. */
  function ChangeRefKey(st: TumorState, key: string): (r: TumorState)
    ensures r.referenceKey == key && r.referenceCat == []
    ensures r.(referenceKey := st.referenceKey, referenceCat := st.referenceCat) == st
  {
    st.(referenceKey := key, referenceCat := [])
  }

  function ChangeRefCat(st: TumorState, cats: seq<string>): (r: TumorState)
    ensures r.referenceCat == cats
    ensures r.(referenceCat := st.referenceCat) == st
  {
    st.(referenceCat := cats)
  }

  /** `pickOutputDir`: a cancelled dialog (`None` or an empty path) keeps
      the old directory. */
  function PickOutputDir(st: TumorState, dir: Option<string>): (r: TumorState)
    ensures dir.None? || dir.value == "" ==> r == st
    ensures dir.Some? && dir.value != "" ==> r == st.(outputDir := dir.value)
  {
    if dir.None? || dir.value == "" then st else st.(outputDir := dir.value)
  }

  /** Every chosen category is one the menu offers for the chosen key. */
  predicate CatsOffered(st: TumorState, summary: Option<H5adSummary>) {
    forall c :: c in st.referenceCat ==> c in CategoriesForKey(summary, st.referenceKey)
  }

  /** The chosen categories always belong to the chosen key: a new key
      clears them, choosing from the menu keeps to it, and the other edits
      leave key and categories alone. */
  lemma CatsStayOffered(st: TumorState, summary: Option<H5adSummary>, key: string, cats: seq<string>,
                        e: FieldEdit, dir: Option<string>)
    ensures CatsOffered(ChangeRefKey(st, key), summary)
    ensures (forall c :: c in cats ==> c in CategoriesForKey(summary, st.referenceKey)) ==>
              CatsOffered(ChangeRefCat(st, cats), summary)
    ensures CatsOffered(st, summary) ==> CatsOffered(On(st, e), summary)
    ensures CatsOffered(st, summary) ==> CatsOffered(PickOutputDir(st, dir), summary)
  {
  }

  // ---------------------------------------------------------------------
  // The request

  function StrList(items: seq<string>): (j: Json)
    ensures j.Arr? && |j.items| == |items|
    ensures forall i :: 0 <= i < |items| ==> j.items[i] == Str(items[i])
  {
    Arr(seq(|items|, i requires 0 <= i < |items| => Str(items[i])))
  }

  /** `JSON.stringify(st)`: the form state, field by field. */
  function RequestBody(st: TumorState): (j: Json)
    ensures j.Obj? && Keys(j.fields) ==
      ["input_path", "output_dir", "name", "reference_key", "reference_cat", "gtf_path", "cnv_threshold", "cores"]
  {
    Obj([("input_path", Str(st.inputPath)), ("output_dir", Str(st.outputDir)), ("name", Str(st.name)),
         ("reference_key", Str(st.referenceKey)), ("reference_cat", StrList(st.referenceCat)),
         ("gtf_path", Str(st.gtfPath)), ("cnv_threshold", Num(st.cnvThreshold)), ("cores", Num(st.cores as real))])
  }

  /** The text stored under `key`, if that field holds one. */
  function StrField(f: seq<(string, Json)>, key: string): Option<string> {
    var v := Lookup(f, key);
    if v.Some? && v.value.Str? then Some(v.value.s) else None
  }

  /** The number stored under `key`, if that field holds one. */
  function NumField(f: seq<(string, Json)>, key: string): Option<real> {
    var v := Lookup(f, key);
    if v.Some? && v.value.Num? then Some(v.value.n) else None
  }

  function TextsOf(items: seq<Json>): (r: Option<seq<string>>)
    ensures r.Some? ==> |r.value| == |items|
  {
    if |items| == 0 then Some([])
    else if !items[|items| - 1].Str? then None
    else match TextsOf(items[..|items| - 1])
      case None => None
      case Some(init) => Some(init + [items[|items| - 1].s])
  }

  lemma {:induction false} TextsOfStrList(items: seq<string>)
    ensures TextsOf(StrList(items).items) == Some(items)
    decreases |items|
  {
    if |items| > 0 {
      var init := items[..|items| - 1];
      TextsOfStrList(init);
      assert StrList(items).items[..|items| - 1] == StrList(init).items;
      assert StrList(items).items[|items| - 1] == Str(items[|items| - 1]);
      assert init + [items[|items| - 1]] == items;
    }
  }

  /** The list of texts stored under `key`, if that field holds one. */
  function StrsField(f: seq<(string, Json)>, key: string): Option<seq<string>> {
    var v := Lookup(f, key);
    if v.Some? && v.value.Arr? then TextsOf(v.value.items) else None
  }

  /** How the back end reads a request body (`InferCNVParams`): each of
      its seven fields must be present with its type; any other key, `cores`
      among them, is dropped. */
  function ParseRequest(j: Json): Option<Analysis.InferCnvRequest> {
    if !j.Obj? then None
    else
      var f := j.fields;
      var i := StrField(f, "input_path");
      var n := StrField(f, "name");
      var o := StrField(f, "output_dir");
      var k := StrField(f, "reference_key");
      var g := StrField(f, "gtf_path");
      var cat := StrsField(f, "reference_cat");
      var t := NumField(f, "cnv_threshold");
      if i.Some? && n.Some? && o.Some? && k.Some? && g.Some? && cat.Some? && t.Some?
      then Some(Analysis.InferCnvRequest(i.value, n.value, o.value, k.value, g.value, cat.value, t.value))
      else None
  }

  /** The request as evidently meant to be read: the seven fields and a
      whole core count. */
  function ParseRequestWithCores(j: Json): Option<(Analysis.InferCnvRequest, int)> {
    var r := ParseRequest(j);
    var c := if j.Obj? then NumField(j.fields, "cores") else None;
    if r.Some? && c.Some? && c.value == c.value.Floor as real then Some((r.value, c.value.Floor))
    else None
  }

  /** The request body names each field once. */
  lemma BodyKeysDistinct(st: TumorState)
    ensures NoDup(Keys(RequestBody(st).fields))
  {
  }

  /** The paths of the request body read back as sent. */
  lemma BodyPathFields(st: TumorState)
    ensures StrField(RequestBody(st).fields, "input_path") == Some(st.inputPath)
    ensures StrField(RequestBody(st).fields, "output_dir") == Some(st.outputDir)
  {
    var f := RequestBody(st).fields;
    BodyKeysDistinct(st);
    LookupAt(f, 0);
    LookupAt(f, 1);
  }

  /** The run name and reference key of the request body read back as sent. */
  lemma BodyNameFields(st: TumorState)
    ensures StrField(RequestBody(st).fields, "name") == Some(st.name)
    ensures StrField(RequestBody(st).fields, "reference_key") == Some(st.referenceKey)
  {
    var f := RequestBody(st).fields;
    BodyKeysDistinct(st);
    LookupAt(f, 2);
    LookupAt(f, 3);
  }

  /** The reference categories and gene file of the request body read back as sent. */
  lemma BodyReferenceFields(st: TumorState)
    ensures StrsField(RequestBody(st).fields, "reference_cat") == Some(st.referenceCat)
    ensures StrField(RequestBody(st).fields, "gtf_path") == Some(st.gtfPath)
  {
    var f := RequestBody(st).fields;
    BodyKeysDistinct(st);
    LookupAt(f, 4);
    LookupAt(f, 5);
    TextsOfStrList(st.referenceCat);
  }

  /** The numbers of the request body read back as sent. */
  lemma BodyNumberFields(st: TumorState)
    ensures NumField(RequestBody(st).fields, "cnv_threshold") == Some(st.cnvThreshold)
    ensures NumField(RequestBody(st).fields, "cores") == Some(st.cores as real)
  {
    var f := RequestBody(st).fields;
    BodyKeysDistinct(st);
    LookupAt(f, 6);
    LookupAt(f, 7);
  }

  /** The back end reads every form field it declares back as the form
      holds it. */
  lemma RequestRoundTrip(st: TumorState)
    ensures ParseRequest(RequestBody(st)) ==
      Some(Analysis.InferCnvRequest(st.inputPath, st.name, st.outputDir, st.referenceKey,
                                    st.gtfPath, st.referenceCat, st.cnvThreshold))
  {
    BodyPathFields(st);
    BodyNameFields(st);
    BodyReferenceFields(st);
    BodyNumberFields(st);
  }

  /** As written, the "CPU cores" field has no effect: every core count
      gives the same request, and inferCNV's `autoResolution` always runs on
      4 CPUs. */
  lemma CoresNotReceived(st: TumorState, n: int)
    ensures ParseRequest(RequestBody(st.(cores := n))) == ParseRequest(RequestBody(st))
    ensures ParseRequest(RequestBody(st)).Some?
    ensures Analysis.EndpointRun(ParseRequest(RequestBody(st)).value).cpus == 4
  {
    RequestRoundTrip(st);
    RequestRoundTrip(st.(cores := n));
  }

  /** As evidently meant, the form's core count reaches `autoResolution`,
      together with the rest of the request. */
  lemma CoresReachInferCnv(st: TumorState)
    ensures var r := ParseRequestWithCores(RequestBody(st));
      && r.Some? && r.value.1 == st.cores && Some(r.value.0) == ParseRequest(RequestBody(st))
      && Analysis.EndpointRunWithCores(r.value.0, r.value.1).cpus == st.cores
  {
    RequestRoundTrip(st);
    BodyNumberFields(st);
  }

  /** Whatever categories are chosen, even none, the back end receives a
      list and so calls inferCNV with a reference category argument; the
      reference key is dropped only when it is empty. */
  lemma FormCallsWithCategories(st: TumorState)
    ensures var call := Analysis.InferCnvCallFor(Some(st.referenceKey), Analysis.CatList(st.referenceCat));
      call == Analysis.WithCategory(if st.referenceKey == "" then None else Some(st.referenceKey),
                                    Analysis.CatList(st.referenceCat))
  {
  }

  /** A finished run shows the response `data` and appends an output named
      after the form's name field, as written without an `input`. */
  function CompletedAsWritten(layout: Layout.LayoutState, st: TumorState, id: int, data: Json): (r: Layout.LayoutState)
    ensures |r.outputs| == |layout.outputs| + 1
    ensures r.outputs[..|layout.outputs|] == layout.outputs
    ensures r.outputs[|layout.outputs|] == Layout.FormOutputAsWritten(id, st.name, data)
    ensures r.output == Some(Layout.ObjectAsOutput(data)) && !r.viewInput
  {
    Layout.RunCompleted(layout, data, Layout.FormOutputAsWritten(id, st.name, data))
  }

  /** As written, opening the output of a finished run shows no input, even
      when the run was started on a listed upload. */
  lemma CompletedOutputShowsNoInput(layout: Layout.LayoutState, st: TumorState, id: int, data: Json)
    ensures var r := CompletedAsWritten(layout, st, id, data);
      Layout.SelectOutput(r, r.outputs[|layout.outputs|]).upload.None?
  {
    var r := CompletedAsWritten(layout, st, id, data);
    Layout.FormOutputFindsNoUpload(r, id, st.name, data);
  }

  /** A finished run as evidently intended: the response is shown as
      before, and the appended output also records the input path the run
      was started on. */
  function Completed(layout: Layout.LayoutState, st: TumorState, id: int, data: Json): (r: Layout.LayoutState)
    ensures |r.outputs| == |layout.outputs| + 1
    ensures r.outputs[..|layout.outputs|] == layout.outputs
    ensures r.outputs[|layout.outputs|] == Layout.FormOutput(id, st.name, data, st.inputPath)
    ensures r.output == Some(Layout.ObjectAsOutput(data))
    ensures r.uploads == layout.uploads && !r.viewInput
  {
    Layout.RunCompleted(layout, data, Layout.FormOutput(id, st.name, data, st.inputPath))
  }

  /** A run started from the form as it opens on a listed upload yields an
      output that shows that upload again when opened. */
  lemma CompletedFindsItsUpload(layout: Layout.LayoutState, u: Layout.Upload, id: int, data: Json)
    requires u in layout.uploads
    requires forall i, j :: 0 <= i < j < |layout.uploads| ==>
               layout.uploads[i].summary.path != layout.uploads[j].summary.path
    ensures var st := InitialState(Some(u.summary));
      var r := Completed(layout, st, id, data);
      Layout.SelectOutput(r, r.outputs[|layout.outputs|]).upload == Some(u)
  {
    var st := InitialState(Some(u.summary));
    var r := Completed(layout, st, id, data);
    Layout.FormOutputFindsItsUpload(r, u, id, st.name, data);
  }
}
