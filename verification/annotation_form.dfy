/** The annotation form: a flat state object edited field by field, and the
    request body built from it when a run starts.

    The state is a JavaScript object with a fixed set of keys, modelled as a
    record with one field per key; an edit replaces one field, as the
    spread `{ ...state, [k]: v }` does. The clock (`Date.now()`) and the working
    directory (`window.process?.cwd?.()`) are parameters. */
module AnnotationForm {

  import opened Wrappers
  import opened Seqs
  import opened Text
  import opened Json
  import opened Summary
  import Params
  import Annotate
  import Layout

  /** `keyof typeof state`: the fields of the form state. */
  datatype StateKey =
    | InputKey | OutputKey | NameKey | PreprocessedKey
    | MitoKey | MinGenesKey | MinCountsKey | HvgsKey | PcsKey | NeighKey | ResKey
    | SpeciesKey | CmKey | PlKey | ScaKey

  /** The form state; every field holds whatever its last edit stored. */
  datatype FormState = FormState(
    input: Json, output: Json, name: Json, preprocessed: Json,
    mito: Json, minGenes: Json, minCounts: Json, hvgs: Json, pcs: Json, neigh: Json, res: Json,
    species: Json, cm: Json, pl: Json, sca: Json)

  /** `state[k]`. */
  function Field(st: FormState, k: StateKey): Json {
    match k
    case InputKey => st.input
    case OutputKey => st.output
    case NameKey => st.name
    case PreprocessedKey => st.preprocessed
    case MitoKey => st.mito
    case MinGenesKey => st.minGenes
    case MinCountsKey => st.minCounts
    case HvgsKey => st.hvgs
    case PcsKey => st.pcs
    case NeighKey => st.neigh
    case ResKey => st.res
    case SpeciesKey => st.species
    case CmKey => st.cm
    case PlKey => st.pl
    case ScaKey => st.sca
  }

  /** A state is determined by its fields. */
  lemma FieldsDetermineState(a: FormState, b: FormState)
    requires forall k :: Field(a, k) == Field(b, k)
    ensures a == b
  {
    assert a.input == b.input by { assert Field(a, InputKey) == Field(b, InputKey); }
    assert a.output == b.output by { assert Field(a, OutputKey) == Field(b, OutputKey); }
    assert a.name == b.name by { assert Field(a, NameKey) == Field(b, NameKey); }
    assert a.preprocessed == b.preprocessed by { assert Field(a, PreprocessedKey) == Field(b, PreprocessedKey); }
    assert a.mito == b.mito by { assert Field(a, MitoKey) == Field(b, MitoKey); }
    assert a.minGenes == b.minGenes by { assert Field(a, MinGenesKey) == Field(b, MinGenesKey); }
    assert a.minCounts == b.minCounts by { assert Field(a, MinCountsKey) == Field(b, MinCountsKey); }
    assert a.hvgs == b.hvgs by { assert Field(a, HvgsKey) == Field(b, HvgsKey); }
    assert a.pcs == b.pcs by { assert Field(a, PcsKey) == Field(b, PcsKey); }
    assert a.neigh == b.neigh by { assert Field(a, NeighKey) == Field(b, NeighKey); }
    assert a.res == b.res by { assert Field(a, ResKey) == Field(b, ResKey); }
    assert a.species == b.species by { assert Field(a, SpeciesKey) == Field(b, SpeciesKey); }
    assert a.cm == b.cm by { assert Field(a, CmKey) == Field(b, CmKey); }
    assert a.pl == b.pl by { assert Field(a, PlKey) == Field(b, PlKey); }
    assert a.sca == b.sca by { assert Field(a, ScaKey) == Field(b, ScaKey); }
  }

  /** The fields edited through a checkbox. */
  predicate IsCheckbox(k: StateKey) {
    k in {PreprocessedKey, CmKey, PlKey, ScaKey}
  }

  /** The fields that hold text: the paths and the run name. */
  predicate IsText(k: StateKey) {
    k in {InputKey, OutputKey, NameKey}
  }

  /** The form as it opens for an upload's summary (or for none). */
  function InitialState(summary: Option<H5adSummary>): (st: FormState)
    ensures st.input == Str(if summary.Some? then summary.value.path else "")
    ensures st.output == Str("") && st.name == Str("") && st.preprocessed == Bool(false)
    ensures st.species == Str("human") && st.cm == Bool(true) && st.pl == Bool(false) && st.sca == Bool(false)
  {
    FormState(Str(if summary.Some? then summary.value.path else ""), Str(""), Str(""), Bool(false),
              Num(0.05), Num(250.0), Num(500.0), Num(2000.0), Num(50.0), Num(15.0), Num(0.8),
              Str("human"), Bool(true), Bool(false), Bool(false))
  }

  /** Every field a control writes holds the kind of value the control
      produces: text for the paths and the name, a flag for each checkbox. */
  predicate WellTyped(st: FormState) {
    && st.input.Str? && st.output.Str? && st.name.Str?
    && st.preprocessed.Bool? && st.cm.Bool? && st.pl.Bool? && st.sca.Bool?
  }

  lemma InitialStateWellTyped(summary: Option<H5adSummary>)
    ensures WellTyped(InitialState(summary))
  {
  }

  // ---------------------------------------------------------------------
  // Editing

  /** The part of a change event the handler reads. */
  datatype ChangeEvent = ChangeEvent(inputType: string, checked: bool, value: string)

  /** What `on(k)` stores: the `checked` flag of a checkbox, the `value`
      text of any other control (number fields included). */
  function EventValue(e: ChangeEvent): (v: Json)
    ensures e.inputType == "checkbox" ==> v == Bool(e.checked)
    ensures e.inputType != "checkbox" ==> v == Str(e.value)
  {
    if e.inputType == "checkbox" then Bool(e.checked) else Str(e.value)
  }

  /** `{ ...state, [k]: v }`: field `k` takes `v`. */
  function Set(st: FormState, k: StateKey, v: Json): (r: FormState)
    ensures Field(r, k) == v
    ensures forall k' :: k' != k ==> Field(r, k') == Field(st, k')
  {
    match k
    case InputKey => st.(input := v)
    case OutputKey => st.(output := v)
    case NameKey => st.(name := v)
    case PreprocessedKey => st.(preprocessed := v)
    case MitoKey => st.(mito := v)
    case MinGenesKey => st.(minGenes := v)
    case MinCountsKey => st.(minCounts := v)
    case HvgsKey => st.(hvgs := v)
    case PcsKey => st.(pcs := v)
    case NeighKey => st.(neigh := v)
    case ResKey => st.(res := v)
    case SpeciesKey => st.(species := v)
    case CmKey => st.(cm := v)
    case PlKey => st.(pl := v)
    case ScaKey => st.(sca := v)
  }

  /** `on(k)(e)`: field `k` takes the event's value, every other field
      stays as it was. */
  function On(st: FormState, k: StateKey, e: ChangeEvent): (r: FormState)
    ensures Field(r, k) == EventValue(e)
    ensures forall k' :: k' != k ==> Field(r, k') == Field(st, k')
  {
    Set(st, k, EventValue(e))
  }

  /** Editing a field twice keeps only the second edit, and edits of two
      different fields commute. */
  lemma OnTwice(st: FormState, k: StateKey, e1: ChangeEvent, e2: ChangeEvent)
    ensures On(On(st, k, e1), k, e2) == On(st, k, e2)
  {
    FieldsDetermineState(On(On(st, k, e1), k, e2), On(st, k, e2));
  }

  lemma OnCommutes(st: FormState, k1: StateKey, e1: ChangeEvent, k2: StateKey, e2: ChangeEvent)
    requires k1 != k2
    ensures On(On(st, k1, e1), k2, e2) == On(On(st, k2, e2), k1, e1)
  {
    FieldsDetermineState(On(On(st, k1, e1), k2, e2), On(On(st, k2, e2), k1, e1));
  }

  /** An edit through the control a field is shown with keeps the state
      well typed. */
  lemma OnKeepsWellTyped(st: FormState, k: StateKey, e: ChangeEvent)
    requires WellTyped(st)
    requires e.inputType == "checkbox" <==> IsCheckbox(k)
    ensures WellTyped(On(st, k, e))
  {
  }

  /** `pickOutputDir`: a cancelled dialog (`None` or an empty path) keeps
      the state. */
  function PickOutputDir(st: FormState, dir: Option<string>): (r: FormState)
    ensures dir.None? || dir.value == "" ==> r == st
    ensures dir.Some? && dir.value != "" ==>
      r.output == Str(dir.value) && forall k :: k != OutputKey ==> Field(r, k) == Field(st, k)
  {
    if dir.None? || dir.value == "" then st else Set(st, OutputKey, Str(dir.value))
  }

  // ---------------------------------------------------------------------
  // The request

  /** The preprocessing parameters the form sends, each with the state
      field it is read from; `mito_prefix` is fixed. */
  const ParamSources: seq<(string, StateKey)> :=
    [("mito_threshold", MitoKey), ("min_genes", MinGenesKey), ("min_counts", MinCountsKey),
     ("n_hvgs", HvgsKey), ("n_pcs", PcsKey), ("n_neighbors", NeighKey), ("resolution", ResKey)]

  function PreprocessingParams(st: FormState): (r: Params.Fields)
    ensures Keys(r) == Params.ParamKeys
    ensures r[0] == ("mito_prefix", Str("MT-"))
    ensures forall i :: 0 <= i < |ParamSources| ==> r[i + 1] == (ParamSources[i].0, Field(st, ParamSources[i].1))
  {
    [("mito_prefix", Str("MT-"))] +
    seq(|ParamSources|, i requires 0 <= i < |ParamSources| => (ParamSources[i].0, Field(st, ParamSources[i].1)))
  }

  /** Untouched, the form proposes exactly the back end's defaults. */
  lemma InitialParamsAreDefaults(summary: Option<H5adSummary>)
    ensures PreprocessingParams(InitialState(summary)) == Params.DefaultParams()
  {
    var st := InitialState(summary);
    var a := PreprocessingParams(st);
    var d := Params.DefaultParams();
    assert |a| == |d|;
    forall i | 0 <= i < |a| ensures a[i] == d[i] {
      if i > 0 {
        assert a[i] == (ParamSources[i - 1].0, Field(st, ParamSources[i - 1].1));
      }
    }
  }

  /** The form sends every whitelisted key, so the back end's merge runs
      preprocessing with the form's values and none of its own defaults. */
  lemma MergeKeepsFormParams(st: FormState)
    ensures Params.Merge(ToMap(PreprocessingParams(st))) == PreprocessingParams(st)
  {
    var pp := PreprocessingParams(st);
    Params.ParamKeysDistinct();
    Params.FieldsExtensional(Params.Merge(ToMap(pp)), pp);
  }

  /** The keys of the request body, in order. */
  const BodyKeys: seq<string> :=
    ["name", "input_path", "output_dir", "preprocessed", "preprocessing_params",
     "use_cellmarker", "use_panglao", "use_cancer_single_cell_atlas"]

  /** `'run_' + Date.now()`. */
  function DefaultName(now: nat): (r: string)
    ensures |r| > 4 && r[..4] == "run_" && NatToString(now) == r[4..]
  {
    "run_" + NatToString(now)
  }

  /** Runs started at different times get different default names: the
      name's digits read back as the time. */
  lemma DefaultNameInjective(a: nat, b: nat)
    ensures DefaultName(a) == DefaultName(b) <==> a == b
  {
    if DefaultName(a) == DefaultName(b) {
      assert NatToString(a) == NatToString(b);
      NatToStringRoundTrip(a);
      NatToStringRoundTrip(b);
    }
  }

  /** `` `${window.process?.cwd?.() ?? ''}/output` ``. */
  function DefaultOutputDir(cwd: Option<string>): (r: string)
    ensures EndsWith(r, "/output")
  {
    var r := cwd.GetOr("") + "/output";
    assert r[|r| - 7..] == "/output";
    r
  }

  /** The body of `runAnnotation`; `now` is the clock and `cwd` the working
      directory, if the page can see one. */
  function RequestBody(st: FormState, now: nat, cwd: Option<string>): (j: Json)
    ensures j.Obj? && Keys(j.fields) == BodyKeys
    ensures "species" !in Keys(j.fields)
  {
    Obj([("name", Or(st.name, Str(DefaultName(now)))),
         ("input_path", st.input),
         ("output_dir", Or(st.output, Str(DefaultOutputDir(cwd)))),
         ("preprocessed", st.preprocessed),
         ("preprocessing_params", Obj(PreprocessingParams(st))),
         ("use_cellmarker", st.cm),
         ("use_panglao", st.pl),
         ("use_cancer_single_cell_atlas", st.sca)])
  }

  /** The species is held in the form but never sent: changing it leaves
      the request as it was. */
  lemma SpeciesNotSent(st: FormState, e: ChangeEvent, now: nat, cwd: Option<string>)
    ensures RequestBody(On(st, SpeciesKey, e), now, cwd) == RequestBody(st, now, cwd)
  {
    var st' := On(st, SpeciesKey, e);
    assert forall i :: 0 <= i < |ParamSources| ==> ParamSources[i].1 != SpeciesKey;
    assert PreprocessingParams(st') == PreprocessingParams(st);
  }

  /** The run always has a name and an output directory: an empty field
      falls back to its default. */
  lemma RequestNamesTheRun(st: FormState, now: nat, cwd: Option<string>)
    ensures var f := RequestBody(st, now, cwd).fields;
      && f[0].1 == (if Truthy(st.name) then st.name else Str(DefaultName(now)))
      && Truthy(f[0].1)
      && f[2].1 == (if Truthy(st.output) then st.output else Str(DefaultOutputDir(cwd)))
      && Truthy(f[2].1)
  {
  }

  function TextOf(v: Json): string {
    if v.Str? then v.s else ""
  }

  function FlagOf(v: Json): bool {
    v.Bool? && v.b
  }

  /** How the back end reads the body into its request, or `None` when a
      field has the wrong kind. */
  function ParseRequest(j: Json): (r: Option<Annotate.Request>)
    ensures r.Some? ==> j.Obj?
  {
    if !j.Obj? || Keys(j.fields) != BodyKeys then None
    else
      var f := j.fields;
      if f[0].1.Str? && f[1].1.Str? && f[2].1.Str? && f[3].1.Bool? && f[4].1.Obj? &&
         f[5].1.Bool? && f[6].1.Bool? && f[7].1.Bool?
      then Some(Annotate.Request(f[0].1.s, f[1].1.s, f[2].1.s, f[3].1.b, ToMap(f[4].1.fields),
                                 Annotate.Toggles(f[5].1.b, f[6].1.b, f[7].1.b)))
      else None
  }

  /** A well-typed form yields a request the back end accepts, carrying
      the form's values. */
  lemma RequestOfWellTyped(st: FormState, now: nat, cwd: Option<string>)
    requires WellTyped(st)
    ensures var r := ParseRequest(RequestBody(st, now, cwd));
      && r.Some?
      && r.value.name == (if TextOf(st.name) != "" then TextOf(st.name) else DefaultName(now))
      && r.value.inputFile == TextOf(st.input)
      && r.value.preprocessed == FlagOf(st.preprocessed)
      && r.value.toggles == Annotate.Toggles(FlagOf(st.cm), FlagOf(st.pl), FlagOf(st.sca))
      && r.value.preprocessingParams == ToMap(PreprocessingParams(st))
  {
    var j := RequestBody(st, now, cwd);
    var f := j.fields;
    assert f[0].1 == Or(st.name, Str(DefaultName(now))) && f[1].1 == st.input && f[2].1.Str?;
    assert f[3].1 == st.preprocessed && f[4].1 == Obj(PreprocessingParams(st));
    assert f[5].1 == st.cm && f[6].1 == st.pl && f[7].1 == st.sca;
    ParseRequestOf(j);
  }

  /** What the back end reads from a body of the right shape. */
  lemma ParseRequestOf(j: Json)
    requires j.Obj? && Keys(j.fields) == BodyKeys
    requires j.fields[0].1.Str? && j.fields[1].1.Str? && j.fields[2].1.Str? && j.fields[3].1.Bool?
    requires j.fields[4].1.Obj? && j.fields[5].1.Bool? && j.fields[6].1.Bool? && j.fields[7].1.Bool?
    ensures var f := j.fields;
      ParseRequest(j) == Some(Annotate.Request(f[0].1.s, f[1].1.s, f[2].1.s, f[3].1.b, ToMap(f[4].1.fields),
                                               Annotate.Toggles(f[5].1.b, f[6].1.b, f[7].1.b)))
  {
  }

  /** Unless the data is marked preprocessed, the back end preprocesses
      with exactly the parameters the form shows. */
  lemma FormParamsReachPreprocessing(st: FormState, now: nat, cwd: Option<string>)
    requires WellTyped(st) && !FlagOf(st.preprocessed)
    ensures var r := ParseRequest(RequestBody(st, now, cwd));
      r.Some? && Annotate.RunParams(r.value) == PreprocessingParams(st)
  {
    RequestOfWellTyped(st, now, cwd);
    MergeKeepsFormParams(st);
  }

  // ---------------------------------------------------------------------
  // Completion

  /** As written: the response `data` is shown, and the output is listed
      under the raw name field, which is empty whenever the run took its
      default name, and without `input`. */
  function CompletedAsWritten(layout: Layout.LayoutState, st: FormState, id: int, data: Json): (r: Layout.LayoutState)
    ensures |r.outputs| == |layout.outputs| + 1
    ensures r.outputs[|layout.outputs|] == Layout.FormOutputAsWritten(id, TextOf(st.name), data)
    ensures r.output == Some(Layout.ObjectAsOutput(data)) && !r.viewInput
  {
    Layout.RunCompleted(layout, data, Layout.FormOutputAsWritten(id, TextOf(st.name), data))
  }

  /** A run started from the untouched form is named `run_<now>` on the back
      end but listed with an empty name. */
  lemma DefaultRunListedWithoutName(layout: Layout.LayoutState, summary: Option<H5adSummary>,
                                    id: int, data: Json, now: nat, cwd: Option<string>)
    ensures var st := InitialState(summary);
      && CompletedAsWritten(layout, st, id, data).outputs[|layout.outputs|].name == Str("")
      && ParseRequest(RequestBody(st, now, cwd)).value.name == DefaultName(now) != ""
  {
    InitialStateWellTyped(summary);
    RequestOfWellTyped(InitialState(summary), now, cwd);
  }

  /** The output as evidently meant: named as the run was named, and
      recording the input it was computed from; the response is shown as
      before. */
  function Completed(layout: Layout.LayoutState, st: FormState, id: int, data: Json, now: nat, cwd: Option<string>)
    : (r: Layout.LayoutState)
    ensures |r.outputs| == |layout.outputs| + 1
    ensures r.outputs[..|layout.outputs|] == layout.outputs
    ensures r.output == Some(Layout.ObjectAsOutput(data)) && !r.viewInput
  {
    var body := RequestBody(st, now, cwd).fields;
    Layout.RunCompleted(layout, data, Layout.FormOutput(id, TextOf(body[0].1), data, TextOf(body[1].1)))
  }

  /** The listed output carries the name the back end ran under, which is
      never empty, and the input path the run was started on. */
  lemma CompletedNamesTheRun(layout: Layout.LayoutState, st: FormState, id: int, data: Json, now: nat, cwd: Option<string>)
    requires WellTyped(st)
    ensures var o := Completed(layout, st, id, data, now, cwd).outputs[|layout.outputs|];
      var req := ParseRequest(RequestBody(st, now, cwd));
      && req.Some? && o.name == Str(req.value.name) && o.name != Str("")
      && o.input == Str(req.value.inputFile) && o.input == Str(TextOf(st.input))
  {
    RequestOfWellTyped(st, now, cwd);
  }
}
