/** The application shell: the list of uploaded data files, the list of
    outputs, and which upload or output is currently shown.

    Uploading sends the picked path to the back end, which answers with the
    summary of the file; the model takes that answer to be `summarize_h5ad`
    of the path, so the file system is the same abstract `Disk`. */
module Layout {

  import opened Wrappers
  import opened Seqs
  import opened Text
  import opened Json
  import opened Summary

  /** An output, read as the properties the layout and the dashboard use:
      `id`, `name`, `data` and `input`, the path of the data it was computed
      from. A missing property (`undefined`) reads as `Null`; nothing here
      tells the two apart, since `===` against a text fails for both. */
  datatype Output = Output(id: Json, name: Json, data: Json, input: Json)

  datatype Upload = Upload(id: real, name: string, summary: H5adSummary, outputs: seq<Output>)

  datatype LayoutState = LayoutState(
    uploads: seq<Upload>,
    outputs: seq<Output>,
    upload: Option<Upload>,
    output: Option<Output>,
    viewInput: bool)

  /** What one press of "Upload File" did. */
  datatype UploadEffect =
    /** The dialog was cancelled; nothing was sent. */
    | Cancelled
    /** A file of that name is already listed; nothing was sent. */
    | AlreadyUploaded
    /** The back end could not summarise the file. */
    | Failed(error: SummaryError)
    /** The file was summarised and added. */
    | Added

  /** The names of the uploads, in list order. */
  function UploadNames(uploads: seq<Upload>): (r: seq<string>)
    ensures |r| == |uploads|
    ensures forall i :: 0 <= i < |uploads| ==> r[i] == uploads[i].name
  {
    seq(|uploads|, i requires 0 <= i < |uploads| => uploads[i].name)
  }

  /** `handleUploadClick`: `picked` is what the file dialog returned (`None`
      or the empty text when it was cancelled), `disk` what the back end
      finds at that path, and `freshId` the random id of a new upload. */
  function HandleUpload(st: LayoutState, picked: Option<string>, disk: Disk, freshId: real)
    : (r: (LayoutState, UploadEffect))
    ensures r.1 == Cancelled <==> picked.None? || picked.value == ""
    ensures r.1 == AlreadyUploaded <==>
      picked.Some? && picked.value != "" && BaseName(picked.value) in UploadNames(st.uploads)
    ensures r.1 != Added ==> r.0 == st
    ensures r.1 == Added <==>
      picked.Some? && picked.value != "" && BaseName(picked.value) !in UploadNames(st.uploads) &&
      SummarizeH5ad(Some(picked.value), None, disk).Ok?
    ensures r.1 == Added ==>
      && SummarizeH5ad(Some(picked.value), None, disk).Ok?
      && var u := Upload(freshId, BaseName(picked.value), SummarizeH5ad(Some(picked.value), None, disk).value, []);
         r.0 == st.(uploads := [u] + st.uploads, upload := Some(u))
  {
    if picked.None? || picked.value == "" then (st, Cancelled)
    else
      var fileName := BaseName(picked.value);
      if fileName in UploadNames(st.uploads) then (st, AlreadyUploaded)
      else
        match SummarizeH5ad(Some(picked.value), None, disk)
        case Err(e) => (st, Failed(e))
        case Ok(summary) =>
          var u := Upload(freshId, fileName, summary, []);
          (st.(uploads := [u] + st.uploads, upload := Some(u)), Added)
  }

  /** The names in the upload list stay distinct. */
  lemma HandleUploadKeepsNamesDistinct(st: LayoutState, picked: Option<string>, disk: Disk, freshId: real)
    requires NoDup(UploadNames(st.uploads))
    ensures NoDup(UploadNames(HandleUpload(st, picked, disk, freshId).0.uploads))
  {
    var r := HandleUpload(st, picked, disk, freshId);
    if r.1 == Added {
      var u := r.0.uploads[0];
      assert r.0.uploads == [u] + st.uploads && u.name == BaseName(picked.value);
      PrependKeepsNamesDistinct(u, st.uploads);
    }
  }

  lemma PrependKeepsNamesDistinct(u: Upload, uploads: seq<Upload>)
    requires NoDup(UploadNames(uploads)) && u.name !in UploadNames(uploads)
    ensures NoDup(UploadNames([u] + uploads))
  {
    var names := UploadNames([u] + uploads);
    assert names == [u.name] + UploadNames(uploads);
  }

  /** Uploading the same file twice adds it once: the second attempt is
      refused and changes nothing. */
  lemma UploadTwice(st: LayoutState, path: string, disk: Disk, id1: real, id2: real)
    requires HandleUpload(st, Some(path), disk, id1).1 == Added
    ensures var st1 := HandleUpload(st, Some(path), disk, id1).0;
      HandleUpload(st1, Some(path), disk, id2) == (st1, AlreadyUploaded)
  {
    var st1 := HandleUpload(st, Some(path), disk, id1).0;
    assert UploadNames(st1.uploads)[0] == BaseName(path);
  }

  /** Clicking an upload shows it as the input, with no output open. */
  function SelectUpload(st: LayoutState, u: Upload): (r: LayoutState)
    ensures r.upload == Some(u) && r.output.None? && r.viewInput
    ensures r.uploads == st.uploads && r.outputs == st.outputs
  {
    st.(upload := Some(u), output := None, viewInput := true)
  }

  /** `uploads.find(u => u.summary.path === path) ?? null`; a summary path
      is a text, so it never equals `undefined` or any other value. */
  function FindUpload(uploads: seq<Upload>, path: Json): (r: Option<Upload>)
    ensures r.None? <==> forall i :: 0 <= i < |uploads| ==> Str(uploads[i].summary.path) != path
    ensures r.Some? ==> exists i :: 0 <= i < |uploads| && uploads[i] == r.value && Str(r.value.summary.path) == path &&
                                    forall j :: 0 <= j < i ==> Str(uploads[j].summary.path) != path
  {
    if |uploads| == 0 then None
    else if Str(uploads[0].summary.path) == path then Some(uploads[0])
    else
      var r := FindUpload(uploads[1..], path);
      assert forall i :: 1 <= i < |uploads| ==> uploads[i] == uploads[1..][i - 1];
      r
  }

  /** Clicking an output shows it, together with the upload it was computed
      from, if that upload is still listed. */
  function SelectOutput(st: LayoutState, o: Output): (r: LayoutState)
    ensures r.output == Some(o) && !r.viewInput
    ensures r.uploads == st.uploads && r.outputs == st.outputs
    ensures r.upload.None? <==> forall u :: u in st.uploads ==> Str(u.summary.path) != o.input
    ensures r.upload.Some? ==> r.upload.value in st.uploads && Str(r.upload.value.summary.path) == o.input
  {
    st.(output := Some(o), upload := FindUpload(st.uploads, o.input), viewInput := false)
  }

  /** When the listed uploads have distinct paths, opening an output selects
      the very upload whose summary path is the output's input. */
  lemma SelectOutputFindsItsInput(st: LayoutState, o: Output, u: Upload)
    requires u in st.uploads && o.input == Str(u.summary.path)
    requires forall i, j :: 0 <= i < j < |st.uploads| ==> st.uploads[i].summary.path != st.uploads[j].summary.path
    ensures SelectOutput(st, o).upload == Some(u)
  {
    var r := FindUpload(st.uploads, o.input);
    var k :| 0 <= k < |st.uploads| && st.uploads[k] == u;
    var i :| 0 <= i < |st.uploads| && st.uploads[i] == r.value && Str(r.value.summary.path) == o.input &&
             forall j :: 0 <= j < i ==> Str(st.uploads[j].summary.path) != o.input;
  }

  /** A freshly uploaded file is recorded under the resolved path the back
      end reports, so an output computed from that path finds it. */
  lemma UploadThenSelectOutput(st: LayoutState, path: string, disk: Disk, id: real, o: Output)
    requires HandleUpload(st, Some(path), disk, id).1 == Added
    requires o.input == Str(disk.resolved)
    ensures var st1 := HandleUpload(st, Some(path), disk, id).0;
      SelectOutput(st1, o).upload == Some(st1.uploads[0])
  {
  }

  // ---------------------------------------------------------------------
  // Finished runs

  /** The body of a finished run's response (`Response` in
      `backend/app/models.py`): its fields in declaration order; `type`
      is always given by the endpoints. */
  datatype RunResponse = RunResponse(
    name: string, inputPath: string, outputDir: string,
    data: seq<(string, Json)>, timestamp: string, kind: string)

  function ResponseJson(resp: RunResponse): Json {
    Obj(ResponseFields(Str(resp.name), Str(resp.inputPath), Str(resp.outputDir), Obj(resp.data),
                       Str(resp.timestamp), Str(resp.kind)))
  }

  /** `v[key]`, with `Null` for a missing property or a value that is not
      an object. */
  function Prop(v: Json, key: string): Json {
    if !v.Obj? then Null
    else match Lookup(v.fields, key)
      case Some(x) => x
      case None => Null
  }

  /** Any object stored as the selected output, read as one. */
  function ObjectAsOutput(v: Json): Output {
    Output(Prop(v, "id"), Prop(v, "name"), Prop(v, "data"), Prop(v, "input"))
  }

  /** The response of a run, shown as the selected output, has no `id` and
      no `input`; its `data` is the run's payload and its name the run's
      name. */
  lemma ShownResponse(resp: RunResponse)
    ensures ObjectAsOutput(ResponseJson(resp)) == Output(Null, Str(resp.name), Obj(resp.data), Null)
  {
    ResponseProps(Str(resp.name), Str(resp.inputPath), Str(resp.outputDir), Obj(resp.data),
                  Str(resp.timestamp), Str(resp.kind));
  }

  function ResponseFields(name: Json, inputPath: Json, outputDir: Json, data: Json, timestamp: Json, kind: Json)
    : seq<(string, Json)>
  {
    [("name", name), ("input_path", inputPath), ("output_dir", outputDir),
     ("data", data), ("timestamp", timestamp), ("type", kind)]
  }

  /** A response names each field once, and has no `id` or `input`. */
  lemma ResponseKeys(name: Json, inputPath: Json, outputDir: Json, data: Json, timestamp: Json, kind: Json)
    ensures var ks := Keys(ResponseFields(name, inputPath, outputDir, data, timestamp, kind));
      NoDup(ks) && "id" !in ks && "input" !in ks
  {
  }

  /** The properties of an object shaped like a response. */
  lemma ResponseProps(name: Json, inputPath: Json, outputDir: Json, data: Json, timestamp: Json, kind: Json)
    ensures var v := Obj(ResponseFields(name, inputPath, outputDir, data, timestamp, kind));
      Prop(v, "id") == Null && Prop(v, "name") == name && Prop(v, "data") == data && Prop(v, "input") == Null
  {
    var f := ResponseFields(name, inputPath, outputDir, data, timestamp, kind);
    ResponseKeys(name, inputPath, outputDir, data, timestamp, kind);
    LookupAt(f, 0);
    LookupAt(f, 3);
  }

  // ---------------------------------------------------------------------
  // Outputs added by the analysis forms

  /** The output a form appends after a successful run, as written: an id,
      a name and the response, but no `input`. */
  function FormOutputAsWritten(id: int, name: string, data: Json): (o: Output)
    ensures o.input == Null && o.name == Str(name) && o.data == data
  {
    Output(Num(id as real), Str(name), data, Null)
  }

  /** Opening an output that has no `input` never selects an upload,
      whatever uploads are listed. */
  lemma FormOutputFindsNoUpload(st: LayoutState, id: int, name: string, data: Json)
    ensures SelectOutput(st, FormOutputAsWritten(id, name, data)).upload.None?
  {
  }

  /** The output a form evidently means to append: one that records the
      input path the run was started on. */
  function FormOutput(id: int, name: string, data: Json, inputPath: string): (o: Output)
    ensures o.input == Str(inputPath) && o.name == Str(name) && o.data == data
  {
    Output(Num(id as real), Str(name), data, Str(inputPath))
  }

  /** A run started on the path of a listed upload (what a form's input
      field holds when the form is given that upload's summary) yields an
      output that selects that upload when opened. */
  lemma FormOutputFindsItsUpload(st: LayoutState, u: Upload, id: int, name: string, data: Json)
    requires u in st.uploads
    requires forall i, j :: 0 <= i < j < |st.uploads| ==> st.uploads[i].summary.path != st.uploads[j].summary.path
    ensures SelectOutput(st, FormOutput(id, name, data, u.summary.path)).upload == Some(u)
  {
    SelectOutputFindsItsInput(st, FormOutput(id, name, data, u.summary.path), u);
  }

  /** After a successful run: `onComplete(response)`, which is the layout's
      own `setOutput`, selects the response object itself; then
      `setOutputs([...outputs, o])` and `setViewInput(false)`. */
  function RunCompleted(st: LayoutState, response: Json, o: Output): (r: LayoutState)
    ensures |r.outputs| == |st.outputs| + 1
    ensures r.outputs[..|st.outputs|] == st.outputs && r.outputs[|st.outputs|] == o
    ensures r.output == Some(ObjectAsOutput(response))
    ensures r.uploads == st.uploads && r.upload == st.upload && !r.viewInput
  {
    st.(outputs := st.outputs + [o], output := Some(ObjectAsOutput(response)), viewInput := false)
  }

  /** Once a run finishes, the output shown is the back end's response: the
      run's payload under its name, with no `id` and no `input`, whatever
      output was shown before and whatever output is listed. */
  lemma RunCompletedShowsResponse(st: LayoutState, resp: RunResponse, o: Output)
    ensures var r := RunCompleted(st, ResponseJson(resp), o);
      && r.output == Some(Output(Null, Str(resp.name), Obj(resp.data), Null))
      && r.outputs[|st.outputs|] == o && r.upload == st.upload
  {
    ShownResponse(resp);
  }
}
