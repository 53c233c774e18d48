/** The results dashboard of one output: its artefact files are collected
    from the output's data, grouped by extension into the left rail, and
    the selected one is previewed — images with a zoom, CSV files as a
    crude table, text files verbatim, fetched from the local back end. */
module Dashboard {

  import opened Wrappers
  import opened Seqs
  import opened Text
  import opened Uri
  import Analysis

  // ---------------------------------------------------------------------
  // Artefacts

  /** A field of an output's `data`: a list of file paths, or any value
      that is not an array (the summary object, a timestamp, ...). */
  datatype Field = Paths(paths: seq<string>) | NotArray

  /** The artefacts of the fields, in field order. */
  function FieldArtefacts(fields: seq<(string, Field)>): (r: seq<string>)
    ensures forall p :: p in r <==>
      exists i :: 0 <= i < |fields| && fields[i].1.Paths? && p in fields[i].1.paths
  {
    if |fields| == 0 then []
    else
      var init := fields[..|fields| - 1];
      var last := fields[|fields| - 1];
      var r0 := FieldArtefacts(init);
      assert forall i :: 0 <= i < |init| ==> init[i] == fields[i];
      if last.1.Paths? then r0 + last.1.paths else r0
  }

  /** `artefacts`: every array-valued field of the data, concatenated;
      nothing when the output has no data. */
  function Artefacts(data: Option<seq<(string, Field)>>): (r: seq<string>)
    ensures data.None? ==> r == []
    ensures data.Some? ==> forall p :: p in r <==>
      exists i :: 0 <= i < |data.value| && data.value[i].1.Paths? && p in data.value[i].1.paths
  {
    if data.None? then [] else FieldArtefacts(data.value)
  }

  /** The artefacts of two runs of fields are those of the first run
      followed by those of the second: the fields are read in order. */
  lemma {:induction false} FieldArtefactsAppend(a: seq<(string, Field)>, b: seq<(string, Field)>)
    ensures FieldArtefacts(a + b) == FieldArtefacts(a) + FieldArtefacts(b)
    decreases |b|
  {
    if |b| == 0 {
      assert a + b == a;
    } else {
      var b' := b[..|b| - 1];
      assert (a + b)[..|a + b| - 1] == a + b';
      FieldArtefactsAppend(a, b');
    }
  }

  /** Fields that are not arrays contribute nothing; a single array field
      contributes exactly its paths. */
  lemma FieldArtefactsSingle(key: string, f: Field)
    ensures FieldArtefacts([(key, f)]) == if f.Paths? then f.paths else []
  {
    assert [(key, f)][..0] == [];
  }

  // ---------------------------------------------------------------------
  // Grouping by extension

  datatype Kind = Png | Csv | Txt | Pkl

  function Suffix(k: Kind): string {
    match k
    case Png => ".png"
    case Csv => ".csv"
    case Txt => ".txt"
    case Pkl => ".pkl"
  }

  /** The test `/\.png$/i` and its siblings. */
  predicate IsOfKind(k: Kind, p: string) {
    EndsWithIgnoreCase(p, Suffix(k))
  }

  function OfKind(k: Kind): string -> bool {
    p => IsOfKind(k, p)
  }

  /** `imgs`, `csvs`, `txts`, `pkls`: the artefacts of one kind, in order. */
  function Classify(artefacts: seq<string>, k: Kind): (r: seq<string>)
    ensures forall p :: p in r <==> p in artefacts && IsOfKind(k, p)
  {
    Filter(artefacts, OfKind(k))
  }

  lemma ClassifyIsSubseq(artefacts: seq<string>, k: Kind)
    ensures IsSubseq(Classify(artefacts, k), artefacts)
  {
    FilterIsSubseq(artefacts, OfKind(k));
  }

  lemma SuffixIsLower(k: Kind)
    ensures Lower(Suffix(k)) == Suffix(k)
  {
    var s := Suffix(k);
    assert forall i :: 0 <= i < |s| ==> !IsUpperAscii(s[i]);
  }

  /** No path has two of the four extensions. */
  lemma KindsExclusive(p: string, k1: Kind, k2: Kind)
    requires k1 != k2 && IsOfKind(k1, p)
    ensures !IsOfKind(k2, p)
  {
    SuffixIsLower(k1);
    SuffixIsLower(k2);
  }

  /** The four groups are pairwise disjoint. */
  lemma GroupsDisjoint(artefacts: seq<string>, k1: Kind, k2: Kind)
    requires k1 != k2
    ensures forall p :: p in Classify(artefacts, k1) ==> p !in Classify(artefacts, k2)
  {
    forall p | p in Classify(artefacts, k1) ensures p !in Classify(artefacts, k2) {
      KindsExclusive(p, k1, k2);
    }
  }

  function GroupSizes(artefacts: seq<string>): nat {
    |Classify(artefacts, Png)| + |Classify(artefacts, Csv)| +
    |Classify(artefacts, Txt)| + |Classify(artefacts, Pkl)|
  }

  /** Every artefact lands in at most one group, so the groups together
      never list more entries than there are artefacts. */
  lemma {:induction false} GroupsFit(artefacts: seq<string>)
    ensures GroupSizes(artefacts) <= |artefacts|
    decreases |artefacts|
  {
    if |artefacts| > 0 {
      var p := artefacts[|artefacts| - 1];
      GroupsFit(artefacts[..|artefacts| - 1]);
      if IsOfKind(Png, p) {
        KindsExclusive(p, Png, Csv); KindsExclusive(p, Png, Txt); KindsExclusive(p, Png, Pkl);
      } else if IsOfKind(Csv, p) {
        KindsExclusive(p, Csv, Txt); KindsExclusive(p, Csv, Pkl);
      } else if IsOfKind(Txt, p) {
        KindsExclusive(p, Txt, Pkl);
      }
    }
  }

  /** The files listed in the left rail: images, then CSV and text files,
      then the "Other" group of pickles. */
  function RailFiles(artefacts: seq<string>): (r: seq<string>)
    ensures forall p :: p in r <==> p in artefacts && exists k :: IsOfKind(k, p)
  {
    var r := Classify(artefacts, Png) + Classify(artefacts, Csv) +
             Classify(artefacts, Txt) + Classify(artefacts, Pkl);
    assert forall p, k :: IsOfKind(k, p) ==> IsOfKind(Png, p) || IsOfKind(Csv, p) || IsOfKind(Txt, p) || IsOfKind(Pkl, p);
    r
  }

  /** The label of a rail entry: the text after the last `/`. */
  function DisplayName(p: string): (r: string)
    ensures '/' !in r
    ensures EndsWith(p, r)
  {
    var r := BaseName(p);
    assert forall i :: 0 <= i < |r| ==> r[i] != '/';
    r
  }

  /** A detailed dot plot of a CellPhoneDB run is listed under its own file
      name. */
  lemma DisplayNameOfDotPlot(req: Analysis.CpdbRequest, cellType: string, timestamp: string)
    requires '/' !in req.name && '/' !in cellType && '/' !in timestamp
    ensures DisplayName(Analysis.DotPlotFig(req, cellType, timestamp).path) ==
            Analysis.DotPlotFile(req.name, cellType, timestamp)
  {
    BaseNameOfJoin(req.outputDir, Analysis.DotPlotFile(req.name, cellType, timestamp));
  }

  // ---------------------------------------------------------------------
  // Selection

  /** What is selected: nothing, the data summary, or one artefact path. */
  datatype Selection = NothingSelected | SummarySelected | FileSelected(path: string)

  /** `!selected`: nothing, or the empty path. */
  predicate Blank(sel: Selection) {
    sel.NothingSelected? || (sel.FileSelected? && sel.path == "")
  }

  /** The selection a dashboard opens with: the first image, if any. */
  function InitialSelection(imgs: seq<string>): (r: Selection)
    ensures r.NothingSelected? <==> |imgs| == 0
    ensures r.FileSelected? ==> r.path in imgs
  {
    if |imgs| > 0 then FileSelected(imgs[0]) else NothingSelected
  }

  /** A dashboard opens on the first artefact that is an image, and on
      nothing when no artefact is one. */
  lemma InitialSelectionIsFirstImage(artefacts: seq<string>)
    ensures var sel := InitialSelection(Classify(artefacts, Png));
      && (sel.NothingSelected? <==> forall p :: p in artefacts ==> !IsOfKind(Png, p))
      && (sel.FileSelected? ==>
            exists i :: 0 <= i < |artefacts| && artefacts[i] == sel.path && IsOfKind(Png, artefacts[i]) &&
              forall j :: 0 <= j < i ==> !IsOfKind(Png, artefacts[j]))
  {
    var imgs := Classify(artefacts, Png);
    if |imgs| > 0 {
      FilterFirst(artefacts, OfKind(Png));
      assert imgs[0] in imgs;
    }
  }

  // ---------------------------------------------------------------------
  // Zoom

  /** The zoom in quarter steps: `q` stands for a scale of `q / 4`, so the
      initial scale 1 is 4 and the bounds 0.25 and 4 are 1 and 16. */
  const InitialZoom: int := 4
  const MinZoom: int := 1
  const MaxZoom: int := 16

  function RealMin(a: real, b: real): real {
    if a <= b then a else b
  }

  function RealMax(a: real, b: real): real {
    if a >= b then a else b
  }

  function Scale(q: int): real {
    q as real / 4.0
  }

  /** "+": `Math.min(z + 0.25, 4)`. */
  function ZoomIn(q: int): (r: int)
    ensures Scale(r) == RealMin(Scale(q) + 0.25, 4.0)
  {
    if q + 1 <= MaxZoom then q + 1 else MaxZoom
  }

  /** "−": `Math.max(z - 0.25, 0.25)`. */
  function ZoomOut(q: int): (r: int)
    ensures Scale(r) == RealMax(Scale(q) - 0.25, 0.25)
  {
    if q - 1 >= MinZoom then q - 1 else MinZoom
  }

  predicate ZoomInRange(q: int) {
    MinZoom <= q <= MaxZoom
  }

  /** The zoom after a series of clicks, `true` for "+" and `false` for "−". */
  function Zoomed(q: int, clicks: seq<bool>): int
    decreases |clicks|
  {
    if |clicks| == 0 then q
    else Zoomed(if clicks[0] then ZoomIn(q) else ZoomOut(q), clicks[1..])
  }

  /** Whatever the clicks, the scale stays between 0.25 and 4. */
  lemma {:induction false} ZoomStaysInRange(q: int, clicks: seq<bool>)
    requires ZoomInRange(q)
    ensures ZoomInRange(Zoomed(q, clicks))
    ensures 0.25 <= Scale(Zoomed(q, clicks)) <= 4.0
    decreases |clicks|
  {
    if |clicks| > 0 {
      ZoomStaysInRange(if clicks[0] then ZoomIn(q) else ZoomOut(q), clicks[1..]);
    }
  }

  lemma InitialZoomInRange()
    ensures ZoomInRange(InitialZoom) && Scale(InitialZoom) == 1.0
  {
  }

  /** Below the top, "−" undoes "+"; above the bottom, "+" undoes "−". */
  lemma ZoomInverse(q: int)
    ensures MinZoom <= q < MaxZoom ==> ZoomOut(ZoomIn(q)) == q
    ensures MinZoom < q <= MaxZoom ==> ZoomIn(ZoomOut(q)) == q
  {
  }

  // ---------------------------------------------------------------------
  // Back-end requests

  const Backend: string := "http://127.0.0.1:8000/"

  /** `preview_img?path=...`: the image source for a path. */
  function ImageUrl(p: string): (r: string)
    ensures r == Backend + "preview_img?path=" + EncodeURIComponent(p)
  {
    Backend + "preview_img?path=" + EncodeURIComponent(p)
  }

  /** The text the dashboard fetches for a selection: CSV and text files
      only, each from its own endpoint, with the path URL-encoded. */
  function PreviewRequest(sel: Selection): (r: Option<string>)
    ensures r.Some? <==> sel.FileSelected? && (IsOfKind(Csv, sel.path) || IsOfKind(Txt, sel.path))
  {
    if Blank(sel) || !sel.FileSelected? then None
    else if IsOfKind(Csv, sel.path) then Some(Backend + "preview_csv?path=" + EncodeURIComponent(sel.path))
    else if IsOfKind(Txt, sel.path) then Some(Backend + "preview_txt?path=" + EncodeURIComponent(sel.path))
    else None
  }

  /** A URL of the form `<back end><route><query>`, the route ending in
      `?path=`, whose query decodes to `p` and holds no URL delimiter. */
  ghost predicate CarriesPath(url: string, route: string, p: string) {
    exists q :: url == Backend + route + q && PercentDecode(q) == Some(p) &&
      forall i :: 0 <= i < |q| ==> EncodedChar(q[i])
  }

  /** The URL encoding of `p` as the query makes the URL carry `p`. */
  lemma EncodedQuery(url: string, route: string, p: string)
    requires url == Backend + route + EncodeURIComponent(p)
    ensures CarriesPath(url, route, p)
  {
    var q := EncodeURIComponent(p);
    DecodeEncode(p);
    EncodedChars(p);
    assert url == Backend + route + q && PercentDecode(q) == Some(p) &&
      forall i :: 0 <= i < |q| ==> EncodedChar(q[i]);
  }

  /** A CSV selection is fetched from `preview_csv`, and its `path`
      parameter decodes back to the selected path. */
  lemma CsvRequestCarriesPath(p: string)
    requires IsOfKind(Csv, p)
    ensures PreviewRequest(FileSelected(p)).Some?
    ensures CarriesPath(PreviewRequest(FileSelected(p)).value, "preview_csv?path=", p)
  {
    assert p != "" by {
      SuffixIsLower(Csv);
    }
    var url := Backend + "preview_csv?path=" + EncodeURIComponent(p);
    assert PreviewRequest(FileSelected(p)) == Some(url);
    EncodedQuery(url, "preview_csv?path=", p);
  }

  /** A text selection is fetched from `preview_txt`, and its `path`
      parameter decodes back to the selected path. */
  lemma TxtRequestCarriesPath(p: string)
    requires IsOfKind(Txt, p)
    ensures PreviewRequest(FileSelected(p)).Some?
    ensures CarriesPath(PreviewRequest(FileSelected(p)).value, "preview_txt?path=", p)
  {
    KindsExclusive(p, Txt, Csv);
    assert p != "" by {
      SuffixIsLower(Txt);
    }
    var url := Backend + "preview_txt?path=" + EncodeURIComponent(p);
    assert PreviewRequest(FileSelected(p)) == Some(url);
    EncodedQuery(url, "preview_txt?path=", p);
  }

  lemma ImageUrlCarriesPath(p: string)
    ensures CarriesPath(ImageUrl(p), "preview_img?path=", p)
  {
    EncodedQuery(ImageUrl(p), "preview_img?path=", p);
  }

  // ---------------------------------------------------------------------
  // CSV preview

  const PreviewLines: nat := 20

  datatype CsvTable = CsvTable(headers: seq<string>, body: seq<seq<string>>)

  /** The first 20 lines of the fetched text, each split on every comma;
      the first is the header and the rest the body. Quotes are not
      interpreted. */
  function CsvPreview(text: string): (t: CsvTable)
    ensures var lines := SplitLines(text);
      && |t.body| == (if |lines| < PreviewLines then |lines| else PreviewLines) - 1
      && Join(t.headers, ',') == lines[0]
      && (forall i :: 0 <= i < |t.body| ==> Join(t.body[i], ',') == lines[i + 1])
      && (forall j :: 0 <= j < |t.headers| ==> ',' !in t.headers[j])
  {
    var lines := SplitLines(text);
    var shown := if |lines| < PreviewLines then lines else lines[..PreviewLines];
    var rows := seq(|shown|, i requires 0 <= i < |shown| => Split(shown[i], ','));
    JoinSplit(lines[0], ',');
    assert forall i :: 0 <= i < |shown| ==> Join(rows[i], ',') == shown[i] by {
      forall i | 0 <= i < |shown| ensures Join(rows[i], ',') == shown[i] {
        JoinSplit(shown[i], ',');
      }
    }
    CsvTable(rows[0], rows[1..])
  }

  /** A text of one line is all header. */
  lemma OneLineHeaders(text: string)
    requires '\n' !in text
    ensures CsvPreview(text).headers == Split(text, ',')
  {
    SplitWithout(text, '\n');
    assert SplitLines(text) == [text];
  }

  /** A comma always cuts the field it sits in: on a line `a,b` whose parts
      hold no comma, the headers are `a` and `b`, whatever quotes they carry. */
  lemma CommaCutsField(a: string, b: string)
    requires ',' !in a && ',' !in b && '\n' !in a && '\n' !in b
    ensures CsvPreview(a + [','] + b).headers == [a, b]
  {
    var text := a + [','] + b;
    assert '\n' !in text;
    OneLineHeaders(text);
    SplitAround(a, b, ',');
    SplitWithout(b, ',');
  }

  /** A quoted field holding a comma is cut in two. */
  lemma CsvPreviewIgnoresQuotes()
    ensures CsvPreview("\"a,b\"").headers == ["\"a", "b\""]
  {
    assert "\"a,b\"" == "\"a" + [','] + "b\"";
    CommaCutsField("\"a", "b\"");
  }

  // ---------------------------------------------------------------------
  // The preview pane

  datatype Pane =
    | Prompt
    | SummaryPane
    | ImagePane(url: string, scale: real)
    | TablePane(table: CsvTable)
    | TextPane(text: string)
    | NoPreview

  /** What the preview area shows for a selection, given the text fetched
      for it and the zoom. */
  function RenderPreview(sel: Selection, textContent: string, zoom: int): (r: Pane)
    ensures r == Prompt <==> Blank(sel)
    ensures r == SummaryPane <==> sel == SummarySelected
    ensures r.TextPane? ==> r.text != ""
  {
    if Blank(sel) then Prompt
    else if sel.SummarySelected? then SummaryPane
    else if IsOfKind(Png, sel.path) then ImagePane(ImageUrl(sel.path), Scale(zoom))
    else if IsOfKind(Csv, sel.path) then TablePane(CsvPreview(textContent))
    else if IsOfKind(Txt, sel.path) then TextPane(if textContent != "" then textContent else "Loading\U{2026}")
    else NoPreview
  }

  /** The zoom chips float over the preview only while an image is selected. */
  predicate ZoomControlsShown(sel: Selection) {
    sel.FileSelected? && sel.path != "" && IsOfKind(Png, sel.path)
  }

  /** The preview of a selected file, branch by branch. */
  lemma RenderFile(p: string, textContent: string, zoom: int)
    requires p != ""
    ensures var pane := RenderPreview(FileSelected(p), textContent, zoom);
      && (IsOfKind(Png, p) ==> pane == ImagePane(ImageUrl(p), Scale(zoom)))
      && (!IsOfKind(Png, p) && IsOfKind(Csv, p) ==> pane == TablePane(CsvPreview(textContent)))
      && (!IsOfKind(Png, p) && !IsOfKind(Csv, p) && IsOfKind(Txt, p) ==> pane.TextPane?)
      && (!IsOfKind(Png, p) && !IsOfKind(Csv, p) && !IsOfKind(Txt, p) ==> pane == NoPreview)
      && (ZoomControlsShown(FileSelected(p)) <==> IsOfKind(Png, p))
  {
  }

  /** A file of a known kind is previewed the way its kind promises. */
  lemma PreviewByKind(p: string, k: Kind, textContent: string, zoom: int)
    requires IsOfKind(k, p)
    ensures var pane := RenderPreview(FileSelected(p), textContent, zoom);
      && (IsOfKind(Png, p) <==> pane.ImagePane?)
      && (pane.ImagePane? ==> pane.url == ImageUrl(p) && pane.scale == Scale(zoom))
      && (IsOfKind(Csv, p) <==> pane.TablePane?)
      && (pane.TablePane? ==> pane.table == CsvPreview(textContent))
      && (IsOfKind(Txt, p) <==> pane.TextPane?)
      && (IsOfKind(Pkl, p) <==> pane == NoPreview)
      && (ZoomControlsShown(FileSelected(p)) <==> pane.ImagePane?)
  {
    assert p != "" by {
      SuffixIsLower(k);
    }
    RenderFile(p, textContent, zoom);
    if IsOfKind(Png, p) {
      KindsExclusive(p, Png, Csv); KindsExclusive(p, Png, Txt); KindsExclusive(p, Png, Pkl);
    } else if IsOfKind(Csv, p) {
      KindsExclusive(p, Csv, Txt); KindsExclusive(p, Csv, Pkl);
    } else if IsOfKind(Txt, p) {
      KindsExclusive(p, Txt, Pkl);
    }
  }

  /** A file picked from the rail is previewed the way its group promises:
      images at the current zoom, CSV files as a table of the fetched text,
      text files verbatim, pickles not at all; zoom controls only for images. */
  lemma RailPreview(artefacts: seq<string>, p: string, textContent: string, zoom: int)
    requires p in RailFiles(artefacts)
    ensures var pane := RenderPreview(FileSelected(p), textContent, zoom);
      && (p in Classify(artefacts, Png) <==> pane.ImagePane?)
      && (pane.ImagePane? ==> pane.url == ImageUrl(p) && pane.scale == Scale(zoom))
      && (p in Classify(artefacts, Csv) <==> pane.TablePane?)
      && (pane.TablePane? ==> pane.table == CsvPreview(textContent))
      && (p in Classify(artefacts, Txt) <==> pane.TextPane?)
      && (p in Classify(artefacts, Pkl) <==> pane == NoPreview)
      && (ZoomControlsShown(FileSelected(p)) <==> pane.ImagePane?)
  {
    var k :| IsOfKind(k, p);
    assert p in artefacts;
    PreviewByKind(p, k, textContent, zoom);
  }
}
