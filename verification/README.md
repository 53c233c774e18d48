# CellPilot rules in Dafny

CellPilot is a desktop application with a Python back end for single-cell
RNA-sequencing analysis. Every scientific step, such as quality control,
clustering, SCSA annotation, CellPhoneDB, inferCNV and drug response, is a
call into an outside library. This project models the rules the repository
applies around those calls, and proves properties of them:

- **Annotation run** (`backend/app/annotate.py` and the older root
  `annotate.py`):
  - the merge of caller parameters over the fixed defaults;
  - the choice of input reader by file suffix;
  - the fixed database order, and which database becomes `cell_type`;
  - the counts-aware legend labels;
  - marker de-duplication and the per-(marker, cell type) expression table;
  - the cell-type count table and its file name.
- **Analysis runs** (`backend/app/analysis.py`):
  - the label-column check;
  - the normalisation and case-insensitive matching of the requested cell
    types;
  - the figures a CellPhoneDB run reports;
  - the empty-text-to-`None` rule for inferCNV arguments;
  - the strict threshold that labels cells as tumour, and the tumour subset;
  - the `louvain` check and the list of drug-response files.
- **The data summary** (`backend/app/utils.py`, `summarize_h5ad`): an
  AnnData object is abstract. It has obs columns as label sequences, var
  names, the keys of `uns` and `obsm`, and preview records. The model
  covers:
  - the failures;
  - the `preprocessed` flag;
  - the previews;
  - the Leiden cluster list;
  - which label columns are counted.
- **The React front end**:
  - the upload list and the upload/output selection of the layout;
  - the `category::label` multi-select of the CellPhoneDB form;
  - artefact classification, zoom, preview requests and the CSV preview of
    the results dashboard;
  - the header, sorted label counts and tables of the summary preview;
  - the state and request body of the tumour-prediction and annotation
    forms.

Each module follows one source file or concept. The shared modules are:

- `Wrappers`: `Option` and `Result`;
- `Text`: ASCII lower-casing, `strip`, `split`, path names and decimal
  digits;
- `Seqs`: filtering, flattening, de-duplication and subsequences;
- `Sorting`: a stable sort into descending order;
- `Json`: values, and objects as ordered field lists;
- `AnnData`: the abstract object, and pandas `value_counts`.

The source modules are `Params`, `Annotate`, `Markers`, `LegacyAnnotate`,
`Analysis`, `Summary`, `Layout`, `CellInteraction`, `Uri` (the
`encodeURIComponent` of the preview URLs), `Dashboard`, `SummaryPreview`,
`TumorForm` and `AnnotationForm`.

Effects are not performed; they appear as data:

- A run is modelled as the list of directories and files it creates, in
  order, and the parts of its result that the properties below speak
  about; "## Left out" lists the rest. Library calls appear as opaque
  steps.
- Clocks, the file system, the file dialog and random ids are parameters:
  - a `timestamp` text or a `now` number;
  - a `Disk` record saying what a path resolves to, whether it exists, and
    what it contains;
  - the picked path;
  - a fresh id.
- The label columns a database writes are given per database.
- "Expressed above the threshold" is a predicate parameter.

Where a comment and the code disagree, the model follows the code:

- The comment at `CellInteractionOptions.tsx:51` says an empty selection
  means "all". The back end instead draws no dot plot for it
  (`CellInteraction.EmptySelectionPlotsNothing`).
- The tumour form always sends `reference_cat` as a list. The back end only
  compares it with `None` and `""`, so even an empty list is passed on as a
  reference category (`TumorForm.FormCallsWithCategories`).

## Model

| member | source | states |
|---|---|---|
| Params.DefaultParams | backend/app/annotate.py:22-32 | the default parameters have exactly the eight whitelisted keys, in order |
| Params.ParamKeysDistinct | backend/app/annotate.py:62 | the whitelist names no key twice |
| Params.SetField | backend/app/annotate.py:64 | after `final_params[key] = v`, looking up the key gives v |
| Params.SetFieldOthersAll | backend/app/annotate.py:64 | assigning one key leaves the lookup of every other key unchanged |
| Params.SetFieldKeys | backend/app/annotate.py:64 | assigning an existing key keeps the key order; a new key is appended at the end |
| Params.MergeLoopSpec | backend/app/annotate.py:62-64 | after the loop, a whitelisted key the caller gave holds the caller's value; every other key keeps its value |
| Params.Merge | backend/app/annotate.py:61-64 | the merged parameters have exactly the default keys; each takes the caller's value when given, and the default otherwise |
| Params.MergeIgnoresExtraKeys | backend/app/annotate.py:62-64 | caller keys outside the whitelist have no effect on the merge |
| Params.MergeDefaults | backend/app/annotate.py:61-64 | merging the defaults themselves gives the defaults |
| Params.MergeEmpty | backend/app/annotate.py:61-64 | merging no caller parameters gives the defaults |
| Params.MergeIdempotent | backend/app/annotate.py:61-64 | merging a merged result again changes nothing |
| Annotate.ChooseReader | backend/app/annotate.py:159-170 | an unsupported suffix raises `UnsupportedFormat` naming the file; `.mtx` reads the file's directory; the other readers read the file itself |
| Annotate.ChooseReaderByExtension | backend/app/annotate.py:159-170 | the chain of suffix tests equals a lookup of the file's final extension |
| Annotate.UsedAnnotators | backend/app/annotate.py:183-197 | the used databases are exactly the enabled ones, none twice |
| Annotate.UsedAnnotatorsInOrder | backend/app/annotate.py:183-197 | the used databases follow the fixed order cellmarker, panglaodb, cancersea |
| Annotate.DbTypesOfUsed | backend/app/annotate.py:183-197 | the reported names are distinct, and a name is reported exactly when its database ran |
| Annotate.AfterAnnotators | backend/app/annotate.py:233-265 | each database that ran leaves its labels under its own column name |
| Annotate.AfterAnnotatorsColumns | backend/app/annotate.py:249-265 | the annotators add exactly their label and `_cnt` columns; the other columns are unchanged |
| Annotate.ColumnNamesDistinct | backend/app/annotate.py:264 | two databases never share a column name, and no `_cnt` column collides with a database column |
| Annotate.CopyCellType | backend/app/annotate.py:199-201 | with no database, obs is unchanged; otherwise `cell_type` is a copy of the first used database's column, and every other column is unchanged |
| Annotate.Annotate | backend/app/annotate.py:159-231 | a run fails exactly when the suffix is unsupported, and then with the file name and before any directory is made |
| Annotate.AnnotatePreprocessing | backend/app/annotate.py:180-182 | preprocessing runs exactly when the input is not marked preprocessed, with the merged parameters; the returned parameters are `{}` when it is skipped |
| Annotate.PreprocessStep | backend/app/annotate.py:175-182 | the output directory comes first, and preprocessing is the only step of its kind |
| Annotate.AnnotateRunsEnabledDatabases | backend/app/annotate.py:183-197 | the SCSA steps are the enabled databases in the fixed order, each once |
| Annotate.AnnotatorStepsOfUsed | backend/app/annotate.py:183-197 | a database's SCSA step occurs exactly when the database is used |
| Annotate.AnnotateCellType | backend/app/annotate.py:199-201 | `cell_type` holds the first enabled database's labels; with none enabled it is not written |
| Annotate.AnnotateWritesFile | backend/app/annotate.py:214-223 | the file written and reported is `annotated_<name>_<timestamp>.h5ad` in the output directory, and the summary describes it |
| Markers.KeptMarkers | backend/app/annotate.py:321-329 | the kept markers are distinct, and are exactly the dictionary's markers that are in `var_names` |
| Markers.UniqueMarkers | backend/app/annotate.py:321-329 | the two loops compute exactly the kept markers: no duplicate, and only dictionary markers present in `var_names` |
| Markers.KeptMarkersFirstOccurrenceOrder | backend/app/annotate.py:326-329 | kept markers appear in the order of their first occurrence in the flattened dictionary |
| Markers.FirstOwner | backend/app/annotate.py:364 | finds the first dictionary entry whose list holds the marker, or none when no list does |
| Markers.KeptMarkersHaveOwner | backend/app/annotate.py:321-364 | every kept marker has an owner, so "Marker For" names the first cell type listing it and is never "Unknown" |
| Markers.ExpressingCount | backend/app/annotate.py:352 | the expressing cells of a type never outnumber the cells of that type |
| Markers.Percentage | backend/app/annotate.py:355 | the percentage lies in [0, 100]; it is 0 for an empty type and otherwise expressing/total·100 |
| Markers.Row | backend/app/annotate.py:346-365 | a row's total is the number of cells of its type; expressing ≤ total; the percentage is in [0, 100] and 0 when there are no cells |
| Markers.ProductLength | backend/app/annotate.py:338-346 | the nested loops yield \|markers\|·\|cell types\| rows |
| Markers.ProductAt | backend/app/annotate.py:338-346 | row i·\|cell types\| + j pairs marker i with cell type j (marker-major) |
| Markers.ProductMember | backend/app/annotate.py:338-358 | every row comes from some (marker, cell type) pair |
| Markers.MarkerExpressionTableLayout | backend/app/annotate.py:332-365 | the table has one row per (kept marker, distinct cell type), marker-major |
| Markers.MarkerExpressionTableRows | backend/app/annotate.py:346-365 | every row's type has cells; expressing ≤ total; the percentage is the exact share; the marker is in `var_names`; "Marker For" is its first owner |
| Markers.RowInTable | backend/app/annotate.py:355-364 | a row for a present cell type carries the exact share and the marker's owner |
| Markers.PercentageShare | backend/app/annotate.py:355 | a percentage times the total equals expressing·100 |
| AnnData.Tallies | backend/app/utils.py:31 | one tally per given distinct label, carrying that label's number of occurrences |
| AnnData.ValueCountsCounts | backend/app/utils.py:31 | every tally of `value_counts` counts its label exactly, and is positive |
| AnnData.ValueCountsCategories | backend/app/utils.py:31 | a label occurs in the column exactly when it has a tally |
| AnnData.ValueCountsSpec | backend/app/utils.py:31 | `value_counts` has one tally per distinct label, with its count, in non-increasing count order |
| AnnData.TotalPermutation | annotate.py:282 | the sum of the counts does not depend on their order |
| AnnData.ValueCountsTotal | annotate.py:280-282 | the counts of `value_counts` add up to the number of cells |
| AnnData.TalliesTotal | annotate.py:280-282 | the tallies of a set of distinct labels add up to the cells carrying one of them |
| AnnData.CountedName | backend/app/annotate.py:263 | the legend name `cat (n=k)` is more than five characters longer than the category |
| AnnData.CountedNameInjective | backend/app/annotate.py:263 | different categories or counts never share a legend name |
| AnnData.CountedLabelsKeepEquality | backend/app/annotate.py:265 | two cells share a relabelled value exactly when they shared the original label |
| LegacyAnnotate.Share | annotate.py:283 | a share times the total equals count·100 |
| LegacyAnnotate.CelltypeCountsSpec | annotate.py:279-284 | one row per distinct label, none twice, each with its exact positive count, in non-increasing count order |
| LegacyAnnotate.CountRowsSorted | annotate.py:284 | the rows are already in non-increasing count order, so a stable sort keeps them |
| LegacyAnnotate.CelltypeCountsTotal | annotate.py:282 | the `Count` column adds up to the number of cells |
| LegacyAnnotate.CelltypeCountsPercentTotal | annotate.py:282-283 | for a non-empty column the unrounded percentages add up to 100 |
| LegacyAnnotate.PercentTotalHundred | annotate.py:282-283 | shares taken over the true total add up to exactly 100 |
| LegacyAnnotate.CountsFileNamePrefix | annotate.py:285-288 | the file name starts with `<name>_` exactly when a name is given; the rest is `<db>_celltype_counts_<timestamp>.csv` |
| LegacyAnnotate.CountsFilesDistinct | annotate.py:285-288 | count tables of different databases never share a file name |
| LegacyAnnotate.DbTypeInitials | annotate.py:171-181 | the three database names differ in their first two letters |
| LegacyAnnotate.LegacyAnnotate | annotate.py:147-160 | a run fails exactly on an unsupported suffix, with the file name; otherwise it uses the reader the suffix selects |
| LegacyAnnotate.LegacyObsColumns | annotate.py:168-182 | the databases add exactly their own columns, and other columns keep their labels |
| LegacyAnnotate.DatabaseStepsAnnotate | annotate.py:202-244 | every step a database contributes is an annotation step of a used database |
| LegacyAnnotate.LegacyPreprocessing | annotate.py:160-167 | the output directory comes first; preprocessing runs exactly when the input is not preprocessed, with the merged parameters |
| LegacyAnnotate.LegacyDatabaseOrder | annotate.py:168-182 | the annotation steps are the enabled databases in the fixed order |
| LegacyAnnotate.LegacyKeepsCellType | annotate.py:168-200 | this older run writes no `cell_type` column: it is present afterwards exactly when it was before |
| LegacyAnnotate.LegacyTables | annotate.py:279-362 | every count table has one row per distinct label, is sorted, and adds up to the cells; every marker row has expressing ≤ total and a percentage in [0, 100] |
| Analysis.NormaliseRequest | backend/app/analysis.py:143 | the normalised request is no longer than the input, and holds only non-blank, already-stripped names |
| Analysis.NormaliseRequestMembers | backend/app/analysis.py:143 | a name is in the request exactly when it is the non-empty stripped form of some entry |
| Analysis.NormaliseRequestSource | backend/app/analysis.py:143 | every kept name comes from an input entry that strips to it |
| Analysis.NormaliseRequestKeeps | backend/app/analysis.py:143 | every non-blank entry is kept, stripped |
| Analysis.NormaliseRequestDropsBlanks | backend/app/analysis.py:143 | a whitespace-only entry never survives |
| Analysis.NormaliseRequestIdempotent | backend/app/analysis.py:143 | normalising twice is normalising once |
| Analysis.SelectCellTypes | backend/app/analysis.py:145-154 | empty request: nothing; a single "all" in any case: every cell type in obs order; otherwise a subsequence of the cell types; an error naming the column exactly when a non-empty request matches nothing |
| Analysis.SelectCellTypesMatches | backend/app/analysis.py:151-152 | outside the special cases, a cell type is selected exactly when its lower-case form is a requested lower-case name |
| Analysis.SelectCellTypesIgnoresCase | backend/app/analysis.py:149-152 | lower-casing the request first changes nothing |
| Analysis.SelectCellTypesDistinct | backend/app/analysis.py:145-152 | the selection names no cell type twice |
| Analysis.CpdbFigs | backend/app/analysis.py:139-206 | the heatmap first, then one dot plot per selected type, then the network plot(s) |
| Analysis.RunCellPhoneDb | backend/app/analysis.py:52-59 | a missing label column fails after the output directory is made but before any temp or meta file |
| Analysis.CellPhoneDbFigures | backend/app/analysis.py:139-215 | a successful run reports the heatmap, the dot plots of exactly the selected types and the network plots |
| Analysis.CellPhoneDbEmptyRequest | backend/app/analysis.py:147-156 | an empty request succeeds without any dot plot |
| Analysis.CellPhoneDbNoMatch | backend/app/analysis.py:151-154 | a request naming no existing cell type fails, after the heatmap was written |
| Analysis.DotPlotFilesDistinct | backend/app/analysis.py:169 | distinct cell types get distinct dot-plot file names |
| Analysis.PathJoinInjective | backend/app/analysis.py:169 | joining two different names of the same kind onto one directory gives different paths |
| Analysis.DotPlotFileAbsolute | backend/app/analysis.py:169 | a dot-plot file name is absolute exactly when the run name is |
| Analysis.DotPlotFigsDistinct | backend/app/analysis.py:169-170 | distinct cell types get distinct dot-plot paths |
| Analysis.DotPlotPathsDistinct | backend/app/analysis.py:156-170 | no dot plot of a run overwrites another |
| Analysis.InferCnvCallFor | backend/app/analysis.py:220-247 | the key is normalised; the call passes `reference_cat` exactly when one was given and is not the empty text |
| Analysis.InferCnvEmptyIsNone | backend/app/analysis.py:220-247 | an empty text and a missing argument make the same call; no call ever carries an empty key or category |
| Analysis.CnvStatusStrict | backend/app/analysis.py:259-262 | a cell is "tumor" exactly when its score is strictly above the threshold, "normal" otherwise; a score equal to the threshold is normal |
| Analysis.TumorCells | backend/app/analysis.py:269-270 | the kept cells are exactly the "tumor" cells, in increasing order |
| Analysis.TumorCellsByScore | backend/app/analysis.py:259-270 | a cell is kept exactly when its score is strictly above the threshold |
| Analysis.TumorCellsAntitone | backend/app/analysis.py:259-270 | raising the threshold never adds a tumour cell |
| Analysis.LouvainCounted | backend/app/analysis.py:298-306 | fails exactly when `louvain` is missing; otherwise each cell gets its cluster's counted legend name |
| Analysis.DrugResponseArtefacts | backend/app/analysis.py:295-297 | the listed files that are drug-response outputs are reported with the caption "Drug Response", and nothing else is |
| Summary.Head | backend/app/utils.py:20-29 | `head(5)`: the first min(5, n) records |
| Summary.LabelCountsOf | backend/app/utils.py:33-37 | each reported column is a label column the object has, with its value counts; every such column is reported |
| Summary.LabelCountsOfOrder | backend/app/utils.py:35 | reported columns keep the fixed order |
| Summary.SummarizeH5ad | backend/app/utils.py:7-51 | no input: error; a missing path: `FileNotFoundError` with the resolved path; success implies a `leiden` column; the path reads "None" when only the object is given; previews hold at most 5 rows |
| Summary.SummarizeSucceeds | backend/app/utils.py:8-49 | a summary exists exactly when an input is given, a given path exists and `leiden` is present; otherwise `clusters` is unbound |
| Summary.SummarizeChecksPathFirst | backend/app/utils.py:10-13 | a given path is checked even when the object is given too |
| Summary.SummarizeFields | backend/app/utils.py:20-49 | shape and columns are the object's; previews are prefixes of its records; clusters are absent exactly when there are no cells |
| Summary.SummarizeClusters | backend/app/utils.py:30-32 | one cluster entry per distinct Leiden label, with its exact positive count, none twice, adding up to the cells |
| Summary.SummarizePreprocessed | backend/app/utils.py:46 | `preprocessed` holds exactly when `neighbors` is in uns, `X_pca` in obsm, or `leiden` is a column; so every successful summary says preprocessed |
| Summary.LabelCountsColumns | backend/app/utils.py:33-37 | the counted columns are exactly the label columns present, each once, in order; none exactly when none is present |
| Summary.LabelCountsMembers | backend/app/utils.py:35-37 | a column is counted exactly when it is requested and present |
| Summary.LabelColumnsDistinct | backend/app/utils.py:33 | the three label columns are distinct |
| Summary.SummarizeLabelCounts | backend/app/utils.py:33-50 | `label_counts` is absent exactly when no label column is present; otherwise it holds those columns, in order, each with its value counts |
| Layout.HandleUpload | my-app/src/renderer/layouts/PrimaryLayout.tsx:29-54 | cancelled exactly when no path was picked; refused exactly when the base name is listed; in both cases and on failure nothing changes; on success the new upload with no outputs is prepended and selected |
| Layout.HandleUploadKeepsNamesDistinct | my-app/src/renderer/layouts/PrimaryLayout.tsx:33-48 | upload names stay distinct |
| Layout.UploadTwice | my-app/src/renderer/layouts/PrimaryLayout.tsx:34-37 | uploading the same file again is refused and changes nothing |
| Layout.SelectUpload | my-app/src/renderer/layouts/PrimaryLayout.tsx:71-75 | clicking an upload selects it, clears the output and shows the input; the lists are unchanged |
| Layout.FindUpload | my-app/src/renderer/layouts/PrimaryLayout.tsx:105 | `find` returns the first upload whose summary path equals the output's input, or none |
| Layout.SelectOutput | my-app/src/renderer/layouts/PrimaryLayout.tsx:103-107 | clicking an output selects it and hides the input; the upload is a listed one with the output's input path, or none when no upload has it |
| Layout.SelectOutputFindsItsInput | my-app/src/renderer/layouts/PrimaryLayout.tsx:105 | with distinct paths, opening an output selects the very upload it was computed from |
| Layout.UploadThenSelectOutput | my-app/src/renderer/layouts/PrimaryLayout.tsx:47-105 | a fresh upload is found by an output whose input is its resolved path |
| Layout.RunCompleted | my-app/src/renderer/forms/TumorPredictionOptions.tsx:49-51 | a finished run shows the response object as the selected output, appends exactly one output at the end, keeps the rest, and hides the input |
| Layout.ShownResponse | backend/app/models.py:43-49 | the response of a run, read as an output, has no `id` and no `input`; its `data` is the run's payload and its `name` the run's name |
| Layout.RunCompletedShowsResponse | my-app/src/renderer/forms/TumorPredictionOptions.tsx:49-51 | after a run, the output shown is the run's payload under its name, whatever was shown before, while the listed output is the one the form appends |
| Layout.FormOutputFindsNoUpload | my-app/src/renderer/forms/TumorPredictionOptions.tsx:50 | opening such an output never selects an upload |
| Layout.FormOutputFindsItsUpload | my-app/src/renderer/layouts/PrimaryLayout.tsx:103-107 | the corrected output of a run on a listed upload selects that upload when opened |
| CellInteraction.DecodeWithoutSeparator | my-app/src/renderer/forms/CellInteractionOptions.tsx:174 | an id without `::` decodes to `undefined` |
| CellInteraction.EncodeFirstSeparator | my-app/src/renderer/forms/CellInteractionOptions.tsx:173 | in the id of a decodable category, the first `::` ends the category |
| CellInteraction.DecodeEncode | my-app/src/renderer/forms/CellInteractionOptions.tsx:173-174 | decoding an encoded id gives the label up to its own first `::` |
| CellInteraction.DecodeEncodeRoundTrip | my-app/src/renderer/forms/CellInteractionOptions.tsx:173-174 | `decode(encode(cat, ct)) == ct` when neither contains `::` and the category does not end in `:` |
| CellInteraction.EncodeAmbiguous | my-app/src/renderer/forms/CellInteractionOptions.tsx:173-174 | a category ending in `:` gives the same id as another pair, which decodes to the wrong label |
| CellInteraction.LabelColumnsDecodable | my-app/src/renderer/forms/CellInteractionOptions.tsx:176-178 | the categories the back end reports can all be decoded |
| CellInteraction.AllIdsMembers | my-app/src/renderer/forms/CellInteractionOptions.tsx:180-186 | an id is offered exactly when it encodes a label of a category |
| CellInteraction.ToggleId | my-app/src/renderer/forms/CellInteractionOptions.tsx:195-201 | the toggled id's membership flips; every other id's membership is unchanged |
| CellInteraction.ToggleIdKeepsOthers | my-app/src/renderer/forms/CellInteractionOptions.tsx:195-201 | other ids keep their order; an added id goes at the end |
| CellInteraction.ToggleIdTwice | my-app/src/renderer/forms/CellInteractionOptions.tsx:195-201 | toggling an unselected id twice restores the selection |
| CellInteraction.ToggleWholeCategory | my-app/src/renderer/forms/CellInteractionOptions.tsx:203-214 | all selected: the category's ids are removed; otherwise: they are all added |
| CellInteraction.ToggleWholeCategoryAdds | my-app/src/renderer/forms/CellInteractionOptions.tsx:212 | the previous selection is an unchanged prefix, and nothing is duplicated |
| CellInteraction.ToggleWholeCategoryRemoves | my-app/src/renderer/forms/CellInteractionOptions.tsx:211 | the rest keeps its order; an empty category leaves the selection unchanged |
| CellInteraction.ToggleWholeCategoryTwice | my-app/src/renderer/forms/CellInteractionOptions.tsx:203-214 | selecting then deselecting a wholly unselected category restores the selection |
| CellInteraction.ToggleIdWellFormed | my-app/src/renderer/forms/CellInteractionOptions.tsx:195-201 | toggling an offered id keeps the selection offered and free of duplicates |
| CellInteraction.ToggleWholeCategoryWellFormed | my-app/src/renderer/forms/CellInteractionOptions.tsx:203-214 | toggling a category keeps the selection offered and free of duplicates |
| CellInteraction.ApplyPresetWellFormed | my-app/src/renderer/forms/CellInteractionOptions.tsx:216-217 | presets give well-formed selections |
| CellInteraction.RenderValueAll | my-app/src/renderer/forms/CellInteractionOptions.tsx:220-224 | for a well-formed selection, the length test shows "All" exactly when every id is selected, and "None" exactly when none is |
| CellInteraction.DecodeOffered | my-app/src/renderer/forms/CellInteractionOptions.tsx:174-186 | an offered id decodes to a label of its category |
| CellInteraction.PlotColumnNamesOfOffered | my-app/src/renderer/forms/CellInteractionOptions.tsx:42 | every label sent is one the summary offers |
| CellInteraction.EmptySelectionPlotsNothing | my-app/src/renderer/forms/CellInteractionOptions.tsx:42-51 | an empty selection is sent as `[]`, and the back end then draws no dot plot |
| Uri.Utf8 | my-app/src/renderer/components/AnnotationResultsDashBoard.tsx:41-42 | a character encodes to one to four bytes |
| Uri.Utf8Decodes | my-app/src/renderer/components/AnnotationResultsDashBoard.tsx:41-42 | the UTF-8 bytes of a character announce their own length, continue with continuation bytes, and decode back to the character |
| Uri.EncodeURIComponent | my-app/src/renderer/components/AnnotationResultsDashBoard.tsx:41-42 | the encoding is never shorter than the text |
| Uri.EncodedChars | my-app/src/renderer/components/AnnotationResultsDashBoard.tsx:41-42 | the encoding holds only unreserved characters, `%` and hex digits |
| Uri.EncodeUnreserved | my-app/src/renderer/components/AnnotationResultsDashBoard.tsx:41-42 | a text of unreserved characters is unchanged |
| Uri.EncodeAppend | my-app/src/renderer/components/AnnotationResultsDashBoard.tsx:41-42 | the encoding works character by character |
| Uri.ReadEscapedBytes | my-app/src/renderer/components/AnnotationResultsDashBoard.tsx:41-42 | the `%XX` escapes of a byte list read back as that list |
| Uri.DecodeEncode | my-app/src/renderer/components/AnnotationResultsDashBoard.tsx:41-42 | percent-decoding the encoding gives the text back |
| Uri.EncodeInjective | my-app/src/renderer/components/AnnotationResultsDashBoard.tsx:41-42 | different paths never encode alike |
| Dashboard.FieldArtefacts | my-app/src/renderer/components/AnnotationResultsDashBoard.tsx:20-22 | a path is an artefact exactly when some array field holds it |
| Dashboard.Artefacts | my-app/src/renderer/components/AnnotationResultsDashBoard.tsx:17-24 | no data: no artefacts; otherwise exactly the paths of the array fields |
| Dashboard.FieldArtefactsAppend | my-app/src/renderer/components/AnnotationResultsDashBoard.tsx:20-22 | artefacts are concatenated in field order |
| Dashboard.FieldArtefactsSingle | my-app/src/renderer/components/AnnotationResultsDashBoard.tsx:21 | a non-array field contributes nothing; an array field contributes its items |
| Dashboard.Classify | my-app/src/renderer/components/AnnotationResultsDashBoard.tsx:27-30 | a group holds exactly the artefacts whose suffix matches, ignoring case |
| Dashboard.ClassifyIsSubseq | my-app/src/renderer/components/AnnotationResultsDashBoard.tsx:27-30 | each group keeps artefact order |
| Dashboard.KindsExclusive | my-app/src/renderer/components/AnnotationResultsDashBoard.tsx:27-30 | no path has two of the four extensions |
| Dashboard.GroupsDisjoint | my-app/src/renderer/components/AnnotationResultsDashBoard.tsx:27-30 | the four groups are pairwise disjoint |
| Dashboard.GroupsFit | my-app/src/renderer/components/AnnotationResultsDashBoard.tsx:27-30 | together the groups are no larger than the artefact list |
| Dashboard.RailFiles | my-app/src/renderer/components/AnnotationResultsDashBoard.tsx:160-208 | the rail lists exactly the artefacts that belong to some group |
| Dashboard.DisplayName | my-app/src/renderer/components/AnnotationResultsDashBoard.tsx:171-202 | the shown name is a suffix of the path with no `/` |
| Dashboard.DisplayNameOfDotPlot | my-app/src/renderer/components/AnnotationResultsDashBoard.tsx:171 | a CellPhoneDB dot plot is listed under its own file name |
| Dashboard.InitialSelection | my-app/src/renderer/components/AnnotationResultsDashBoard.tsx:32 | nothing is selected exactly when there is no image; otherwise an image is |
| Dashboard.InitialSelectionIsFirstImage | my-app/src/renderer/components/AnnotationResultsDashBoard.tsx:27-32 | the dashboard opens on the first artefact that is a PNG |
| Dashboard.ZoomIn | my-app/src/renderer/components/AnnotationResultsDashBoard.tsx:233 | "+" scales to min(z + 0.25, 4) |
| Dashboard.ZoomOut | my-app/src/renderer/components/AnnotationResultsDashBoard.tsx:234 | "−" scales to max(z − 0.25, 0.25) |
| Dashboard.ZoomStaysInRange | my-app/src/renderer/components/AnnotationResultsDashBoard.tsx:233-234 | after any clicks the scale stays in [0.25, 4] |
| Dashboard.InitialZoomInRange | my-app/src/renderer/components/AnnotationResultsDashBoard.tsx:34 | zoom starts at 1, within the range |
| Dashboard.ZoomInverse | my-app/src/renderer/components/AnnotationResultsDashBoard.tsx:233-234 | below the top "−" undoes "+", and above the bottom "+" undoes "−" |
| Dashboard.PreviewRequest | my-app/src/renderer/components/AnnotationResultsDashBoard.tsx:37-49 | text is fetched exactly for a CSV or TXT selection |
| Dashboard.EncodedQuery | my-app/src/renderer/components/AnnotationResultsDashBoard.tsx:41-42 | an encoded query decodes back to the selected path |
| Dashboard.CsvRequestCarriesPath | my-app/src/renderer/components/AnnotationResultsDashBoard.tsx:40-41 | a CSV selection fetches `preview_csv`, and the query carries its path |
| Dashboard.TxtRequestCarriesPath | my-app/src/renderer/components/AnnotationResultsDashBoard.tsx:40-42 | a TXT selection fetches `preview_txt`, and the query carries its path |
| Dashboard.ImageUrlCarriesPath | my-app/src/renderer/components/AnnotationResultsDashBoard.tsx:51-52 | the image URL carries its path |
| Dashboard.CsvPreview | my-app/src/renderer/components/AnnotationResultsDashBoard.tsx:92-94 | at most 20 lines; the headers are the first line split on commas; the body is at most the 19 following lines, each split |
| Dashboard.CommaCutsField | my-app/src/renderer/components/AnnotationResultsDashBoard.tsx:92 | on a one-line text `a,b` whose parts hold no comma, the headers are exactly `a` and `b`, quotes or not |
| Dashboard.CsvPreviewIgnoresQuotes | my-app/src/renderer/components/AnnotationResultsDashBoard.tsx:92 | a quoted field that holds a comma is cut in two |
| Dashboard.RenderPreview | my-app/src/renderer/components/AnnotationResultsDashBoard.tsx:57-127 | the prompt shows exactly when nothing is selected; the summary shows exactly when it is selected; a text pane is never blank |
| Dashboard.PreviewByKind | my-app/src/renderer/components/AnnotationResultsDashBoard.tsx:57-127 | a file of a known kind is previewed as its kind promises: images at the zoom, CSV as a table of the text, text files as text, pickles not at all; zoom chips only for images |
| Dashboard.RailPreview | my-app/src/renderer/components/AnnotationResultsDashBoard.tsx:57-127 | a file picked from the rail is previewed as its group promises; the zoom chips show exactly for images |
| SummaryPreview.Title | my-app/src/renderer/components/AdataSummaryPreview.tsx:99 | the title is a suffix of the path with no `/` or `\` |
| SummaryPreview.TitleOfJoin | my-app/src/renderer/components/AdataSummaryPreview.tsx:99 | the title of a joined path is the file name |
| SummaryPreview.CellsChipReadsBack | my-app/src/renderer/components/AdataSummaryPreview.tsx:101 | the cells chip's digits read back as the cell count |
| SummaryPreview.SortedLabelCounts | my-app/src/renderer/components/AdataSummaryPreview.tsx:58-78 | null stays null; otherwise the keys are the same, and each column is a permutation of its tallies in non-increasing count order |
| SummaryPreview.SortedLabelCountsStable | my-app/src/renderer/components/AdataSummaryPreview.tsx:73-75 | labels with equal counts keep their order |
| SummaryPreview.SortingSummaryCountsIsIdentity | my-app/src/renderer/components/AdataSummaryPreview.tsx:58-78 | the counts of a back-end summary are already sorted, so sorting changes nothing |
| SummaryPreview.SectionOf | my-app/src/renderer/components/AdataSummaryPreview.tsx:116-125 | one chip per label |
| SummaryPreview.Sections | my-app/src/renderer/components/AdataSummaryPreview.tsx:113-130 | no counts: no sections; otherwise one per column |
| SummaryPreview.SectionsOfSummary | my-app/src/renderer/components/AdataSummaryPreview.tsx:113-130 | every label of a present label column gets a chip with its count |
| SummaryPreview.ChipOfLabel | my-app/src/renderer/components/AdataSummaryPreview.tsx:116-125 | a section is titled after its column, and some chip shows the label and its count |
| SummaryPreview.RenderTable | my-app/src/renderer/components/AdataSummaryPreview.tsx:14-44 | nothing for no rows; otherwise the headers are the first row's keys and every row is rendered in that order |
| SummaryPreview.RenderTableLossless | my-app/src/renderer/components/AdataSummaryPreview.tsx:14-37 | rows sharing the first row's keys are shown completely |
| SummaryPreview.ClusterTable | my-app/src/renderer/components/AdataSummaryPreview.tsx:136 | the cluster table has the headers `cluster` and `count`, and one row per cluster |
| SummaryPreview.ClustersGuardAsWritten | my-app/src/renderer/components/AdataSummaryPreview.tsx:133 | as written, the guard throws for a missing cluster list, or for clusters with null label counts |
| SummaryPreview.ClustersNeverShown | my-app/src/renderer/components/AdataSummaryPreview.tsx:133 | as written, the cluster table never shows |
| SummaryPreview.ClustersGuardThrows | my-app/src/renderer/components/AdataSummaryPreview.tsx:133 | one concrete summary where the guard throws |
| SummaryPreview.ClustersShown | my-app/src/renderer/components/AdataSummaryPreview.tsx:133 | corrected guard: clusters show exactly when there are some and no label counts |
| SummaryPreview.ClustersShownForSummary | my-app/src/renderer/components/AdataSummaryPreview.tsx:133 | for a back-end summary, clusters show exactly when no label column is present |
| SummaryPreview.RenderSummary | my-app/src/renderer/components/AdataSummaryPreview.tsx:48-150 | title, chips and one section per counted column; clusters under the corrected guard; each preview table is absent exactly when its preview is empty |
| SummaryPreview.PreviewShowsFewRows | my-app/src/renderer/components/AdataSummaryPreview.tsx:140-148 | the preview tables of a summary show at most five rows each |
| TumorForm.CategoriesForKey | my-app/src/renderer/forms/TumorPredictionOptions.tsx:20-23 | none for an empty or unknown key; otherwise that column's labels |
| TumorForm.CategoriesOfLookup | my-app/src/renderer/forms/TumorPredictionOptions.tsx:20-23 | the categories offered for a key are the labels of its tallies |
| TumorForm.RefKeysOfSummary | my-app/src/renderer/forms/TumorPredictionOptions.tsx:15-18 | for a back-end summary, the reference keys are exactly the label columns present, none twice |
| TumorForm.CategoriesOfSummary | my-app/src/renderer/forms/TumorPredictionOptions.tsx:20-23 | for a back-end summary, a column's categories are exactly its labels, none twice |
| TumorForm.CategoriesOfCounted | my-app/src/renderer/forms/TumorPredictionOptions.tsx:20-23 | categories drawn from value counts are exactly the column's labels, none twice |
| TumorForm.On | my-app/src/renderer/forms/TumorPredictionOptions.tsx:61 | `on(k)` replaces exactly field k |
| TumorForm.ChangeRefKey | my-app/src/renderer/forms/TumorPredictionOptions.tsx:64-67 | the key is set and the categories are emptied; nothing else changes |
| TumorForm.ChangeRefCat | my-app/src/renderer/forms/TumorPredictionOptions.tsx:69-70 | only the categories change |
| TumorForm.CatsStayOffered | my-app/src/renderer/forms/TumorPredictionOptions.tsx:61-76 | after a key change, and after every edit, the chosen categories are among those offered for the key |
| TumorForm.RequestBody | my-app/src/renderer/forms/TumorPredictionOptions.tsx:26-45 | the body is the state object, with its eight keys in order |
| TumorForm.TextsOf | my-app/src/renderer/forms/TumorPredictionOptions.tsx:45 | reading texts back gives one per item |
| TumorForm.TextsOfStrList | my-app/src/renderer/forms/TumorPredictionOptions.tsx:45 | the texts of a sent list read back unchanged |
| TumorForm.RequestRoundTrip | backend/app/models.py:34-41 | the back end reads each of the seven fields it declares back as the form holds it |
| TumorForm.CoresNotReceived | backend/app/main.py:97-106 | as written, the core count does not change the request the back end reads, and `autoResolution` always gets 4 CPUs |
| TumorForm.CoresReachInferCnv | my-app/src/renderer/forms/TumorPredictionOptions.tsx:34 | corrected: the form's core count is read back whole and becomes the CPUs of `autoResolution` |
| Analysis.EndpointRun | backend/app/main.py:97-106 | the endpoint's call uses the request's key, categories and threshold, and runs `autoResolution` on the default 4 CPUs |
| Analysis.EndpointRunWithCores | backend/app/analysis.py:217-290 | corrected: the same call, with the given core count as the CPUs |
| TumorForm.FormCallsWithCategories | backend/app/analysis.py:220-247 | the form's list always reaches inferCNV as a reference category, and the key is dropped only when empty |
| TumorForm.CompletedAsWritten | my-app/src/renderer/forms/TumorPredictionOptions.tsx:49-51 | as written, the response is shown and one output named after the form is appended, without an input |
| TumorForm.CompletedOutputShowsNoInput | my-app/src/renderer/forms/TumorPredictionOptions.tsx:50 | opening that output never shows the upload it was computed from |
| TumorForm.Completed | my-app/src/renderer/forms/TumorPredictionOptions.tsx:49-51 | corrected: the response is shown as before, and the appended output also records the input path |
| TumorForm.CompletedFindsItsUpload | my-app/src/renderer/forms/TumorPredictionOptions.tsx:27-50 | the corrected output of a run on a listed upload shows that upload again |
| AnnotationForm.FieldsDetermineState | my-app/src/renderer/forms/AnnotationOptions.tsx:22-38 | the state is its fifteen fields |
| AnnotationForm.InitialStateWellTyped | my-app/src/renderer/forms/AnnotationOptions.tsx:22-38 | the initial texts are texts and the initial flags are booleans |
| AnnotationForm.Set | my-app/src/renderer/forms/AnnotationOptions.tsx:41 | `{...state, [k]: v}` changes only field k |
| AnnotationForm.On | my-app/src/renderer/forms/AnnotationOptions.tsx:39-41 | field k takes the event's value; no other field changes |
| AnnotationForm.OnTwice | my-app/src/renderer/forms/AnnotationOptions.tsx:39-41 | the last edit of a field wins |
| AnnotationForm.OnCommutes | my-app/src/renderer/forms/AnnotationOptions.tsx:39-41 | edits of different fields commute |
| AnnotationForm.OnKeepsWellTyped | my-app/src/renderer/forms/AnnotationOptions.tsx:39-41 | edits from matching inputs keep texts texts and flags booleans |
| AnnotationForm.PickOutputDir | my-app/src/renderer/forms/AnnotationOptions.tsx:89-92 | a cancelled dialog changes nothing; otherwise only the output directory is set |
| AnnotationForm.PreprocessingParams | my-app/src/renderer/forms/AnnotationOptions.tsx:52-61 | the parameters have exactly the back end's whitelisted keys; `mito_prefix` is "MT-"; the other seven come from their state fields |
| AnnotationForm.InitialParamsAreDefaults | my-app/src/renderer/forms/AnnotationOptions.tsx:27-33 | the form's initial parameters are the back end's defaults |
| AnnotationForm.MergeKeepsFormParams | backend/app/annotate.py:61-64 | the back end's merge keeps every parameter the form sends |
| AnnotationForm.DefaultNameInjective | my-app/src/renderer/forms/AnnotationOptions.tsx:48 | runs started at different times get different default names |
| AnnotationForm.DefaultOutputDir | my-app/src/renderer/forms/AnnotationOptions.tsx:50 | the default directory ends in `/output` |
| AnnotationForm.RequestBody | my-app/src/renderer/forms/AnnotationOptions.tsx:47-65 | the body has exactly the eight keys, and no `species` |
| AnnotationForm.SpeciesNotSent | my-app/src/renderer/forms/AnnotationOptions.tsx:47-65 | editing the species never changes the body |
| AnnotationForm.RequestNamesTheRun | my-app/src/renderer/forms/AnnotationOptions.tsx:48-50 | name and output directory fall back to their defaults when empty, and are never empty |
| AnnotationForm.ParseRequest | my-app/src/renderer/forms/AnnotationOptions.tsx:47-70 | only an object parses as a request |
| AnnotationForm.ParseRequestOf | my-app/src/renderer/forms/AnnotationOptions.tsx:47-65 | a body of the right shape parses, field by field |
| AnnotationForm.RequestOfWellTyped | my-app/src/renderer/forms/AnnotationOptions.tsx:47-65 | the body of a well-typed form parses to the request the back end reads: name, input, flags and the form's parameters |
| AnnotationForm.FormParamsReachPreprocessing | backend/app/annotate.py:180-182 | when not preprocessed, the back end preprocesses with exactly the form's parameters |
| AnnotationForm.CompletedAsWritten | my-app/src/renderer/forms/AnnotationOptions.tsx:76-79 | as written, the response is shown and the appended output is named after the raw name field |
| AnnotationForm.DefaultRunListedWithoutName | my-app/src/renderer/forms/AnnotationOptions.tsx:48-78 | a run started with an empty name is listed under "" while the back end names it `run_…` |
| AnnotationForm.Completed | my-app/src/renderer/forms/AnnotationOptions.tsx:76-79 | corrected: the response is shown as before, and exactly one output is appended after the existing ones |
| AnnotationForm.CompletedNamesTheRun | my-app/src/renderer/forms/AnnotationOptions.tsx:48-78 | the listed output carries the request's non-empty name and the input the back end reads |
| Text.LowerFixesLowercase | backend/app/analysis.py:149-152 | lowering leaves a text unchanged exactly when it holds no ASCII capital |
| Text.LowerIdempotent | backend/app/analysis.py:152 | lowering twice is lowering once |
| Text.TrimStart | backend/app/analysis.py:143 | removes exactly the leading whitespace |
| Text.TrimEnd | backend/app/analysis.py:143 | removes exactly the trailing whitespace |
| Text.StripIsInnerSlice | backend/app/analysis.py:143 | `strip` gives a slice of the text that neither begins nor ends with whitespace |
| Text.StripEmptyIffBlank | backend/app/analysis.py:143 | a text strips to empty exactly when it is all whitespace |
| Text.StripIdempotent | backend/app/analysis.py:143 | stripping twice is stripping once |
| Text.Split | my-app/src/renderer/components/AnnotationResultsDashBoard.tsx:92 | `split(',')` yields at least one piece, none containing the separator |
| Text.JoinSplit | my-app/src/renderer/components/AnnotationResultsDashBoard.tsx:92 | joining the pieces again gives the text back |
| Text.SplitCount | my-app/src/renderer/components/AnnotationResultsDashBoard.tsx:92 | there is one piece more than separators |
| Text.SplitLines | my-app/src/renderer/components/AnnotationResultsDashBoard.tsx:92 | `split(/\r?\n/)` gives one line more than newlines, none containing a newline |
| Text.DropFinalCr | my-app/src/renderer/components/AnnotationResultsDashBoard.tsx:92 | the optional `\r` before a newline is dropped exactly when the line ends in one |
| Text.IndexOf | my-app/src/renderer/forms/CellInteractionOptions.tsx:174 | finds the first occurrence of the separator from a position, or none |
| Text.SplitOn | my-app/src/renderer/forms/CellInteractionOptions.tsx:174 | `split('::')` yields at least one piece |
| Text.SplitOnNoSeparator | my-app/src/renderer/forms/CellInteractionOptions.tsx:174 | a text without the separator splits into itself alone |
| Text.LastSegment | my-app/src/renderer/layouts/PrimaryLayout.tsx:33 | `split(…).pop()` is the longest suffix free of separators |
| Text.LastSegmentSplitsPath | my-app/src/renderer/layouts/PrimaryLayout.tsx:33 | the last segment is everything after the last separator |
| Text.PathJoin | backend/app/analysis.py:169 | `os.path.join`: an absolute second part wins; otherwise the directory is a prefix and the name a suffix |
| Text.BaseNameOfJoin | backend/app/analysis.py:169 | the base name of a joined path is the joined file name |
| Text.Extension | backend/app/annotate.py:159-168 | the extension contains no dot |
| Text.EndsWithExtension | backend/app/annotate.py:159-168 | ending with `.e` is having extension `e` |
| Text.DirName | backend/app/annotate.py:167 | `os.path.dirname` is a prefix, and empty for a bare file name |
| Text.DirNameSlashesBaseName | backend/app/annotate.py:167 | the directory and the base name are separated by slashes only |
| Text.NatToString | my-app/src/renderer/forms/AnnotationOptions.tsx:48 | the decimal digits of a number |
| Text.NatToStringRoundTrip | my-app/src/renderer/forms/AnnotationOptions.tsx:48 | the digits read back as the number |
| Sorting.SortDesc | my-app/src/renderer/components/AdataSummaryPreview.tsx:73-75 | a permutation in non-increasing key order |
| Sorting.SortDescStable | my-app/src/renderer/components/AdataSummaryPreview.tsx:73-75 | elements with equal keys keep their order |
| Sorting.SortDescOfSorted | annotate.py:284 | sorting an already sorted list changes nothing |
| Json.Lookup | my-app/src/renderer/forms/TumorPredictionOptions.tsx:21-22 | a lookup fails exactly for a missing key, and otherwise finds that key's field |
| Json.LookupAt | my-app/src/renderer/forms/TumorPredictionOptions.tsx:21-22 | in an object without repeated keys, looking up a field's key finds that field's value |
| Json.ToMap | backend/app/annotate.py:62-64 | a request object read as a dictionary has the same keys and values |

## Left out

- The outside libraries are opaque steps, or are left out. These are scanpy,
  omicverse and SCSA, CellPhoneDB and ktplotspy, infercnvpy, CaDRReS and
  matplotlib. Their numerical results (clusters, labels, marker
  dictionaries, CNV scores) are parameters.
- File reads and writes, `makedirs`, figure saving and `os.listdir` appear
  only as the paths a run reports or creates, or as given listings.
- `datetime.now()`, `Date.now()`, `Math.random()` and the working directory
  are parameters.
- `alert`, `console` and the loading flags are not modelled.
- HTTP is not modelled. This covers `fetch`, the FastAPI endpoints in
  `backend/app/main.py`, the task runner in `backend/app/tasks.py`, and
  HTTP error wrapping. A form's round trip to the back end is modelled as
  the body it sends and the request the back end reads from it.
- The Qt GUI is not modelled: `gui_main.py` and `pipeline_runner.py` are
  threads and widgets. Nor are the root `analysis.py`, which only
  orchestrates, the logic-free form stubs under `components/forms/`, and
  the presentation files.
- Floating point is not modelled.
  - Percentages and shares are exact reals.
  - `round(2)` at `annotate.py:283` is left out.
  - The CNV threshold comparison is on reals.
  - Zoom is kept in quarter steps, which the 0.25 increments make exact.
  - NaN is not modelled.
- `Text.Lower` covers ASCII letters only; Python's Unicode lower-casing is
  not modelled. `Text.Strip` uses Python's full `str.isspace` set.
- `AnnData.ValueCountsSpec`: the order of labels with equal counts is taken
  to be first appearance. pandas does not specify it. Categories with zero
  cells (unused categorical levels) are not modelled.
- `Summary.SummarizeH5ad`: `int(...)` and `str(Path)` conversions, the
  `backed="r"` mode and the closing of the file are not modelled.
- The array branch of `label_counts` at `AdataSummaryPreview.tsx:66-67`
  is left out. The back end always sends an object.
- `String(r[h])` rendering of cells, and JavaScript's integer-like-key-first
  ordering of object keys, are not modelled. Objects keep insertion order.
- `Dashboard.Artefacts` models `figs` and `files` as lists of path texts,
  as the dashboard declares them. The back end actually stores
  (path, caption) pairs (`backend/app/annotate.py:254`).
- The dashboard's summary entry (`AnnotationResultsDashBoard.tsx:153-158`)
  is reduced to a selection state, and its `split` label is not modelled.
- `LegacyAnnotate.CountRowsSorted`: `sort_values` is modelled as a stable
  sort. pandas sorts with its default quicksort, which is not stable, so
  rows with equal counts may come out in another order. The same holds for
  `LegacyAnnotate.CelltypeCountsSpec`; both promise the row order only up to
  ties.
- The annotation run's returned dictionary (`name`, `input_file`,
  `output_dir`, `timestamp`, `data`; `backend/app/annotate.py:222-231`) is
  not modelled. Neither is its `data` payload: the `figs` and `files`
  (path, caption) pairs, `umap_path` and the `adata` summary. `Outcome`
  keeps the steps, the merged parameters, the used databases, the obs
  columns and the output file.
- The forms are opened by `GettingStarted.tsx`, which is not part of this
  model. It passes them no `summary`, so as wired every form opens with an
  empty input path and the tumour form offers no reference key. The forms
  are modelled for any summary they might be given.
- `Analysis.RunCellPhoneDb`: whether the detailed network plot succeeds is
  a parameter (`detailedDrawn`), because the failure is caught inside the
  library call (`analysis.py:188-211`).
- `CellInteraction`: the form's own fields, its request body and the output
  it appends (`CellInteractionOptions.tsx:44-67`) are not modelled beyond
  `plot_column_names`. The missing `input` it shares with the other forms
  is stated once, in `Layout.FormOutputAsWritten`.

## Findings

| source | as written | input that shows it | evidently intended | confidence | as-written member | corrected member |
|---|---|---|---|---|---|---|
| my-app/src/renderer/components/AdataSummaryPreview.tsx:133 | `clusters.length > 0 && sortedLabelCountsArray.length == 0` reads `.length` of the sorted label-count object | any back-end summary: the object has no `length`, so the guard is false; when `label_counts` is null and there are clusters, reading `null.length` throws | show the cluster table when there are clusters and no label counts | high; not executed | SummaryPreview.ClustersNeverShown | SummaryPreview.ClustersShownForSummary |
| my-app/src/renderer/forms/TumorPredictionOptions.tsx:50 | the appended output is `{ id, name, data }` with no `input` (also `AnnotationOptions.tsx:78` and `CellInteractionOptions.tsx:67`) | run the form on a listed upload, then open the new output: `uploads.find(u => u.summary.path === undefined)` finds nothing, so its input is not shown | record the input path, as the initial outputs do (`PrimaryLayout.tsx:22`) | medium; not executed | TumorForm.CompletedOutputShowsNoInput | TumorForm.CompletedFindsItsUpload |
| my-app/src/renderer/forms/AnnotationOptions.tsx:78 | the output is named `state.name`, not the defaulted `body.name` | run with the name left empty: the back end names the run `run_<time>`, but the output is listed as "" | use `body.name`, as `CellInteractionOptions.tsx:67` does | high; not executed | AnnotationForm.DefaultRunListedWithoutName | AnnotationForm.CompletedNamesTheRun |
| backend/app/main.py:97-106 | the `/inferCNV` endpoint calls `run_inferncnv` with seven arguments, and `InferCNVParams` (`backend/app/models.py:34-41`) declares no `cores`, so the form's `cores` key is dropped | set "CPU cores" to 8 in the tumour form: `autoResolution` still runs with `cpus=4` (`backend/app/analysis.py:217`, `:290`) | declare `cores` and pass it on, so the form's field takes effect | medium; not executed | TumorForm.CoresNotReceived | TumorForm.CoresReachInferCnv |
