/** The cell-type picker of the CellPhoneDB form (`DetailedPlotsDropdown`
    and the request it feeds): every cell type is identified by the encoded
    id `category::label`, the selection is a list of such ids changed by
    per-item, per-category and preset toggles, and the request carries the
    decoded labels as `plot_column_names`. */
module CellInteraction {

  import opened Wrappers
  import opened Seqs
  import opened Text
  import opened Json
  import opened AnnData
  import opened Summary
  import Analysis

  const Separator: string := "::"

  /** `encode(cat, ct)`. */
  function Encode(cat: string, ct: string): string {
    cat + Separator + ct
  }

  /** `decode(id)`: the second piece of `id.split('::')`; `undefined` (here
      `None`) when the id holds no separator. */
  function Decode(id: string): Option<string> {
    var pieces := SplitOn(id, Separator);
    if |pieces| >= 2 then Some(pieces[1]) else None
  }

  /** An id without a separator decodes to `undefined`. */
  lemma DecodeWithoutSeparator(id: string)
    requires !Contains(id, Separator)
    ensures Decode(id) == None
  {
    SplitOnNoSeparator(id, Separator);
  }

  /** A category name the encoding can be undone for: no separator inside
      it and no `:` at its end. */
  predicate Decodable(cat: string) {
    !Contains(cat, Separator) && !EndsWith(cat, ":")
  }

  /** In an encoded id of a decodable category, the first separator is the
      one `encode` put there. */
  lemma {:induction false} EncodeFirstSeparator(cat: string, ct: string)
    requires Decodable(cat)
    ensures IndexOf(Encode(cat, ct), Separator, 0) == Some(|cat|)
  {
    var id := Encode(cat, ct);
    assert SepAt(id, Separator, |cat|) by {
      assert id[|cat|..|cat| + 2] == Separator;
    }
    forall k: nat | k < |cat| ensures !SepAt(id, Separator, k) {
      if k + 2 <= |cat| {
        assert id[k..k + 2] == cat[k..k + 2];
        assert !SepAt(cat, Separator, k);
      } else {
        assert id[k] == cat[|cat| - 1];
        assert cat[|cat| - 1..] != ":";
      }
    }
  }

  /** Decoding the id of a decodable category yields the label up to its
      own first separator, if it has one. */
  lemma DecodeEncode(cat: string, ct: string)
    requires Decodable(cat)
    ensures Decode(Encode(cat, ct)) == Some(SplitOn(ct, Separator)[0])
  {
    var id := Encode(cat, ct);
    EncodeFirstSeparator(cat, ct);
    assert id[..|cat|] == cat;
    assert id[|cat| + 2..] == ct;
    assert SepAt(id, Separator, |cat|);
  }

  /** The round trip: a label without a separator comes back unchanged. */
  lemma DecodeEncodeRoundTrip(cat: string, ct: string)
    requires Decodable(cat) && !Contains(ct, Separator)
    ensures Decode(Encode(cat, ct)) == Some(ct)
  {
    DecodeEncode(cat, ct);
    SplitOnNoSeparator(ct, Separator);
  }

  /** Why the category must not end in `:`: its id is also the id of another
      category and label, and decoding picks the wrong one. */
  lemma EncodeAmbiguous()
    ensures Encode("a:", "b") == Encode("a", ":b")
    ensures Decode(Encode("a:", "b")) == Some(":b")
  {
    assert !Contains(":b", Separator) by {
      assert ":b"[0..2][1] == 'b' && Separator[1] == ':';
      forall k: nat | k <= 2 ensures !SepAt(":b", Separator, k) {
      }
    }
    assert Decodable("a") by {
      assert !SepAt("a", Separator, 0) && !SepAt("a", Separator, 1);
    }
    DecodeEncodeRoundTrip("a", ":b");
  }

  /** A text holding a separator holds its first character. */
  lemma ContainsFirstChar(s: string, sep: string)
    requires |sep| > 0 && Contains(s, sep)
    ensures sep[0] in s
  {
    var k: nat :| k <= |s| && SepAt(s, sep, k);
    assert s[k] == sep[0];
  }

  /** The categories the back end reports can all be decoded. */
  lemma LabelColumnsDecodable(cat: string)
    requires cat in LabelColumns
    ensures Decodable(cat)
  {
    if Contains(cat, Separator) {
      ContainsFirstChar(cat, Separator);
    }
  }

  // ---------------------------------------------------------------------
  // The ids on offer

  /** `summary.label_counts[cat] || {}`. */
  function CountsFor(lc: LabelCounts, cat: string): seq<Tally> {
    Lookup(lc, cat).GetOr([])
  }

  /** The ids of one category: its labels, encoded, in their order. */
  function CategoryIds(cat: string, counts: seq<Tally>): (r: seq<string>)
    ensures |r| == |counts|
    ensures forall j :: 0 <= j < |counts| ==> r[j] == Encode(cat, counts[j].category)
  {
    seq(|counts|, j requires 0 <= j < |counts| => Encode(cat, counts[j].category))
  }

  function CatIds(lc: LabelCounts, cat: string): seq<string> {
    CategoryIds(cat, CountsFor(lc, cat))
  }

  /** `allIds`: the ids of every category, category after category;
      none when there are no label counts. */
  function AllIds(labelCounts: Option<LabelCounts>): seq<string> {
    match labelCounts
    case None => []
    case Some(lc) => Flatten(seq(|lc|, i requires 0 <= i < |lc| => CatIds(lc, Keys(lc)[i])))
  }

  /** An id is on offer exactly when it encodes a label of a category. */
  lemma AllIdsMembers(lc: LabelCounts, id: string)
    ensures id in AllIds(Some(lc)) <==>
      exists i, j :: 0 <= i < |lc| && 0 <= j < |CountsFor(lc, lc[i].0)| &&
                     id == Encode(lc[i].0, CountsFor(lc, lc[i].0)[j].category)
  {
    var parts := seq(|lc|, i requires 0 <= i < |lc| => CatIds(lc, Keys(lc)[i]));
    if id in AllIds(Some(lc)) {
      var i :| 0 <= i < |parts| && id in parts[i];
      var j :| 0 <= j < |parts[i]| && parts[i][j] == id;
      assert parts[i] == CatIds(lc, lc[i].0);
    }
    if exists i, j :: 0 <= i < |lc| && 0 <= j < |CountsFor(lc, lc[i].0)| &&
                      id == Encode(lc[i].0, CountsFor(lc, lc[i].0)[j].category) {
      var i, j :| 0 <= i < |lc| && 0 <= j < |CountsFor(lc, lc[i].0)| &&
                  id == Encode(lc[i].0, CountsFor(lc, lc[i].0)[j].category);
      assert parts[i][j] == id;
    }
  }

  // ---------------------------------------------------------------------
  // Changing the selection

  function Other(id: string): string -> bool {
    x => x != id
  }

  function NotIn(ids: seq<string>): string -> bool {
    x => x !in ids
  }

  /** `toggleId(id)`. */
  function ToggleId(sel: seq<string>, id: string): (r: seq<string>)
    ensures id in r <==> id !in sel
    ensures forall x :: x != id ==> (x in r <==> x in sel)
  {
    if id in sel then Filter(sel, Other(id)) else sel + [id]
  }

  /** A toggle leaves the other ids in their order, and a newly selected id
      goes last. */
  lemma ToggleIdKeepsOthers(sel: seq<string>, id: string)
    ensures Filter(ToggleId(sel, id), Other(id)) == Filter(sel, Other(id))
    ensures id !in sel ==> ToggleId(sel, id) == sel + [id]
  {
    if id in sel {
      FilterAll(Filter(sel, Other(id)), Other(id));
    } else {
      FilterAppend(sel, [id], Other(id));
      assert Filter([id], Other(id)) == Filter([], Other(id));
    }
  }

  /** Toggling an unselected id twice restores the selection. */
  lemma ToggleIdTwice(sel: seq<string>, id: string)
    requires id !in sel
    ensures ToggleId(ToggleId(sel, id), id) == sel
  {
    ToggleIdKeepsOthers(sel, id);
    FilterAll(sel, Other(id));
  }

  /** Every id of the category is selected. */
  predicate AllSelected(sel: seq<string>, catIds: seq<string>) {
    forall id :: id in catIds ==> id in sel
  }

  /** `toggleWholeCategory(cat)`, given the category's ids: deselect them
      all when all are selected, else add the missing ones at the end. */
  function ToggleWholeCategory(sel: seq<string>, catIds: seq<string>): (r: seq<string>)
    ensures AllSelected(sel, catIds) ==> forall x :: x in r <==> x in sel && x !in catIds
    ensures !AllSelected(sel, catIds) ==> forall x :: x in r <==> x in sel || x in catIds
  {
    if AllSelected(sel, catIds) then Filter(sel, NotIn(catIds))
    else sel + Filter(catIds, NotIn(sel))
  }

  /** Selecting a whole category keeps the previous selection as an
      unchanged prefix and never duplicates an id. */
  lemma ToggleWholeCategoryAdds(sel: seq<string>, catIds: seq<string>)
    requires !AllSelected(sel, catIds)
    ensures var r := ToggleWholeCategory(sel, catIds);
      r[..|sel|] == sel && AllSelected(r, catIds)
    ensures NoDup(sel) && NoDup(catIds) ==> NoDup(ToggleWholeCategory(sel, catIds))
  {
    var added := Filter(catIds, NotIn(sel));
    var r := sel + added;
    assert r[..|sel|] == sel;
    if NoDup(sel) && NoDup(catIds) {
      FilterNoDup(catIds, NotIn(sel));
      forall i, j | 0 <= i < j < |r| ensures r[i] != r[j] {
        if j >= |sel| && i < |sel| {
          assert r[j] == added[j - |sel|];
          assert r[i] in sel;
        } else if i >= |sel| {
          assert r[i] == added[i - |sel|] && r[j] == added[j - |sel|];
        }
      }
    }
  }

  /** Deselecting a whole category keeps the remaining ids in their order;
      an empty category leaves the selection as it is. */
  lemma ToggleWholeCategoryRemoves(sel: seq<string>, catIds: seq<string>)
    requires AllSelected(sel, catIds)
    ensures IsSubseq(ToggleWholeCategory(sel, catIds), sel)
    ensures |catIds| == 0 ==> ToggleWholeCategory(sel, catIds) == sel
  {
    FilterIsSubseq(sel, NotIn(catIds));
    if |catIds| == 0 {
      FilterAll(sel, NotIn(catIds));
    }
  }

  /** Selecting a category none of whose ids were selected and then
      deselecting it restores the selection. */
  lemma ToggleWholeCategoryTwice(sel: seq<string>, catIds: seq<string>)
    requires |catIds| > 0 && forall id :: id in catIds ==> id !in sel
    ensures ToggleWholeCategory(ToggleWholeCategory(sel, catIds), catIds) == sel
  {
    assert !AllSelected(sel, catIds) by {
      assert catIds[0] in catIds;
    }
    FilterAll(catIds, NotIn(sel));
    var r := sel + catIds;
    assert AllSelected(r, catIds);
    FilterAppend(sel, catIds, NotIn(catIds));
    FilterAll(sel, NotIn(catIds));
    FilterNone(catIds, NotIn(catIds));
  }

  datatype Preset = All | NoneSelected

  /** `handlePreset`. */
  function ApplyPreset(preset: Preset, allIds: seq<string>): (r: seq<string>)
    ensures preset == All ==> r == allIds
    ensures preset == NoneSelected ==> r == []
  {
    if preset == All then allIds else []
  }

  /** A selection of ids on offer, none twice: what the toggles and presets
      produce. */
  predicate WellFormed(sel: seq<string>, allIds: seq<string>) {
    NoDup(sel) && forall x :: x in sel ==> x in allIds
  }

  lemma ToggleIdWellFormed(sel: seq<string>, allIds: seq<string>, id: string)
    requires WellFormed(sel, allIds) && id in allIds
    ensures WellFormed(ToggleId(sel, id), allIds)
  {
    if id in sel {
      FilterNoDup(sel, Other(id));
    }
  }

  lemma ToggleWholeCategoryWellFormed(sel: seq<string>, allIds: seq<string>, catIds: seq<string>)
    requires WellFormed(sel, allIds) && NoDup(catIds) && forall x :: x in catIds ==> x in allIds
    ensures WellFormed(ToggleWholeCategory(sel, catIds), allIds)
  {
    if AllSelected(sel, catIds) {
      FilterNoDup(sel, NotIn(catIds));
    } else {
      ToggleWholeCategoryAdds(sel, catIds);
    }
  }

  lemma ApplyPresetWellFormed(preset: Preset, allIds: seq<string>)
    requires NoDup(allIds)
    ensures WellFormed(ApplyPreset(preset, allIds), allIds)
  {
  }

  /** `renderValue()`: the text in the closed picker. */
  function RenderValue(sel: seq<string>, allIds: seq<string>): string {
    if |sel| == 0 then "None"
    else if |sel| == |allIds| then "All"
    else NatToString(|sel|) + " selected"
  }

  /** The picker compares lengths only, yet for a well-formed selection it
      reads "All" exactly when every id on offer is selected. */
  lemma RenderValueAll(sel: seq<string>, allIds: seq<string>)
    requires WellFormed(sel, allIds) && NoDup(allIds)
    ensures RenderValue(sel, allIds) == "All" <==> |sel| > 0 && forall x :: x in allIds ==> x in sel
    ensures RenderValue(sel, allIds) == "None" <==> |sel| == 0
  {
    var a := set x | x in allIds;
    var s := set x | x in sel;
    DistinctCardinality(sel);
    DistinctCardinality(allIds);
    assert s <= a;
    if |sel| == |allIds| {
      assert a == s + (a - s);
      assert a - s == {};
      forall x | x in allIds ensures x in sel {
        assert x in a;
      }
    }
    if |sel| > 0 && forall x :: x in allIds ==> x in sel {
      assert a <= s;
      SubsetSize(a, s);
      SubsetSize(s, a);
    }
    if |sel| > 0 && |sel| != |allIds| {
      assert NatToString(|sel|) + " selected" != "All" by {
        var t := NatToString(|sel|) + " selected";
        assert t[|t| - 1] == 'd';
      }
    }
  }

  // ---------------------------------------------------------------------
  // The request

  /** `selectedCellTypes.map(id => id.split('::')[1])`. */
  function PlotColumnNames(sel: seq<string>): (r: seq<Option<string>>)
    ensures |r| == |sel|
    ensures forall i :: 0 <= i < |sel| ==> r[i] == Decode(sel[i])
  {
    seq(|sel|, i requires 0 <= i < |sel| => Decode(sel[i]))
  }

  /** `ct` is a label of one of the categories. */
  predicate Offered(lc: LabelCounts, ct: string) {
    exists i, j :: 0 <= i < |lc| && 0 <= j < |CountsFor(lc, lc[i].0)| && ct == CountsFor(lc, lc[i].0)[j].category
  }

  /** One id on offer decodes to its label. */
  lemma DecodeOffered(lc: LabelCounts, id: string)
    requires forall c :: c in Keys(lc) ==> c in LabelColumns
    requires forall i, j :: 0 <= i < |lc| && 0 <= j < |CountsFor(lc, lc[i].0)| ==>
               !Contains(CountsFor(lc, lc[i].0)[j].category, Separator)
    requires id in AllIds(Some(lc))
    ensures Decode(id).Some? && Offered(lc, Decode(id).value)
  {
    AllIdsMembers(lc, id);
    var i, j :| 0 <= i < |lc| && 0 <= j < |CountsFor(lc, lc[i].0)| &&
                id == Encode(lc[i].0, CountsFor(lc, lc[i].0)[j].category);
    assert Keys(lc)[i] == lc[i].0 && lc[i].0 in Keys(lc);
    LabelColumnsDecodable(lc[i].0);
    DecodeEncodeRoundTrip(lc[i].0, CountsFor(lc, lc[i].0)[j].category);
  }

  /** The ids a back-end summary offers decode to their labels, provided no
      label holds the separator: the request names only offered labels and
      never `undefined`. */
  lemma PlotColumnNamesOfOffered(lc: LabelCounts, sel: seq<string>)
    requires forall c :: c in Keys(lc) ==> c in LabelColumns
    requires forall i, j :: 0 <= i < |lc| && 0 <= j < |CountsFor(lc, lc[i].0)| ==>
               !Contains(CountsFor(lc, lc[i].0)[j].category, Separator)
    requires WellFormed(sel, AllIds(Some(lc)))
    ensures forall k :: 0 <= k < |sel| ==>
      PlotColumnNames(sel)[k].Some? && Offered(lc, PlotColumnNames(sel)[k].value)
  {
    forall k | 0 <= k < |sel|
      ensures PlotColumnNames(sel)[k].Some? && Offered(lc, PlotColumnNames(sel)[k].value)
    {
      assert sel[k] in sel;
      DecodeOffered(lc, sel[k]);
    }
  }

  /** An empty selection is sent as an empty list, and the back end then
      draws no dot plot at all (rather than one per cell type). */
  lemma EmptySelectionPlotsNothing(req: Analysis.CpdbRequest, obs: map<string, seq<string>>,
                                   timestamp: string, detailedDrawn: bool)
    requires req.column in obs
    requires req.plotColumnNames == []
    ensures PlotColumnNames([]) == []
    ensures var o := Analysis.RunCellPhoneDb(req, obs, timestamp, detailedDrawn);
      o.result.Ok? && forall f :: f in o.result.value.figs ==> f.caption != "Detailed Dot Plots"
  {
    Analysis.CellPhoneDbEmptyRequest(req, obs, timestamp, detailedDrawn);
  }
}
