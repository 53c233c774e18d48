/** Preprocessing parameters: the fixed defaults and the merge of a caller's
    dictionary over them, as `run_preprocessing` does before quality control.
    A Python dictionary is an insertion-ordered list of fields. */
module Params {

  import opened Wrappers
  import opened Seqs
  import opened Json

  type Fields = seq<(string, Json)>

  /** The whitelist, in the order the merge loop visits it. */
  const ParamKeys: seq<string> :=
    ["mito_prefix", "mito_threshold", "min_genes", "min_counts",
     "n_hvgs", "n_pcs", "n_neighbors", "resolution"]

  /** `default_params()`. */
  function DefaultParams(): (r: Fields)
    ensures Keys(r) == ParamKeys
  {
    [("mito_prefix", Str("MT-")),
     ("mito_threshold", Num(0.05)),
     ("min_genes", Num(250.0)),
     ("min_counts", Num(500.0)),
     ("n_hvgs", Num(2000.0)),
     ("n_pcs", Num(50.0)),
     ("n_neighbors", Num(15.0)),
     ("resolution", Num(0.8))]
  }

  lemma ParamKeysDistinct()
    ensures NoDup(ParamKeys)
  {
  }

  /** `d[k] = v`: an existing key keeps its position, a new one goes last. */
  function SetField(fields: Fields, k: string, v: Json): (r: Fields)
    ensures Lookup(r, k) == Some(v)
  {
    if |fields| == 0 then [(k, v)]
    else if fields[0].0 == k then
      [(k, v)] + fields[1..]
    else
      var rest := SetField(fields[1..], k, v);
      assert ([fields[0]] + rest)[1..] == rest;
      [fields[0]] + rest
  }

  /** Assignment leaves every other key's value alone. */
  lemma {:induction false} SetFieldOthers(fields: Fields, k: string, v: Json, k': string)
    requires k' != k
    ensures Lookup(SetField(fields, k, v), k') == Lookup(fields, k')
  {
    if |fields| > 0 {
      var tail := fields[1..];
      LookupCons(fields[0], tail);
      assert fields == [fields[0]] + tail;
      if fields[0].0 == k {
        LookupCons((k, v), tail);
      } else {
        SetFieldOthers(tail, k, v, k');
        LookupCons(fields[0], SetField(tail, k, v));
      }
    }
  }

  /** Assignment never reorders keys: it keeps them all, and adds `k` at the
      end when it was missing. */
  lemma {:induction false} SetFieldKeys(fields: Fields, k: string, v: Json)
    ensures k in Keys(fields) ==> Keys(SetField(fields, k, v)) == Keys(fields)
    ensures k !in Keys(fields) ==> Keys(SetField(fields, k, v)) == Keys(fields) + [k]
  {
    if k in Keys(fields) {
      SetFieldExistingKey(fields, k, v);
    } else {
      SetFieldNewKey(fields, k, v);
    }
  }

  lemma {:induction false} SetFieldExistingKey(fields: Fields, k: string, v: Json)
    requires k in Keys(fields)
    ensures Keys(SetField(fields, k, v)) == Keys(fields)
  {
    var tail := fields[1..];
    KeysCons(fields[0], tail);
    assert fields == [fields[0]] + tail;
    if fields[0].0 == k {
      KeysCons((k, v), tail);
    } else {
      SetFieldExistingKey(tail, k, v);
      KeysCons(fields[0], SetField(tail, k, v));
    }
  }

  lemma {:induction false} SetFieldNewKey(fields: Fields, k: string, v: Json)
    requires k !in Keys(fields)
    ensures Keys(SetField(fields, k, v)) == Keys(fields) + [k]
  {
    if |fields| == 0 {
      assert Keys([(k, v)]) == [k];
    } else {
      var x, tail := fields[0], fields[1..];
      assert fields == [x] + tail;
      assert x.0 != k && k !in Keys(tail) by {
        KeysCons(x, tail);
      }
      SetFieldNewKey(tail, k, v);
      KeysAppendAfter(x, tail, SetField(tail, k, v), k);
    }
  }

  /** Keys of `[x] + rest` when `rest` has the keys of `tail` and then `k`. */
  lemma KeysAppendAfter(x: (string, Json), tail: Fields, rest: Fields, k: string)
    requires Keys(rest) == Keys(tail) + [k]
    ensures Keys([x] + rest) == Keys([x] + tail) + [k]
  {
    KeysCons(x, rest);
    KeysCons(x, tail);
    assert [x.0] + (Keys(tail) + [k]) == ([x.0] + Keys(tail)) + [k];
  }

  lemma SetFieldOthersAll(fields: Fields, k: string, v: Json)
    ensures forall k' :: k' != k ==> Lookup(SetField(fields, k, v), k') == Lookup(fields, k')
  {
    forall k' | k' != k ensures Lookup(SetField(fields, k, v), k') == Lookup(fields, k') {
      SetFieldOthers(fields, k, v, k');
    }
  }

  /** The loop `for key in keys: if key in params: final[key] = params[key]`. */
  function MergeLoop(final: Fields, caller: map<string, Json>, keys: seq<string>): Fields
    decreases |keys|
  {
    if |keys| == 0 then final
    else
      var k := keys[0];
      MergeLoop(if k in caller then SetField(final, k, caller[k]) else final, caller, keys[1..])
  }

  /** What the loop leaves behind: whitelisted keys the caller sent carry the
      caller's value, every other key keeps its starting value, and no key is
      added when all whitelisted keys were already present. */
  lemma MergeLoopSpec(final: Fields, caller: map<string, Json>, keys: seq<string>)
    ensures (forall i :: 0 <= i < |keys| ==> keys[i] in Keys(final)) ==>
      Keys(MergeLoop(final, caller, keys)) == Keys(final)
    ensures forall k :: k in keys && k in caller ==> Lookup(MergeLoop(final, caller, keys), k) == Some(caller[k])
    ensures forall k :: !(k in keys && k in caller) ==> Lookup(MergeLoop(final, caller, keys), k) == Lookup(final, k)
  {
    if forall i :: 0 <= i < |keys| ==> keys[i] in Keys(final) {
      MergeLoopKeys(final, caller, keys);
    }
    forall k ensures Lookup(MergeLoop(final, caller, keys), k) ==
      if k in keys && k in caller then Some(caller[k]) else Lookup(final, k)
    {
      MergeLoopLookup(final, caller, keys, k);
    }
  }

  lemma {:induction false} MergeLoopKeys(final: Fields, caller: map<string, Json>, keys: seq<string>)
    requires forall i :: 0 <= i < |keys| ==> keys[i] in Keys(final)
    ensures Keys(MergeLoop(final, caller, keys)) == Keys(final)
    decreases |keys|
  {
    if |keys| > 0 {
      var k := keys[0];
      var next := if k in caller then SetField(final, k, caller[k]) else final;
      if k in caller {
        SetFieldExistingKey(final, k, caller[k]);
      }
      assert Keys(next) == Keys(final);
      forall i | 0 <= i < |keys[1..]| ensures keys[1..][i] in Keys(next) {
        assert keys[1..][i] == keys[i + 1];
      }
      MergeLoopKeys(next, caller, keys[1..]);
    }
  }

  lemma {:induction false} MergeLoopLookup(final: Fields, caller: map<string, Json>, keys: seq<string>, k: string)
    ensures Lookup(MergeLoop(final, caller, keys), k) ==
      if k in keys && k in caller then Some(caller[k]) else Lookup(final, k)
    decreases |keys|
  {
    if |keys| > 0 {
      var h := keys[0];
      var next := if h in caller then SetField(final, h, caller[h]) else final;
      MergeLoopLookup(next, caller, keys[1..], k);
      assert k in keys <==> k == h || k in keys[1..] by {
        assert keys == [h] + keys[1..];
      }
      if h in caller && k != h {
        SetFieldOthers(final, h, caller[h], k);
      }
    }
  }

  /** The parameters preprocessing actually runs with. */
  function Merge(caller: map<string, Json>): (r: Fields)
    ensures Keys(r) == ParamKeys
    ensures forall k :: k in ParamKeys && k in caller ==> Lookup(r, k) == Some(caller[k])
    ensures forall k :: k in ParamKeys && k !in caller ==> Lookup(r, k) == Lookup(DefaultParams(), k)
  {
    var d := DefaultParams();
    assert forall i :: 0 <= i < |ParamKeys| ==> ParamKeys[i] in Keys(d);
    MergeLoopSpec(d, caller, ParamKeys);
    MergeLoop(d, caller, ParamKeys)
  }

  /** Two field lists with the same distinct keys and the same values under
      every key are the same list. */
  lemma {:induction false} FieldsExtensional(a: Fields, b: Fields)
    requires Keys(a) == Keys(b) && NoDup(Keys(a))
    requires forall k :: k in Keys(a) ==> Lookup(a, k) == Lookup(b, k)
    ensures a == b
  {
    forall i | 0 <= i < |a| ensures a[i] == b[i] {
      var k := a[i].0;
      assert Keys(a)[i] == k;
      LookupAt(a, i);
      LookupAt(b, i);
    }
  }

  /** Keys outside the whitelist have no effect on the merge. */
  lemma MergeIgnoresExtraKeys(caller: map<string, Json>)
    ensures Merge(caller) == Merge(map k | k in caller && k in ParamKeys :: caller[k])
  {
    var m := map k | k in caller && k in ParamKeys :: caller[k];
    ParamKeysDistinct();
    forall k | k in Keys(Merge(caller)) ensures Lookup(Merge(caller), k) == Lookup(Merge(m), k) {
      assert k in ParamKeys;
      if k in caller {
        assert k in m && m[k] == caller[k];
      } else {
        assert k !in m;
      }
    }
    FieldsExtensional(Merge(caller), Merge(m));
  }

  /** Passing the defaults themselves changes nothing, and merging is
      idempotent: merging a merge result gives the same parameters. */
  lemma MergeDefaults()
    ensures Merge(ToMap(DefaultParams())) == DefaultParams()
  {
    ParamKeysDistinct();
    FieldsExtensional(Merge(ToMap(DefaultParams())), DefaultParams());
  }

  lemma MergeIdempotent(caller: map<string, Json>)
    ensures Merge(ToMap(Merge(caller))) == Merge(caller)
  {
    ParamKeysDistinct();
    FieldsExtensional(Merge(ToMap(Merge(caller))), Merge(caller));
  }

  /** An empty dictionary, as sent when the caller gives no parameters,
      yields exactly the defaults. */
  lemma MergeEmpty()
    ensures Merge(map[]) == DefaultParams()
  {
    ParamKeysDistinct();
    FieldsExtensional(Merge(map[]), DefaultParams());
  }
}
