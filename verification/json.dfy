/** JSON values: the request and response bodies exchanged between the
    front end and the back end, and the Python dictionaries behind them. */
module Json {

  import opened Wrappers
  import opened Seqs

  /** Numbers are reals: the int/float distinction of Python and the
      floating-point representation of JavaScript are not modelled. */
  datatype Json =
    | Null
    | Bool(b: bool)
    | Num(n: real)
    | Str(s: string)
    | Arr(items: seq<Json>)
    | Obj(fields: seq<(string, Json)>)

  /** JavaScript truthiness (`||`, `if (x)`); NaN is not modelled. */
  predicate Truthy(v: Json) {
    match v
    case Null => false
    case Bool(b) => b
    case Num(n) => n != 0.0
    case Str(s) => s != ""
    case Arr(_) => true
    case Obj(_) => true
  }

  /** JavaScript's `a || b`: `a` itself when it is truthy, else `b`. */
  function Or(a: Json, b: Json): (r: Json)
    ensures Truthy(a) ==> r == a
    ensures !Truthy(a) ==> r == b
  {
    if Truthy(a) then a else b
  }

  /** The keys of an object's fields, in insertion order. */
  function Keys<V>(fields: seq<(string, V)>): (r: seq<string>)
    ensures |r| == |fields|
    ensures forall i :: 0 <= i < |fields| ==> r[i] == fields[i].0
  {
    seq(|fields|, i requires 0 <= i < |fields| => fields[i].0)
  }

  /** `obj[key]`: the value of the first field named `key` (`undefined`
      when there is none). */
  function Lookup<V>(fields: seq<(string, V)>, key: string): (r: Option<V>)
    ensures r.None? <==> key !in Keys(fields)
    ensures r.Some? ==> exists i :: 0 <= i < |fields| && fields[i] == (key, r.value)
  {
    if |fields| == 0 then None
    else if fields[0].0 == key then Some(fields[0].1)
    else
      var r := Lookup(fields[1..], key);
      assert Keys(fields) == [fields[0].0] + Keys(fields[1..]);
      r
  }

  /** With distinct keys, looking up the key at position `i` finds the
      value stored there. */
  lemma {:induction false} LookupAt<V>(fields: seq<(string, V)>, i: nat)
    requires NoDup(Keys(fields)) && i < |fields|
    ensures Lookup(fields, fields[i].0) == Some(fields[i].1)
  {
    if i > 0 {
      var ks := Keys(fields);
      var tail := fields[1..];
      assert ks[0] != ks[i];
      assert NoDup(Keys(tail)) by {
        forall a, b | 0 <= a < b < |tail| ensures Keys(tail)[a] != Keys(tail)[b] {
          assert ks[a + 1] != ks[b + 1];
        }
      }
      LookupAt(tail, i - 1);
      assert tail[i - 1] == fields[i];
    }
  }

  /** Looking up in a list with a known first field. */
  lemma KeysCons<V>(x: (string, V), s: seq<(string, V)>)
    ensures Keys([x] + s) == [x.0] + Keys(s)
  {
  }

  lemma LookupCons<V>(x: (string, V), s: seq<(string, V)>)
    ensures Keys([x] + s) == [x.0] + Keys(s)
    ensures forall k :: Lookup([x] + s, k) == if x.0 == k then Some(x.1) else Lookup(s, k)
  {
    var t := [x] + s;
    assert t[0] == x && t[1..] == s;
    KeysCons(x, s);
    forall k ensures Lookup(t, k) == if x.0 == k then Some(x.1) else Lookup(s, k) {
    }
  }

  /** The dictionary an object denotes; later duplicates cannot occur in
      the bodies modelled here, and the first field wins if they did. */
  function ToMap<V>(fields: seq<(string, V)>): (m: map<string, V>)
    ensures forall k :: k in m <==> k in Keys(fields)
    ensures forall k :: k in m ==> Lookup(fields, k) == Some(m[k])
  {
    if |fields| == 0 then map[]
    else
      assert Keys(fields) == [fields[0].0] + Keys(fields[1..]);
      ToMap(fields[1..])[fields[0].0 := fields[0].1]
  }
}
