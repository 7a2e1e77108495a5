/**
 * PHP arrays with string keys, as the profile controller builds them: an
 * ordered list of key/value entries in which writing to an existing key
 * replaces its value in place and writing to a new key appends an entry.
 */
module PhpArrays {
  import opened Wrappers

  /** The values the controller stores: null, booleans, strings, nested arrays. */
  datatype Json = JNull | JBool(b: bool) | JString(s: string) | JObject(members: seq<(string, Json)>)

  /** An associative array: its entries in insertion order. */
  type Params = seq<(string, Json)>

  function Keys(arr: Params): seq<string> {
    seq(|arr|, i requires 0 <= i < |arr| => arr[i].0)
  }

  predicate DistinctKeys(arr: Params) {
    forall i, j :: 0 <= i < j < |arr| ==> arr[i].0 != arr[j].0
  }

  /** `$arr[$key]`: the value of the entry with that key, None when there is none. */
  function Lookup(arr: Params, key: string): (r: Option<Json>)
    ensures r.None? <==> key !in Keys(arr)
    ensures r.Some? ==> (key, r.value) in arr
  {
    if arr == [] then None
    else
      assert Keys(arr) == [arr[0].0] + Keys(arr[1..]);
      if arr[0].0 == key then Some(arr[0].1) else Lookup(arr[1..], key)
  }

  /** `$arr[$key] = $v`: overwrites an existing key where it stands, otherwise appends. */
  function Assign(arr: Params, key: string, v: Json): (r: Params)
    ensures Lookup(r, key) == Some(v)
    ensures forall k :: k != key ==> Lookup(r, k) == Lookup(arr, k)
    ensures key !in Keys(arr) ==> r == arr + [(key, v)]
    ensures key in Keys(arr) ==> Keys(r) == Keys(arr)
  {
    if arr == [] then [(key, v)]
    else
      assert Keys(arr) == [arr[0].0] + Keys(arr[1..]);
      if arr[0].0 == key then
        var r := [(key, v)] + arr[1..];
        assert Keys(r) == [key] + Keys(arr[1..]);
        r
      else
        var rest := Assign(arr[1..], key, v);
        var r := [arr[0]] + rest;
        assert Keys(r) == [arr[0].0] + Keys(rest);
        assert r[1..] == rest;
        r
  }

  /** In an array without repeated keys, each entry is what its key looks up. */
  lemma {:induction false} LookupAt(arr: Params, i: nat)
    requires DistinctKeys(arr)
    requires i < |arr|
    ensures Lookup(arr, arr[i].0) == Some(arr[i].1)
  {
    if i > 0 {
      LookupAt(arr[1..], i - 1);
    }
  }
}
