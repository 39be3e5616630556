/** The string-keyed configuration maps that filter specs carry and that filters are
    initialised from: a java.util.Map<String, String> in insertion order, as a
    LinkedHashMap keeps it.  Values may be null. */
module ParamMaps {
  import opened JavaLang

  type Params = seq<(string, Value)>

  function Keys(p: Params): (ks: seq<string>)
    ensures |ks| == |p|
    ensures forall i :: 0 <= i < |p| ==> ks[i] == p[i].0
  {
    if |p| == 0 then [] else [p[0].0] + Keys(p[1..])
  }

  /** No key occurs twice, as in any java.util.Map. */
  predicate DistinctKeys(p: Params)
  {
    forall i, j :: 0 <= i < j < |p| ==> p[i].0 != p[j].0
  }

  /** The position of key k, or -1 when k is absent. */
  function IndexOf(p: Params, k: string): (r: int)
    ensures -1 <= r < |p|
    ensures r >= 0 ==> p[r].0 == k && forall j :: 0 <= j < r ==> p[j].0 != k
    ensures r < 0 ==> forall j :: 0 <= j < |p| ==> p[j].0 != k
  {
    if |p| == 0 then -1
    else if p[0].0 == k then 0
    else
      var i := IndexOf(p[1..], k);
      if i < 0 then -1 else i + 1
  }

  /** Map.containsKey. */
  predicate ContainsKey(p: Params, k: string)
  {
    IndexOf(p, k) >= 0
  }

  /** Map.get: null both for an absent key and for a key mapped to null. */
  function Get(p: Params, k: string): Value
  {
    var i := IndexOf(p, k);
    if i >= 0 then p[i].1 else None
  }

  /** IndexOf is determined by its contract. */
  lemma IndexOfIs(p: Params, k: string, i: int)
    requires -1 <= i < |p|
    requires i >= 0 ==> p[i].0 == k && forall j :: 0 <= j < i ==> p[j].0 != k
    requires i < 0 ==> forall j :: 0 <= j < |p| ==> p[j].0 != k
    ensures IndexOf(p, k) == i
  {
  }
}
