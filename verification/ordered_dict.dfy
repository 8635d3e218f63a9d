/** Python's built-in `dict` keyed by string ids, as the registries use it:
    a mapping together with the insertion order of its keys, which is the
    order `list(d.values())` reports. Assigning to a present key keeps its
    position; `del` removes the key and keeps the order of the others. */
module OrderedDict {
  import opened Wrappers

  /** No key occurs twice in `s`. */
  predicate Distinct(s: seq<string>) {
    forall i, j :: 0 <= i < j < |s| ==> s[i] != s[j]
  }

  /** The set of keys listed in `s`. */
  function Elements(s: seq<string>): set<string> {
    set x | x in s
  }

  datatype Dict<V> = Dict(order: seq<string>, entries: map<string, V>) {

    /** The order lists every key of the mapping exactly once. */
    ghost predicate Valid() {
      && Distinct(order)
      && (forall k :: k in order <==> k in entries)
    }
  }

  /** `{}` */
  function Empty<V>(): (d: Dict<V>)
    ensures d.Valid()
    ensures |d.entries| == 0
  {
    Dict([], map[])
  }

  /** `d[k] = v` */
  function Set<V>(d: Dict<V>, k: string, v: V): (r: Dict<V>)
    requires d.Valid()
    ensures r.Valid()
    ensures k in r.entries && r.entries[k] == v
    ensures forall j :: j != k ==> (j in r.entries <==> j in d.entries)
    ensures forall j :: j != k && j in d.entries ==> r.entries[j] == d.entries[j]
    ensures k in d.entries ==> r.order == d.order
    ensures k !in d.entries ==> r.order == d.order + [k]
  {
    if k in d.entries then Dict(d.order, d.entries[k := v])
    else Dict(d.order + [k], d.entries[k := v])
  }

  /** The keys of `s` other than `k`, in their original order. */
  function Without(s: seq<string>, k: string): (r: seq<string>)
    ensures forall x :: x in r <==> x in s && x != k
    ensures Distinct(s) ==> Distinct(r)
    ensures k !in s ==> r == s
  {
    if s == [] then []
    else if s[0] == k then Without(s[1..], k)
    else
      var rest := Without(s[1..], k);
      assert Distinct(s) ==> s[0] !in s[1..];
      [s[0]] + rest
  }

  /** `if k in d: del d[k]` */
  function Delete<V>(d: Dict<V>, k: string): (r: Dict<V>)
    requires d.Valid()
    ensures r.Valid()
    ensures k !in r.entries
    ensures forall j :: j != k ==> (j in r.entries <==> j in d.entries)
    ensures forall j :: j != k && j in d.entries ==> r.entries[j] == d.entries[j]
    ensures k !in d.entries ==> r == d
  {
    if k !in d.entries then d
    else Dict(Without(d.order, k), d.entries - {k})
  }

  /** `d.get(k)` */
  function Get<V>(d: Dict<V>, k: string): (r: Option<V>)
    ensures r.None? <==> k !in d.entries
    ensures r.Some? ==> r.value == d.entries[k]
  {
    if k in d.entries then Some(d.entries[k]) else None
  }

  /** A list without repetitions has as many elements as it has positions. */
  lemma {:induction false} DistinctCardinality(s: seq<string>)
    requires Distinct(s)
    ensures |Elements(s)| == |s|
  {
    if s != [] {
      assert Distinct(s[1..]);
      DistinctCardinality(s[1..]);
      assert Elements(s) == {s[0]} + Elements(s[1..]);
      assert s[0] !in Elements(s[1..]);
    }
  }

  /** The order has one position per key of the mapping. */
  lemma SizeMatchesOrder<V>(d: Dict<V>)
    requires d.Valid()
    ensures |d.entries| == |d.order|
  {
    DistinctCardinality(d.order);
    assert d.entries.Keys == Elements(d.order);
  }

  /** `list(d.values())`: one value per key, in insertion order. */
  function Values<V>(d: Dict<V>): (r: seq<V>)
    requires d.Valid()
    ensures |r| == |d.order| == |d.entries|
    ensures forall i :: 0 <= i < |r| ==> d.order[i] in d.entries && r[i] == d.entries[d.order[i]]
    ensures forall k :: k in d.entries ==> d.entries[k] in r
  {
    SizeMatchesOrder(d);
    var r := seq(|d.order|, i requires 0 <= i < |d.order| => d.entries[d.order[i]]);
    assert forall k :: k in d.entries ==> exists i :: 0 <= i < |d.order| && d.order[i] == k;
    r
  }

  /** Setting a new key appends its value to the listing of values. */
  lemma SetAppends<V>(d: Dict<V>, k: string, v: V)
    requires d.Valid()
    requires k !in d.entries
    ensures Values(Set(d, k, v)) == Values(d) + [v]
  {
    var before := Values(d);
    var after := Values(Set(d, k, v));
    assert |after| == |before| + 1;
    forall i | 0 <= i < |after| ensures after[i] == (before + [v])[i] {
      if i < |before| {
        assert d.order[i] != k;
      }
    }
  }
}
