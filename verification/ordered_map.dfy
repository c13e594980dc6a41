/** A JavaScript `Map`: one entry per key, iterated in insertion order;
    `set` on a present key replaces its value in place, `delete` removes the
    entry. */
module OrderedMap {
  import opened Common
  import opened Seqs

  datatype OMap<K, V> = OMap(entries: seq<(K, V)>)

  function EntryKeys<K, V>(es: seq<(K, V)>): (ks: seq<K>)
    ensures |ks| == |es|
    ensures forall i :: 0 <= i < |es| ==> ks[i] == es[i].0
    decreases |es|
  {
    if |es| == 0 then [] else [es[0].0] + EntryKeys(es[1..])
  }

  function EntryValues<K, V>(es: seq<(K, V)>): (vs: seq<V>)
    ensures |vs| == |es|
    ensures forall i :: 0 <= i < |es| ==> vs[i] == es[i].1
    decreases |es|
  {
    if |es| == 0 then [] else [es[0].1] + EntryValues(es[1..])
  }

  /** `Array.from(m.keys())`. */
  function Keys<K, V>(m: OMap<K, V>): seq<K> {
    EntryKeys(m.entries)
  }

  /** `Array.from(m.values())`. */
  function Values<K, V>(m: OMap<K, V>): seq<V> {
    EntryValues(m.entries)
  }

  /** No key is held twice. */
  ghost predicate Valid<K, V>(m: OMap<K, V>) {
    Distinct(Keys(m))
  }

  function EntryGet<K(==), V>(es: seq<(K, V)>, k: K): (r: Option<V>)
    ensures r.Some? <==> k in EntryKeys(es)
    ensures r.Some? ==> (k, r.value) in es
    decreases |es|
  {
    if |es| == 0 then None
    else if es[0].0 == k then Some(es[0].1)
    else EntryGet(es[1..], k)
  }

  /** `m.get(k)`, `None` for `undefined`. */
  function Get<K(==), V>(m: OMap<K, V>, k: K): Option<V> {
    EntryGet(m.entries, k)
  }

  /** `new Map()`. */
  function Empty<K, V>(): (m: OMap<K, V>)
    ensures Valid(m) && Keys(m) == []
  {
    OMap([])
  }

  function EntryPut<K(==), V>(es: seq<(K, V)>, k: K, v: V): seq<(K, V)>
    decreases |es|
  {
    if |es| == 0 then [(k, v)]
    else if es[0].0 == k then [(k, v)] + es[1..]
    else [es[0]] + EntryPut(es[1..], k, v)
  }

  /** Putting a key replaces its entry in place or appends one. */
  lemma {:induction false} EntryPutKeys<K, V>(es: seq<(K, V)>, k: K, v: V)
    ensures EntryKeys(EntryPut(es, k, v)) == if k in EntryKeys(es) then EntryKeys(es) else EntryKeys(es) + [k]
    decreases |es|
  {
    if |es| > 0 {
      var r := EntryPut(es, k, v);
      assert EntryKeys(es) == [es[0].0] + EntryKeys(es[1..]);
      if es[0].0 == k {
        assert EntryKeys(r) == [k] + EntryKeys(es[1..]);
      } else {
        EntryPutKeys(es[1..], k, v);
        assert EntryKeys(r) == [es[0].0] + EntryKeys(EntryPut(es[1..], k, v));
      }
    }
  }

  /** After putting, the key reads back the new value and every other key
      its old one. */
  lemma {:induction false} EntryPutGet<K, V>(es: seq<(K, V)>, k: K, v: V, j: K)
    ensures EntryGet(EntryPut(es, k, v), j) == if j == k then Some(v) else EntryGet(es, j)
    decreases |es|
  {
    if |es| > 0 && es[0].0 != k {
      var r := EntryPut(es, k, v);
      assert r[1..] == EntryPut(es[1..], k, v);
      EntryPutGet(es[1..], k, v, j);
    } else if |es| > 0 {
      var r := EntryPut(es, k, v);
      assert r[1..] == es[1..];
    }
  }

  /** `m.set(k, v)`: a new key goes to the end of the iteration order, a
      present one keeps its place. */
  function Put<K(==,!new), V>(m: OMap<K, V>, k: K, v: V): (r: OMap<K, V>)
    ensures Keys(r) == if k in Keys(m) then Keys(m) else Keys(m) + [k]
    ensures Valid(m) ==> Valid(r)
    ensures Get(r, k) == Some(v)
    ensures forall j :: j != k ==> Get(r, j) == Get(m, j)
  {
    EntryPutKeys(m.entries, k, v);
    forall j ensures Get(OMap(EntryPut(m.entries, k, v)), j) == if j == k then Some(v) else Get(m, j) {
      EntryPutGet(m.entries, k, v, j);
    }
    OMap(EntryPut(m.entries, k, v))
  }

  function EntryDelete<K(==,!new), V>(es: seq<(K, V)>, k: K): (r: seq<(K, V)>)
    ensures EntryGet(r, k) == None
    ensures forall j :: j != k ==> EntryGet(r, j) == EntryGet(es, j)
    ensures forall j :: j in EntryKeys(r) ==> j in EntryKeys(es)
    ensures Distinct(EntryKeys(es)) ==> Distinct(EntryKeys(r))
    decreases |es|
  {
    if |es| == 0 then []
    else
      var rest := EntryDelete(es[1..], k);
      assert EntryKeys(es) == [es[0].0] + EntryKeys(es[1..]);
      if es[0].0 == k then rest
      else
        assert EntryKeys([es[0]] + rest) == [es[0].0] + EntryKeys(rest);
        assert Distinct(EntryKeys(es)) ==> es[0].0 !in EntryKeys(es[1..]);
        if Distinct(EntryKeys(es)) then
          DistinctCons(es[0].0, EntryKeys(rest));
          [es[0]] + rest
        else
          [es[0]] + rest
  }

  /** `m.delete(k)`. */
  function Delete<K(==,!new), V>(m: OMap<K, V>, k: K): (r: OMap<K, V>)
    ensures Valid(m) ==> Valid(r)
    ensures Get(r, k) == None
    ensures forall j :: j != k ==> Get(r, j) == Get(m, j)
  {
    OMap(EntryDelete(m.entries, k))
  }

  /** The map after deleting each key of `ks` in turn. */
  function Without<K(==,!new), V>(m: OMap<K, V>, ks: seq<K>): OMap<K, V>
    decreases |ks|
  {
    if |ks| == 0 then m
    else Delete(Without(m, ks[..|ks| - 1]), ks[|ks| - 1])
  }

  /** `Without` removes exactly the listed keys. */
  lemma {:induction false} WithoutGet<K(!new), V>(m: OMap<K, V>, ks: seq<K>)
    ensures Valid(m) ==> Valid(Without(m, ks))
    ensures forall j :: Get(Without(m, ks), j) == if j in ks then None else Get(m, j)
    decreases |ks|
  {
    if |ks| > 0 {
      var p := ks[..|ks| - 1];
      WithoutGet(m, p);
      assert ks == p + [ks[|ks| - 1]];
    }
  }

  lemma WithoutLast<K(!new), V>(m: OMap<K, V>, ks: seq<K>)
    requires |ks| > 0
    ensures Without(m, ks) == Delete(Without(m, ks[..|ks| - 1]), ks[|ks| - 1])
  {
  }

  /** Deleting one more key of a list is one more `delete`. */
  lemma WithoutStep<K(!new), V>(m: OMap<K, V>, ks: seq<K>, i: int)
    requires 0 <= i < |ks|
    ensures Without(m, ks[..i + 1]) == Delete(Without(m, ks[..i]), ks[i])
  {
    var p := ks[..i + 1];
    assert p[..|p| - 1] == ks[..i];
    WithoutLast(m, p);
  }

  /** `delete` takes exactly the deleted value out of the map's values. */
  lemma DeleteValues<K(!new), V>(m: OMap<K, V>, k: K)
    requires Valid(m) && Get(m, k).Some?
    ensures multiset(Values(m)) == multiset(Values(Delete(m, k))) + multiset{Get(m, k).value}
  {
    EntryDeleteValues(m.entries, k);
  }

  lemma {:induction false} EntryDeleteValues<K(!new), V>(es: seq<(K, V)>, k: K)
    requires Distinct(EntryKeys(es)) && EntryGet(es, k).Some?
    ensures multiset(EntryValues(es))
      == multiset(EntryValues(EntryDelete(es, k))) + multiset{EntryGet(es, k).value}
    decreases |es|
  {
    EntriesCons(es);
    if es[0].0 == k {
      DeleteHead(es, k);
    } else {
      EntryDeleteValues(es[1..], k);
      DeleteTail(es, k);
    }
  }

  /** Keys and values of a non-empty list are those of its head and tail;
      distinct keys stay distinct in the tail, which lacks the head's key. */
  lemma EntriesCons<K, V>(es: seq<(K, V)>)
    requires |es| > 0
    ensures EntryKeys(es) == [es[0].0] + EntryKeys(es[1..])
    ensures EntryValues(es) == [es[0].1] + EntryValues(es[1..])
    ensures Distinct(EntryKeys(es)) ==> Distinct(EntryKeys(es[1..])) && es[0].0 !in EntryKeys(es[1..])
  {
    assert EntryKeys(es[1..]) == EntryKeys(es)[1..];
  }

  /** Deleting the head's key of a list with distinct keys drops the head. */
  lemma DeleteHead<K(!new), V>(es: seq<(K, V)>, k: K)
    requires |es| > 0 && es[0].0 == k
    requires k !in EntryKeys(es[1..])
    ensures EntryDelete(es, k) == es[1..]
    ensures EntryGet(es, k) == Some(es[0].1)
  {
    DeleteAbsent(es[1..], k);
  }

  /** Deleting another key keeps the head in front of the deleted tail. */
  lemma DeleteTail<K(!new), V>(es: seq<(K, V)>, k: K)
    requires |es| > 0 && es[0].0 != k
    ensures EntryDelete(es, k) == [es[0]] + EntryDelete(es[1..], k)
    ensures EntryGet(es, k) == EntryGet(es[1..], k)
    ensures EntryValues(EntryDelete(es, k)) == [es[0].1] + EntryValues(EntryDelete(es[1..], k))
  {
    var r := [es[0]] + EntryDelete(es[1..], k);
    assert r[1..] == EntryDelete(es[1..], k);
  }

  lemma {:induction false} DeleteAbsent<K(!new), V>(es: seq<(K, V)>, k: K)
    requires k !in EntryKeys(es)
    ensures EntryDelete(es, k) == es
    decreases |es|
  {
    if |es| > 0 {
      assert EntryKeys(es) == [es[0].0] + EntryKeys(es[1..]);
      DeleteAbsent(es[1..], k);
    }
  }
}
