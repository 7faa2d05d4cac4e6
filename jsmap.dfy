/** A JavaScript `Map` modelled as an association list in insertion order:
    iteration visits entries in the order their keys were first set, `set` on
    a key that is present replaces its value where it stands, and `set` on a
    new key appends it. */
module JsMap {
  import opened Wrappers

  /** The keys in iteration order. */
  function Keys<V>(m: seq<(string, V)>): (ks: seq<string>)
    ensures |ks| == |m|
    ensures forall i :: 0 <= i < |m| ==> ks[i] == m[i].0
  {
    if m == [] then [] else [m[0].0] + Keys(m[1..])
  }

  /** Every key occurs once, as in a real `Map`. */
  ghost predicate DistinctKeys<V>(m: seq<(string, V)>) {
    forall i, j :: 0 <= i < j < |m| ==> m[i].0 != m[j].0
  }

  /** `Map.prototype.get`: the value stored under `k`, if any. */
  function Get<V>(m: seq<(string, V)>, k: string): (r: Option<V>)
    ensures r.Some? ==> (k, r.value) in m
  {
    if m == [] then None
    else if m[0].0 == k then Some(m[0].1)
    else
      var r := Get(m[1..], k);
      assert m == [m[0]] + m[1..];
      r
  }

  /** `Map.prototype.has`. */
  predicate Has<V>(m: seq<(string, V)>, k: string) {
    Get(m, k).Some?
  }

  /** A key is present exactly when some entry carries it. */
  lemma {:induction false} HasIffKey<V>(m: seq<(string, V)>, k: string)
    ensures Has(m, k) <==> k in Keys(m)
  {
    if m != [] {
      HasIffKey(m[1..], k);
      assert Keys(m) == [m[0].0] + Keys(m[1..]);
    }
  }

  /** `Map.prototype.set`. */
  function Set<V>(m: seq<(string, V)>, k: string, v: V): (r: seq<(string, V)>)
    ensures Get(r, k) == Some(v)
    ensures |r| == if Has(m, k) then |m| else |m| + 1
  {
    if m == [] then [(k, v)]
    else if m[0].0 == k then [(k, v)] + m[1..]
    else
      var rest := Set(m[1..], k, v);
      var r := [m[0]] + rest;
      assert r[0] == m[0] && r[1..] == rest;
      r
  }

  /** After `set`, every other key is looked up as before. */
  lemma {:induction false} SetLookup<V>(m: seq<(string, V)>, k: string, v: V, u: string)
    ensures Get(Set(m, k, v), u) == if u == k then Some(v) else Get(m, u)
  {
    if m != [] && m[0].0 != k {
      SetLookup(m[1..], k, v, u);
      assert Set(m, k, v)[1..] == Set(m[1..], k, v);
    }
  }

  /** `set` keeps every entry's key where it stands, and a new key goes at
      the end. */
  lemma {:induction false} SetPositions<V>(m: seq<(string, V)>, k: string, v: V)
    ensures forall i :: 0 <= i < |m| ==> Set(m, k, v)[i].0 == m[i].0
    ensures !Has(m, k) ==> Set(m, k, v)[|m|] == (k, v)
  {
    if m != [] && m[0].0 != k {
      SetPositions(m[1..], k, v);
      assert Set(m, k, v)[1..] == Set(m[1..], k, v);
    }
  }

  /** `Map.prototype.delete`. */
  function Delete<V>(m: seq<(string, V)>, k: string): (r: seq<(string, V)>)
    ensures Get(r, k) == None
    ensures forall k' :: k' != k ==> Get(r, k') == Get(m, k')
    ensures forall e :: e in r ==> e in m
  {
    if m == [] then []
    else if m[0].0 == k then Delete(m[1..], k)
    else
      var rest := Delete(m[1..], k);
      var r := [m[0]] + rest;
      assert r[0] == m[0] && r[1..] == rest;
      r
  }

  /** Setting a key keeps a map's keys distinct. */
  lemma SetKeepsKeysDistinct<V>(m: seq<(string, V)>, k: string, v: V)
    requires DistinctKeys(m)
    ensures DistinctKeys(Set(m, k, v))
  {
    var r := Set(m, k, v);
    SetPositions(m, k, v);
    if !Has(m, k) {
      HasIffKey(m, k);
      forall i | 0 <= i < |m| ensures r[i].0 != k {
        assert Keys(m)[i] == m[i].0;
      }
    }
  }

  /** Deleting a key keeps a map's keys distinct. */
  lemma {:induction false} DeleteKeepsKeysDistinct<V>(m: seq<(string, V)>, k: string)
    requires DistinctKeys(m)
    ensures DistinctKeys(Delete(m, k))
  {
    if m != [] {
      DeleteKeepsKeysDistinct(m[1..], k);
      if m[0].0 != k {
        var d := Delete(m[1..], k);
        forall e | e in d ensures e.0 != m[0].0 {
          assert e in m[1..];
        }
        assert Delete(m, k) == [m[0]] + d;
      }
    }
  }

  /** Looking up in a map extended by one entry at the end. */
  lemma {:induction false} GetAppend<V>(m: seq<(string, V)>, k: string, v: V, u: string)
    ensures Get(m + [(k, v)], u) == if Has(m, u) then Get(m, u) else if k == u then Some(v) else None
  {
    if m != [] {
      assert (m + [(k, v)])[1..] == m[1..] + [(k, v)];
      GetAppend(m[1..], k, v, u);
    }
  }

  /** In a map with distinct keys, the entry at `i` is what `Get` finds. */
  lemma {:induction false} GetAt<V>(m: seq<(string, V)>, i: nat)
    requires DistinctKeys(m) && i < |m|
    ensures Get(m, m[i].0) == Some(m[i].1)
  {
    if i > 0 {
      GetAt(m[1..], i - 1);
    }
  }
}
