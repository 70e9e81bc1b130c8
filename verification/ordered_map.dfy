/**
 * A JavaScript `Map` keyed by strings: a finite map together with the order in
 * which its keys were first inserted. `set` on a present key replaces the value
 * in place, `delete` removes the key from the order, and iteration (`keys()`,
 * `values()`, `entries()`) follows insertion order.
 */
module OrderedMap {
  import opened Wrappers

  datatype Assoc<V> = Assoc(keys: seq<string>, vals: map<string, V>) {

    /** The representation invariant: the order lists every key exactly once. */
    ghost predicate Valid() {
      && Distinct(keys)
      && (forall k :: k in keys <==> k in vals)
    }
  }

  /** No key occurs twice. */
  ghost predicate Distinct(s: seq<string>) {
    forall i, j :: 0 <= i < j < |s| ==> s[i] != s[j]
  }

  type OMap<V> = m: Assoc<V> | m.Valid() witness Assoc([], map[])

  function Empty<V>(): (r: OMap<V>)
    ensures r.keys == [] && r.vals == map[]
  {
    Assoc([], map[])
  }

  /** `m.get(k)`: the stored value, or None for a missing key. */
  function Get<V>(m: OMap<V>, k: string): (r: Option<V>)
    ensures r.Some? <==> k in m.vals
    ensures r.Some? ==> r.value == m.vals[k]
  {
    if k in m.vals then Some(m.vals[k]) else None
  }

  /** `m.set(k, v)`: a new key goes to the end of the order, a present key keeps its place. */
  function Set<V>(m: OMap<V>, k: string, v: V): (r: OMap<V>)
    ensures r.vals == m.vals[k := v]
    ensures k in m.vals ==> r.keys == m.keys
    ensures k !in m.vals ==> r.keys == m.keys + [k]
  {
    if k in m.vals then Assoc(m.keys, m.vals[k := v])
    else Assoc(m.keys + [k], m.vals[k := v])
  }

  /** The sequence `s` with every occurrence of `k` dropped, order kept. */
  function Without(s: seq<string>, k: string): (r: seq<string>)
    ensures forall x :: x in r <==> x in s && x != k
    ensures |r| <= |s|
  {
    if s == [] then []
    else if s[0] == k then Without(s[1..], k)
    else [s[0]] + Without(s[1..], k)
  }

  lemma {:induction false} WithoutDistinct(s: seq<string>, k: string)
    requires Distinct(s)
    ensures Distinct(Without(s, k))
  {
    if s != [] {
      WithoutDistinct(s[1..], k);
      var t := Without(s[1..], k);
      assert s[0] !in s[1..];
      if s[0] != k {
        assert Without(s, k) == [s[0]] + t;
        assert s[0] !in t;
        DistinctCons(s[0], t);
      }
    }
  }

  lemma DistinctCons(x: string, t: seq<string>)
    requires Distinct(t) && x !in t
    ensures Distinct([x] + t)
  {
    var r := [x] + t;
    forall i, j | 0 <= i < j < |r| ensures r[i] != r[j] {
      assert r[j] == t[j - 1];
      if i > 0 {
        assert r[i] == t[i - 1];
      }
    }
  }

  /** `m.delete(k)`: the key leaves both the map and the order; a missing key changes nothing. */
  function Delete<V>(m: OMap<V>, k: string): (r: OMap<V>)
    ensures r.vals == m.vals - {k}
    ensures r.keys == Without(m.keys, k)
    ensures k !in m.vals ==> r == m
  {
    DeleteValid(m, k);
    DeleteAbsent(m, k);
    Assoc(Without(m.keys, k), m.vals - {k})
  }

  lemma DeleteValid<V>(m: OMap<V>, k: string)
    ensures Assoc(Without(m.keys, k), m.vals - {k}).Valid()
  {
    WithoutDistinct(m.keys, k);
  }

  lemma DeleteAbsent<V>(m: OMap<V>, k: string)
    ensures k !in m.vals ==> Assoc(Without(m.keys, k), m.vals - {k}) == m
  {
    if k !in m.vals {
      WithoutAbsent(m.keys, k);
      assert m.vals - {k} == m.vals;
    }
  }

  lemma {:induction false} WithoutAbsent(s: seq<string>, k: string)
    ensures k !in s ==> Without(s, k) == s
  {
    if s != [] {
      WithoutAbsent(s[1..], k);
    }
  }

  /** Deleting the key that was appended last restores the earlier order. */
  lemma {:induction false} WithoutLast(s: seq<string>, k: string)
    requires k !in s
    ensures Without(s + [k], k) == s
  {
    if s != [] {
      assert (s + [k])[1..] == s[1..] + [k];
      WithoutLast(s[1..], k);
    }
  }

  /** Setting a new key and deleting it again gives back the map, order included. */
  lemma SetThenDelete<V>(m: OMap<V>, k: string, v: V)
    requires k !in m.vals
    ensures Delete(Set(m, k, v), k) == m
  {
    WithoutLast(m.keys, k);
    assert m.vals[k := v] - {k} == m.vals;
  }

  /** Storing a key's own value again changes nothing. */
  lemma SetSame<V>(m: OMap<V>, k: string)
    requires k in m.vals
    ensures Set(m, k, m.vals[k]) == m
  {
    assert m.vals[k := m.vals[k]] == m.vals;
  }

  /** A second `set` of the same key overrides the first and keeps its place. */
  lemma SetTwice<V>(m: OMap<V>, k: string, v: V, w: V)
    ensures Set(Set(m, k, v), k, w) == Set(m, k, w)
  {
    assert m.vals[k := v][k := w] == m.vals[k := w];
  }

  /** `m.size`: the number of keys in the order equals the number of entries. */
  function Size<V>(m: OMap<V>): (n: nat)
    ensures n == |m.vals|
    ensures n == 0 <==> m.vals == map[]
  {
    SizeMatches(m.keys, m.vals);
    |m.keys|
  }

  lemma {:induction false} SizeMatches<V>(keys: seq<string>, vals: map<string, V>)
    requires Distinct(keys)
    requires forall k :: k in keys <==> k in vals
    ensures |keys| == |vals|
  {
    if keys == [] {
      assert vals.Keys == {};
    } else {
      var k := keys[|keys| - 1];
      var rest := keys[..|keys| - 1];
      assert keys == rest + [k];
      assert k !in rest;
      forall x ensures x in rest <==> x in vals - {k} {
        if x in rest {
          var i :| 0 <= i < |rest| && rest[i] == x;
          assert keys[i] == x;
        }
        if x in vals - {k} {
          assert x in keys;
          var i :| 0 <= i < |keys| && keys[i] == x;
          assert i != |keys| - 1;
          assert rest[i] == x;
        }
      }
      SizeMatches(rest, vals - {k});
    }
  }

  /** `Array.from(m.values())`: the values in insertion order of their keys. */
  function Values<V>(m: OMap<V>): (r: seq<V>)
    ensures |r| == |m.keys|
    ensures forall i :: 0 <= i < |r| ==> r[i] == m.vals[m.keys[i]]
  {
    seq(|m.keys|, i requires 0 <= i < |m.keys| => m.vals[m.keys[i]])
  }
}
