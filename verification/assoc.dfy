/** An insertion-ordered association list: the shape shared by Kotlin's
    `mutableMapOf` (a LinkedHashMap) and by a Redis hash. `Put` on a present
    key replaces the value where it stands; a new key goes to the end. */
module AssocList {
  import opened Wrappers

  datatype Entry<K, V> = Entry(key: K, value: V)

  predicate UniqueKeys<K(==,!new), V>(a: seq<Entry<K, V>>) {
    forall i, j :: 0 <= i < j < |a| ==> a[i].key != a[j].key
  }

  function Keys<K(==,!new), V>(a: seq<Entry<K, V>>): (ks: seq<K>)
    ensures |ks| == |a|
    ensures forall i :: 0 <= i < |a| ==> ks[i] == a[i].key
  {
    if a == [] then [] else [a[0].key] + Keys(a[1..])
  }

  /** `map.values.toList()`: the values in entry order. */
  function Values<K(==,!new), V>(a: seq<Entry<K, V>>): (vs: seq<V>)
    ensures |vs| == |a|
    ensures forall i :: 0 <= i < |a| ==> vs[i] == a[i].value
  {
    if a == [] then [] else [a[0].value] + Values(a[1..])
  }

  predicate HasKey<K(==,!new), V>(a: seq<Entry<K, V>>, k: K) {
    exists i :: 0 <= i < |a| && a[i].key == k
  }

  /** `map[k]`: the value stored under `k`, or `None`. */
  function Get<K(==,!new), V>(a: seq<Entry<K, V>>, k: K): (r: Option<V>)
    ensures r.Some? ==> exists i :: 0 <= i < |a| && a[i] == Entry(k, r.value)
    ensures r.None? <==> !HasKey(a, k)
  {
    if a == [] then None
    else if a[0].key == k then Some(a[0].value)
    else
      var r := Get(a[1..], k);
      assert r.None? ==> forall i :: 1 <= i < |a| ==> a[i].key == a[1..][i - 1].key;
      r
  }

  /** `map[k] = v`. */
  function Put<K(==,!new), V>(a: seq<Entry<K, V>>, k: K, v: V): (r: seq<Entry<K, V>>)
    ensures Get(r, k) == Some(v)
    ensures forall k' :: k' != k ==> Get(r, k') == Get(a, k')
  {
    if a == [] then [Entry(k, v)]
    else if a[0].key == k then [Entry(k, v)] + a[1..]
    else [a[0]] + Put(a[1..], k, v)
  }

  /** A new key is appended at the end. */
  lemma {:induction false} PutNewKey<K(!new), V>(a: seq<Entry<K, V>>, k: K, v: V)
    requires !HasKey(a, k)
    ensures Put(a, k, v) == a + [Entry(k, v)]
  {
    if a != [] {
      assert !HasKey(a[1..], k) by {
        forall i | 0 <= i < |a[1..]|
          ensures a[1..][i].key != k
        {
          assert a[1..][i] == a[i + 1];
        }
      }
      PutNewKey(a[1..], k, v);
    }
  }

  /** A present key keeps its place: the list does not grow. */
  lemma {:induction false} PutPresentKey<K(!new), V>(a: seq<Entry<K, V>>, k: K, v: V)
    requires HasKey(a, k)
    ensures |Put(a, k, v)| == |a|
  {
    if a[0].key != k {
      var i :| 0 <= i < |a| && a[i].key == k;
      assert a[1..][i - 1].key == k;
      PutPresentKey(a[1..], k, v);
    }
  }

  /** Put keeps keys unique. */
  lemma {:induction false} PutUnique<K(!new), V>(a: seq<Entry<K, V>>, k: K, v: V)
    requires UniqueKeys(a)
    ensures UniqueKeys(Put(a, k, v))
  {
    if a != [] && a[0].key != k {
      PutUnique(a[1..], k, v);
      var tail := Put(a[1..], k, v);
      forall i | 0 <= i < |tail|
        ensures tail[i].key != a[0].key
      {
        KeysOfPut(a[1..], k, v, i);
        if tail[i].key != k {
          var j :| 0 <= j < |a[1..]| && a[1..][j].key == tail[i].key;
          assert a[j + 1].key == tail[i].key;
        }
      }
    }
  }

  /** Every key after a Put is the new key or an old one. */
  lemma {:induction false} KeysOfPut<K(!new), V>(a: seq<Entry<K, V>>, k: K, v: V, i: nat)
    requires i < |Put(a, k, v)|
    ensures Put(a, k, v)[i].key == k || exists j :: 0 <= j < |a| && a[j].key == Put(a, k, v)[i].key
  {
    if a != [] && a[0].key != k && i > 0 {
      KeysOfPut(a[1..], k, v, i - 1);
      var tail := Put(a[1..], k, v);
      assert Put(a, k, v)[i] == tail[i - 1];
      if tail[i - 1].key != k {
        var j :| 0 <= j < |a[1..]| && a[1..][j].key == tail[i - 1].key;
        assert a[j + 1].key == tail[i - 1].key;
      }
    }
  }

  /** The entries whose key is not in `ks`, in their order. */
  function Without<K(==,!new), V(!new)>(a: seq<Entry<K, V>>, ks: set<K>): (r: seq<Entry<K, V>>)
    ensures forall e :: e in r <==> e in a && e.key !in ks
  {
    if a == [] then []
    else if a[0].key in ks then Without(a[1..], ks)
    else [a[0]] + Without(a[1..], ks)
  }

  /** Lookups after removing `ks`: keys in `ks` are gone, the rest unchanged. */
  lemma {:induction false} GetWithout<K(!new), V(!new)>(a: seq<Entry<K, V>>, ks: set<K>, k: K)
    ensures Get(Without(a, ks), k) == if k in ks then None else Get(a, k)
  {
    if a != [] {
      GetWithout(a[1..], ks, k);
    }
  }

  /** Removing keys keeps the remaining keys unique. */
  lemma WithoutUnique<K(!new), V(!new)>(a: seq<Entry<K, V>>, ks: set<K>)
    requires UniqueKeys(a)
    ensures UniqueKeys(Without(a, ks))
  {
    SubsequenceUnique(a, Without(a, ks), ks);
  }

  lemma {:induction false} SubsequenceUnique<K(!new), V(!new)>(a: seq<Entry<K, V>>, r: seq<Entry<K, V>>, ks: set<K>)
    requires UniqueKeys(a)
    requires r == Without(a, ks)
    ensures UniqueKeys(r)
  {
    if a != [] {
      assert UniqueKeys(a[1..]) by {
        forall i, j | 0 <= i < j < |a[1..]|
          ensures a[1..][i].key != a[1..][j].key
        {
          assert a[1..][i] == a[i + 1] && a[1..][j] == a[j + 1];
        }
      }
      var tail := Without(a[1..], ks);
      SubsequenceUnique(a[1..], tail, ks);
      if a[0].key !in ks {
        forall i | 0 <= i < |tail|
          ensures tail[i].key != a[0].key
        {
          assert tail[i] in a[1..];
          var j :| 0 <= j < |a[1..]| && a[1..][j] == tail[i];
          assert a[j + 1] == tail[i];
        }
      }
    }
  }

  /** `map.remove(k)`. */
  function Remove<K(==,!new), V(!new)>(a: seq<Entry<K, V>>, k: K): (r: seq<Entry<K, V>>)
    ensures Get(r, k) == None
    ensures forall k' :: k' != k ==> Get(r, k') == Get(a, k')
    ensures UniqueKeys(a) ==> UniqueKeys(r)
  {
    var r := Without(a, {k});
    GetWithout(a, {k}, k);
    assert forall k' :: k' != k ==> Get(r, k') == Get(a, k') by {
      forall k' | k' != k
        ensures Get(r, k') == Get(a, k')
      {
        GetWithout(a, {k}, k');
      }
    }
    if UniqueKeys(a) then
      WithoutUnique(a, {k});
      r
    else r
  }

  /** Removing keys one set after another removes their union. */
  lemma {:induction false} WithoutWithout<K(!new), V(!new)>(a: seq<Entry<K, V>>, s: set<K>, t: set<K>)
    ensures Without(Without(a, s), t) == Without(a, s + t)
  {
    if a != [] {
      WithoutWithout(a[1..], s, t);
    }
  }

  /** Removing nothing changes nothing. */
  lemma {:induction false} WithoutNone<K(!new), V(!new)>(a: seq<Entry<K, V>>)
    ensures Without(a, {}) == a
  {
    if a != [] {
      WithoutNone(a[1..]);
    }
  }

  /** Each value paired with its key, in order: the entries a
      `forEach { map[key(it)] = it }` inserts. */
  function KeyedBy<K, V>(vs: seq<V>, key: V -> K): (es: seq<Entry<K, V>>)
    ensures |es| == |vs|
    ensures forall i :: 0 <= i < |vs| ==> es[i] == Entry(key(vs[i]), vs[i])
  {
    if vs == [] then [] else [Entry(key(vs[0]), vs[0])] + KeyedBy(vs[1..], key)
  }

  /** `es.forEach { map[it.key] = it.value }`. */
  function PutAll<K(==,!new), V>(a: seq<Entry<K, V>>, es: seq<Entry<K, V>>): seq<Entry<K, V>>
    decreases |es|
  {
    if es == [] then a else PutAll(Put(a, es[0].key, es[0].value), es[1..])
  }

  /** The value the LAST entry for `k` in `es` carries, if any. */
  function GetLast<K(==), V>(es: seq<Entry<K, V>>, k: K): Option<V>
    decreases |es|
  {
    if es == [] then None
    else if GetLast(es[1..], k).Some? then GetLast(es[1..], k)
    else if es[0].key == k then Some(es[0].value)
    else None
  }

  /** After putting a list of entries, a key holds the value of its last
      entry in the list; keys the list does not mention are unchanged. */
  lemma {:induction false} GetPutAll<K(!new), V>(a: seq<Entry<K, V>>, es: seq<Entry<K, V>>, k: K)
    ensures Get(PutAll(a, es), k) == if GetLast(es, k).Some? then GetLast(es, k) else Get(a, k)
    decreases |es|
  {
    if es != [] {
      GetPutAll(Put(a, es[0].key, es[0].value), es[1..], k);
    }
  }

  /** In a list without repeated keys the last entry for a key is its only one. */
  lemma {:induction false} GetLastUnique<K(!new), V>(es: seq<Entry<K, V>>, k: K)
    requires UniqueKeys(es)
    ensures GetLast(es, k) == Get(es, k)
    decreases |es|
  {
    if es != [] {
      assert UniqueKeys(es[1..]) by {
        forall i, j | 0 <= i < j < |es[1..]|
          ensures es[1..][i].key != es[1..][j].key
        {
          assert es[1..][i] == es[i + 1] && es[1..][j] == es[j + 1];
        }
      }
      GetLastUnique(es[1..], k);
      forall i | 0 <= i < |es[1..]|
        ensures es[1..][i].key != es[0].key
      {
        assert es[1..][i] == es[i + 1];
      }
    }
  }

  /** Every stored value is listed by `Values`, and only those. */
  lemma {:induction false} ValuesAreStored<K(!new), V>(a: seq<Entry<K, V>>, k: K)
    requires Get(a, k).Some?
    ensures Get(a, k).value in Values(a)
  {
    var i :| 0 <= i < |a| && a[i] == Entry(k, Get(a, k).value);
    assert Values(a)[i] == a[i].value;
  }

  lemma {:induction false} StoredValues<K(!new), V>(a: seq<Entry<K, V>>, v: V)
    requires UniqueKeys(a)
    requires v in Values(a)
    ensures exists k :: Get(a, k) == Some(v)
  {
    var i :| 0 <= i < |a| && Values(a)[i] == v;
    GetUniqueAt(a, i);
  }

  /** In a list with unique keys, looking up the key of entry `i` finds entry `i`. */
  lemma {:induction false} GetUniqueAt<K(!new), V>(a: seq<Entry<K, V>>, i: nat)
    requires UniqueKeys(a)
    requires i < |a|
    ensures Get(a, a[i].key) == Some(a[i].value)
  {
    if i > 0 {
      assert a[0].key != a[i].key;
      assert UniqueKeys(a[1..]) by {
        forall x, y | 0 <= x < y < |a[1..]|
          ensures a[1..][x].key != a[1..][y].key
        {
          assert a[1..][x] == a[x + 1] && a[1..][y] == a[y + 1];
        }
      }
      GetUniqueAt(a[1..], i - 1);
    }
  }
}
