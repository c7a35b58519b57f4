/** java.util.LinkedHashMap as a value: the distinct keys in insertion order
    plus the mapping itself. `Put` of a new key appends it, `Put` of a present
    key keeps its position, `Remove` unlinks the key and keeps the others' order. */
module LinkedMaps {
  import opened Common

  datatype LinkedMap<K, V> = LinkedMap(keys: seq<K>, m: map<K, V>)

  ghost predicate Distinct<K>(ks: seq<K>) {
    forall i, j :: 0 <= i < j < |ks| ==> ks[i] != ks[j]
  }

  /** The key sequence lists every key of the map exactly once. */
  ghost predicate Valid<K, V>(lm: LinkedMap<K, V>) {
    && Distinct(lm.keys)
    && lm.m.Keys == set k | k in lm.keys
  }

  function Empty<K, V>(): (r: LinkedMap<K, V>)
    ensures Valid(r) && r.keys == [] && r.m == map[]
  {
    LinkedMap([], map[])
  }

  /** First position at or after `from` of a key in a key sequence. */
  function IndexFrom<K(==)>(ks: seq<K>, k: K, from: nat): (i: nat)
    requires from <= |ks| && exists j :: from <= j < |ks| && ks[j] == k
    ensures from <= i < |ks| && ks[i] == k && forall j :: from <= j < i ==> ks[j] != k
    decreases |ks| - from
  {
    if ks[from] == k then from else IndexFrom(ks, k, from + 1)
  }

  /** Position of a key in a key sequence. */
  function IndexOf<K(==)>(ks: seq<K>, k: K): (i: nat)
    requires k in ks
    ensures i < |ks| && ks[i] == k && forall j :: 0 <= j < i ==> ks[j] != k
  {
    IndexFrom(ks, k, 0)
  }

  /** LinkedHashMap.put */
  function Put<K, V>(lm: LinkedMap<K, V>, k: K, v: V): (r: LinkedMap<K, V>)
    requires Valid(lm)
    ensures Valid(r)
  {
    LinkedMap(if k in lm.m then lm.keys else lm.keys + [k], lm.m[k := v])
  }

  /** LinkedHashMap.remove: the key is unlinked, the other keys keep their order. */
  function Remove<K, V>(lm: LinkedMap<K, V>, k: K): (r: LinkedMap<K, V>)
    requires Valid(lm)
    ensures Valid(r)
    ensures r.m == lm.m - {k}
    ensures k !in lm.m ==> r == lm
    ensures k in lm.m ==> r.keys == lm.keys[..IndexOf(lm.keys, k)] + lm.keys[IndexOf(lm.keys, k) + 1..]
  {
    if k in lm.m then
      var i := IndexOf(lm.keys, k);
      RemoveAt(lm, i);
      LinkedMap(lm.keys[..i] + lm.keys[i + 1..], lm.m - {k})
    else
      lm
  }

  /** Unlinking the key at position `i` leaves a valid map without that key. */
  lemma RemoveAt<K, V>(lm: LinkedMap<K, V>, i: nat)
    requires Valid(lm) && i < |lm.keys|
    ensures Valid(LinkedMap(lm.keys[..i] + lm.keys[i + 1..], lm.m - {lm.keys[i]}))
  {
    var k, ks := lm.keys[i], lm.keys[..i] + lm.keys[i + 1..];
    assert forall a :: 0 <= a < |ks| ==> ks[a] == lm.keys[if a < i then a else a + 1];
    forall x | x in lm.keys && x != k ensures x in ks {
      var j :| 0 <= j < |lm.keys| && lm.keys[j] == x;
      if j < i { assert ks[j] == x; } else { assert ks[j - 1] == x; }
    }
    forall x | x in ks ensures x in lm.keys && x != k {
      var a :| 0 <= a < |ks| && ks[a] == x;
    }
  }

  /** LinkedHashMap.get */
  function Get<K, V>(lm: LinkedMap<K, V>, k: K): (r: Option<V>)
    ensures r.Some? <==> k in lm.m
    ensures r.Some? ==> r.value == lm.m[k]
  {
    if k in lm.m then Some(lm.m[k]) else None
  }

  /** LinkedHashMap.values(), in insertion order. */
  function Values<K, V>(lm: LinkedMap<K, V>): (vs: seq<V>)
    requires Valid(lm)
    ensures |vs| == |lm.keys|
    ensures forall i :: 0 <= i < |vs| ==> vs[i] == lm.m[lm.keys[i]]
  {
    seq(|lm.keys|, i requires 0 <= i < |lm.keys| => lm.m[lm.keys[i]])
  }

  /** `put` of every pair, in list order. */
  function PutAll<K, V>(lm: LinkedMap<K, V>, ks: seq<K>, vs: seq<V>): (r: LinkedMap<K, V>)
    requires Valid(lm) && |ks| == |vs|
    ensures Valid(r)
    decreases |ks|
  {
    if ks == [] then lm
    else Put(PutAll(lm, ks[..|ks| - 1], vs[..|vs| - 1]), ks[|ks| - 1], vs[|vs| - 1])
  }

  /** Putting one more key after a prefix of the keys. */
  lemma PutAllStep<K, V>(lm: LinkedMap<K, V>, ks: seq<K>, vs: seq<V>, i: nat)
    requires Valid(lm) && |ks| == |vs| && i < |ks|
    ensures PutAll(lm, ks[..i + 1], vs[..i + 1]) == Put(PutAll(lm, ks[..i], vs[..i]), ks[i], vs[i])
  {
    assert ks[..i + 1][..i] == ks[..i] && vs[..i + 1][..i] == vs[..i];
  }

  /** The distinct elements of a sequence, each at its first occurrence. */
  function Firsts<K(==)>(ks: seq<K>): (r: seq<K>)
    decreases |ks|
  {
    if ks == [] then []
    else
      var init := ks[..|ks| - 1];
      Firsts(init) + if ks[|ks| - 1] in init then [] else [ks[|ks| - 1]]
  }

  lemma {:induction false} FirstsIsDedup<K>(ks: seq<K>)
    ensures Distinct(Firsts(ks))
    ensures forall k :: k in Firsts(ks) <==> k in ks
    decreases |ks|
  {
    if ks != [] {
      var init := ks[..|ks| - 1];
      FirstsIsDedup(init);
      assert ks == init + [ks[|ks| - 1]];
    }
  }

  /** Putting the pairs of a list into an empty map keeps one key per distinct
      name, at the position of its first occurrence. */
  lemma {:induction false} PutAllKeys<K, V>(ks: seq<K>, vs: seq<V>)
    requires |ks| == |vs|
    ensures PutAll(Empty(), ks, vs).keys == Firsts(ks)
    ensures forall k :: k in PutAll(Empty(), ks, vs).m <==> k in ks
    decreases |ks|
  {
    if ks != [] {
      var init := ks[..|ks| - 1];
      PutAllKeys(init, vs[..|vs| - 1]);
      assert ks == init + [ks[|ks| - 1]];
    }
  }

  /** ... and the value stored under a name is the one of its last occurrence. */
  lemma {:induction false} PutAllLastWins<K, V>(ks: seq<K>, vs: seq<V>, i: nat)
    requires |ks| == |vs| && i < |ks|
    requires ks[i] !in ks[i + 1..]
    ensures ks[i] in PutAll(Empty(), ks, vs).m
    ensures PutAll(Empty(), ks, vs).m[ks[i]] == vs[i]
    decreases |ks|
  {
    var n := |ks|;
    var init, vinit := ks[..n - 1], vs[..n - 1];
    assert PutAll(Empty(), ks, vs) == Put(PutAll(Empty(), init, vinit), ks[n - 1], vs[n - 1]);
    if i < n - 1 {
      assert ks[n - 1] == ks[i + 1..][n - 2 - i];
      assert ks[n - 1] != ks[i];
      assert init[i + 1..] == ks[i + 1..][..n - 2 - i];
      assert ks[i] !in init[i + 1..];
      PutAllLastWins(init, vinit, i);
    }
  }

  /** What `remove(p)` followed by `put(q, v)` does to the order, for a present `p`:
      `q` lands at the end unless it was another present key, which keeps its place. */
  lemma RemoveThenPut<K, V>(lm: LinkedMap<K, V>, p: K, q: K, v: V)
    requires Valid(lm) && p in lm.m
    ensures var rest := lm.keys[..IndexOf(lm.keys, p)] + lm.keys[IndexOf(lm.keys, p) + 1..];
      && (q == p || q !in lm.m ==> Put(Remove(lm, p), q, v).keys == rest + [q])
      && (q != p && q in lm.m ==> Put(Remove(lm, p), q, v).keys == rest)
    ensures Put(Remove(lm, p), q, v).m == (lm.m - {p})[q := v]
  {
  }
}
