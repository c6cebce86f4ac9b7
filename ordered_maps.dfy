/** A finite map that remembers insertion order, as a JavaScript `Map` (and a plain object
    with non-numeric keys) does: `set` on a new key appends it, `set` on an existing key
    replaces the value and keeps the key's position, and iteration follows that order. */
module OrderedMaps {
  import opened Wrappers

  datatype OrderedMap<K, V> = OrderedMap(entries: seq<(K, V)>)

  function Empty<K, V>(): OrderedMap<K, V> { OrderedMap([]) }

  function Keys<K, V>(m: OrderedMap<K, V>): (ks: seq<K>)
    ensures |ks| == |m.entries|
    ensures forall i :: 0 <= i < |ks| ==> ks[i] == m.entries[i].0
  {
    seq(|m.entries|, i requires 0 <= i < |m.entries| => m.entries[i].0)
  }

  /** The values, in iteration order (`Map.prototype.forEach`). */
  function Values<K, V>(m: OrderedMap<K, V>): (vs: seq<V>)
    ensures |vs| == |m.entries|
    ensures forall i :: 0 <= i < |vs| ==> vs[i] == m.entries[i].1
  {
    seq(|m.entries|, i requires 0 <= i < |m.entries| => m.entries[i].1)
  }

  /** No key occurs twice. */
  ghost predicate Valid<K, V>(m: OrderedMap<K, V>)
  {
    forall i, j :: 0 <= i < j < |m.entries| ==> m.entries[i].0 != m.entries[j].0
  }

  /** Position of the key `k`, if present. */
  function Find<K(==), V>(entries: seq<(K, V)>, k: K): (r: Option<nat>)
    ensures r.Some? ==> r.value < |entries| && entries[r.value].0 == k
    ensures r.Some? ==> forall j :: 0 <= j < r.value ==> entries[j].0 != k
    ensures r.None? ==> forall j :: 0 <= j < |entries| ==> entries[j].0 != k
  {
    if entries == [] then None
    else if entries[0].0 == k then Some(0)
    else match Find(entries[1..], k)
      case None => None
      case Some(i) => Some(i + 1)
  }

  /** `map.get(k)`: the value stored under `k`, or nothing (`undefined`). */
  function Get<K(==), V>(m: OrderedMap<K, V>, k: K): (r: Option<V>)
    ensures r.Some? <==> k in Keys(m)
    ensures r.Some? ==> exists i :: 0 <= i < |m.entries| && m.entries[i] == (k, r.value)
  {
    match Find(m.entries, k)
    case None => None
    case Some(i) => Some(m.entries[i].1)
  }

  /** `map.set(k, v)`. */
  function Set<K(==,!new), V>(m: OrderedMap<K, V>, k: K, v: V): (r: OrderedMap<K, V>)
    ensures Get(r, k) == Some(v)
    ensures forall k' :: k' != k ==> Get(r, k') == Get(m, k')
    ensures Keys(r) == if k in Keys(m) then Keys(m) else Keys(m) + [k]
    ensures Valid(m) ==> Valid(r)
  {
    match Find(m.entries, k)
    case None =>
      var r := OrderedMap(m.entries + [(k, v)]);
      FindAppendNew(m.entries, (k, v));
      assert forall k' :: k' != k ==> Find(r.entries, k') == Find(m.entries, k') by {
        forall k' | k' != k ensures Find(r.entries, k') == Find(m.entries, k') {
          FindAppend(m.entries, k', (k, v));
        }
      }
      r
    case Some(i) =>
      var r := OrderedMap(m.entries[i := (k, v)]);
      assert Keys(r) == Keys(m);
      assert forall k' :: Find(r.entries, k') == Find(m.entries, k') by {
        forall k' ensures Find(r.entries, k') == Find(m.entries, k') {
          FindSameKeys(r.entries, m.entries, k');
        }
      }
      r
  }

  lemma {:induction false} FindAppend<K, V>(entries: seq<(K, V)>, k: K, e: (K, V))
    requires e.0 != k
    ensures Find(entries + [e], k) == Find(entries, k)
  {
    if entries != [] {
      assert (entries + [e])[1..] == entries[1..] + [e];
      if entries[0].0 != k {
        FindAppend(entries[1..], k, e);
      }
    }
  }

  lemma {:induction false} FindSameKeys<K, V>(a: seq<(K, V)>, b: seq<(K, V)>, k: K)
    requires |a| == |b|
    requires forall i :: 0 <= i < |a| ==> a[i].0 == b[i].0
    ensures Find(a, k) == Find(b, k)
  {
    if a != [] && a[0].0 != k {
      FindSameKeys(a[1..], b[1..], k);
    }
  }

  lemma {:induction false} FindAppendNew<K, V>(entries: seq<(K, V)>, e: (K, V))
    requires forall j :: 0 <= j < |entries| ==> entries[j].0 != e.0
    ensures Find(entries + [e], e.0) == Some(|entries|)
  {
    if entries != [] {
      assert (entries + [e])[1..] == entries[1..] + [e];
      FindAppendNew(entries[1..], e);
    }
  }
}
