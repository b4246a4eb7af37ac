/** An insertion-ordered map with the semantics of a JavaScript `Map`:
    iteration visits keys in the order they were first inserted, `set` on a
    key already present replaces its value in place (keeping its position),
    and `delete` removes the key's entry without disturbing the others. */
module OrderedMap {
  import opened Wrappers

  /** One key/value pair of the map. */
  datatype Entry<K, V> = Entry(key: K, value: V)

  /** The map is the sequence of its entries in iteration order. */
  type OMap<K, V> = seq<Entry<K, V>>

  /** No key occurs twice. Every map built from the empty map by Set and Delete has this shape. */
  ghost predicate Valid<K, V>(m: OMap<K, V>) {
    forall i, j :: 0 <= i < j < |m| ==> m[i].key != m[j].key
  }

  /** The keys in iteration order. */
  function Keys<K(==), V>(m: OMap<K, V>): seq<K> {
    seq(|m|, i requires 0 <= i < |m| => m[i].key)
  }

  /** The set of keys. */
  function KeySet<K(==), V>(m: OMap<K, V>): set<K> {
    set i | 0 <= i < |m| :: m[i].key
  }

  /** Position of the first entry with key `k`, or `|m|` if there is none. */
  function IndexOf<K(==), V>(m: OMap<K, V>, k: K): (i: nat)
    ensures i <= |m|
    ensures i < |m| ==> m[i].key == k
    ensures forall j :: 0 <= j < i ==> m[j].key != k
  {
    if |m| == 0 then 0
    else if m[0].key == k then 0
    else 1 + IndexOf(m[1..], k)
  }

  /** `Map.prototype.has`. */
  predicate Has<K(==), V>(m: OMap<K, V>, k: K) {
    IndexOf(m, k) < |m|
  }

  /** `Map.prototype.get`, with `None` for `undefined`. */
  function Get<K(==), V>(m: OMap<K, V>, k: K): Option<V> {
    var i := IndexOf(m, k);
    if i < |m| then Some(m[i].value) else None
  }

  /** The first entry with key `k` sits at `j`. */
  lemma IndexOfAt<K, V>(m: OMap<K, V>, k: K, j: nat)
    requires j < |m| && m[j].key == k
    requires forall l :: 0 <= l < j ==> m[l].key != k
    ensures IndexOf(m, k) == j
  {
  }

  /** `Has` is membership of the key set, and `Get` finds every key of a valid map. */
  lemma HasIsMembership<K, V>(m: OMap<K, V>, k: K)
    ensures Has(m, k) <==> k in KeySet(m)
    ensures Has(m, k) <==> Get(m, k).Some?
  {
    if k in KeySet(m) {
      var j :| 0 <= j < |m| && m[j].key == k;
      assert IndexOf(m, k) <= j;
    }
  }

  /** In a valid map the entry at position `j` is the one `Get` finds. */
  lemma GetAtPosition<K, V>(m: OMap<K, V>, j: nat)
    requires Valid(m) && j < |m|
    ensures IndexOf(m, m[j].key) == j
    ensures Get(m, m[j].key) == Some(m[j].value)
  {
    IndexOfAt(m, m[j].key, j);
  }

  /** Overwriting or appending entries with key `k` leaves every other key's lookup as it was. */
  lemma WriteKeepsOtherKeys<K, V>(m: OMap<K, V>, r: OMap<K, V>, k: K, x: K)
    requires x != k && |m| <= |r|
    requires forall j :: 0 <= j < |m| ==> r[j] == m[j] || r[j].key == k
    requires forall j :: |m| <= j < |r| ==> r[j].key == k
    requires forall j :: 0 <= j < |m| && m[j].key != k ==> r[j] == m[j]
    ensures Get(r, x) == Get(m, x)
  {
    var ix := IndexOf(m, x);
    if ix < |m| {
      IndexOfAt(r, x, ix);
    } else {
      assert forall l :: 0 <= l < |r| ==> r[l].key != x;
    }
  }

  /** `Map.prototype.set`: replace in place when the key is present, append otherwise. */
  function Set<K(==, !new), V>(m: OMap<K, V>, k: K, v: V): (r: OMap<K, V>)
    ensures Get(r, k) == Some(v)
    ensures forall x :: x != k ==> Get(r, x) == Get(m, x)
    ensures Has(m, k) ==> |r| == |m| && Keys(r) == Keys(m) && r[IndexOf(m, k)] == Entry(k, v)
    ensures |m| <= |r| && forall j :: 0 <= j < |m| && j != IndexOf(m, k) ==> r[j] == m[j]
    ensures !Has(m, k) ==> r == m + [Entry(k, v)]
    ensures Valid(m) ==> Valid(r)
  {
    var i := IndexOf(m, k);
    var r := if i < |m| then m[i := Entry(k, v)] else m + [Entry(k, v)];
    assert Get(r, k) == Some(v) by {
      IndexOfAt(r, k, i);
    }
    forall x | x != k
      ensures Get(r, x) == Get(m, x)
    {
      WriteKeepsOtherKeys(m, r, k, x);
    }
    r
  }

  /** `Map.prototype.delete`: drop the entry with key `k`, if any, keeping the others in order. */
  function Delete<K(==), V>(m: OMap<K, V>, k: K): (r: OMap<K, V>)
    ensures !Has(m, k) ==> r == m
    ensures Has(m, k) ==>
              && |r| == |m| - 1
              && (forall j :: 0 <= j < IndexOf(m, k) ==> r[j] == m[j])
              && (forall j :: IndexOf(m, k) < j < |m| ==> r[j - 1] == m[j])
  {
    var i := IndexOf(m, k);
    if i < |m| then m[..i] + m[i + 1..] else m
  }

  /** After deleting `k` from a valid map, `k` is gone, every other key reads as before, and the map
      is still valid. */
  lemma GetAfterDelete<K(!new), V>(m: OMap<K, V>, k: K)
    requires Valid(m)
    ensures Valid(Delete(m, k))
    ensures Get(Delete(m, k), k) == None
    ensures forall x :: x != k ==> Get(Delete(m, k), x) == Get(m, x)
  {
    var r := Delete(m, k);
    var i := IndexOf(m, k);
    if i < |m| {
      assert forall l :: 0 <= l < |r| ==> r[l].key != k by {
        forall l | 0 <= l < |r| ensures r[l].key != k {
          if l >= i { assert r[l] == m[l + 1]; }
        }
      }
      forall x | x != k
        ensures Get(r, x) == Get(m, x)
      {
        var ix := IndexOf(m, x);
        if ix < i {
          IndexOfAt(r, x, ix);
        } else if ix < |m| {
          assert ix != i;
          assert r[ix - 1] == m[ix];
          IndexOfAt(r, x, ix - 1);
        } else {
          assert forall l :: 0 <= l < |r| ==> r[l].key != x by {
            forall l | 0 <= l < |r| ensures r[l].key != x {
              if l >= i { assert r[l] == m[l + 1]; }
            }
          }
        }
      }
      forall a, c | 0 <= a < c < |r|
        ensures r[a].key != r[c].key
      {
        var a' := if a < i then a else a + 1;
        var c' := if c < i then c else c + 1;
        assert r[a] == m[a'] && r[c] == m[c'];
      }
    }
  }

  /** Two maps with the same key sequence find every key at the same position. */
  lemma {:induction false} SameKeysSameIndex<K, V, W>(m: OMap<K, V>, n: OMap<K, W>, k: K)
    requires |m| == |n|
    requires forall j :: 0 <= j < |m| ==> m[j].key == n[j].key
    ensures IndexOf(m, k) == IndexOf(n, k)
  {
    if |m| > 0 && m[0].key != k {
      SameKeysSameIndex(m[1..], n[1..], k);
    }
  }

  /** Maps with the same key sequence have the same key set. */
  lemma SameKeysSameKeySet<K, V, W>(m: OMap<K, V>, n: OMap<K, W>)
    requires |m| == |n|
    requires forall j :: 0 <= j < |m| ==> m[j].key == n[j].key
    ensures KeySet(m) == KeySet(n)
  {
    forall x | x in KeySet(m) ensures x in KeySet(n) {
      var j :| 0 <= j < |m| && m[j].key == x;
      assert n[j].key == x;
    }
    forall x | x in KeySet(n) ensures x in KeySet(m) {
      var j :| 0 <= j < |n| && n[j].key == x;
      assert m[j].key == x;
    }
  }

  /** The map a valid ordered map denotes, forgetting the order. */
  ghost function ToMap<K, V>(m: OMap<K, V>): map<K, V> {
    map k | k in KeySet(m) && Has(m, k) :: Get(m, k).value
  }

  /** Set agrees with map update. */
  lemma SetIsMapUpdate<K(!new), V>(m: OMap<K, V>, k: K, v: V)
    ensures ToMap(Set(m, k, v)) == ToMap(m)[k := v]
  {
    var r := Set(m, k, v);
    forall x
      ensures x in ToMap(r) <==> x in ToMap(m)[k := v]
    {
      HasIsMembership(r, x);
      HasIsMembership(m, x);
    }
  }

  /** Delete agrees with map key removal. */
  lemma DeleteIsMapRemoval<K(!new), V>(m: OMap<K, V>, k: K)
    requires Valid(m)
    ensures ToMap(Delete(m, k)) == ToMap(m) - {k}
  {
    var r := Delete(m, k);
    GetAfterDelete(m, k);
    forall x
      ensures x in ToMap(r) <==> x in ToMap(m) - {k}
    {
      HasIsMembership(r, x);
      HasIsMembership(m, x);
    }
  }

  /** Deleting a key of a valid map removes exactly that key from the key set. */
  lemma DeleteKeySet<K(!new), V>(m: OMap<K, V>, k: K)
    requires Valid(m)
    ensures KeySet(Delete(m, k)) == KeySet(m) - {k}
  {
    DeleteIsMapRemoval(m, k);
    assert KeySet(Delete(m, k)) == ToMap(Delete(m, k)).Keys;
    assert KeySet(m) == ToMap(m).Keys;
  }
}
