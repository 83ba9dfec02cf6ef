/** A JavaScript `Map<K, V>`: key/value entries kept in insertion order.
    Setting an existing key replaces its value in place; setting a new key
    appends it; deleting removes the entry and keeps the others in order.
    `Values` is `Array.from(map.values())`. */
module OrderedMap {
  import opened Wrappers

  datatype Entry<K, V> = Entry(key: K, value: V)

  /** No key occurs twice. */
  predicate Valid<K(==), V(==)>(m: seq<Entry<K, V>>) {
    forall i, j | 0 <= i < j < |m| :: m[i].key != m[j].key
  }

  /** The key is present. */
  predicate Has<K(==), V(==)>(m: seq<Entry<K, V>>, k: K) {
    exists i | 0 <= i < |m| :: m[i].key == k
  }

  function Keys<K, V>(m: seq<Entry<K, V>>): (ks: seq<K>)
    ensures |ks| == |m|
    ensures forall i | 0 <= i < |m| :: ks[i] == m[i].key
  {
    if |m| == 0 then [] else [m[0].key] + Keys(m[1..])
  }

  function Values<K, V>(m: seq<Entry<K, V>>): (vs: seq<V>)
    ensures |vs| == |m|
    ensures forall i | 0 <= i < |m| :: vs[i] == m[i].value
  {
    if |m| == 0 then [] else [m[0].value] + Values(m[1..])
  }

  /** Appending an entry appends its key. */
  lemma KeysAppend<K, V>(m: seq<Entry<K, V>>, e: Entry<K, V>)
    ensures Keys(m + [e]) == Keys(m) + [e.key]
  {
    assert forall i | 0 <= i < |m| :: (m + [e])[i] == m[i];
  }

  /** A key is present in a non-empty map when it is the first key or is
      present in the rest. */
  lemma HasCons<K, V>(m: seq<Entry<K, V>>, k: K)
    requires |m| > 0
    ensures Has(m, k) <==> m[0].key == k || Has(m[1..], k)
  {
    if Has(m, k) && m[0].key != k {
      var i :| 0 <= i < |m| && m[i].key == k;
      assert m[1..][i - 1].key == k;
    }
    if Has(m[1..], k) {
      var i :| 0 <= i < |m| - 1 && m[1..][i].key == k;
      assert m[i + 1].key == k;
    }
  }

  /** Re-attaching the first entry after appending to the rest. */
  lemma ConsAppend<T>(m: seq<T>, x: T)
    requires |m| > 0
    ensures [m[0]] + (m[1..] + [x]) == m + [x]
  {
    assert [m[0]] + (m[1..] + [x]) == ([m[0]] + m[1..]) + [x];
    assert [m[0]] + m[1..] == m;
  }

  /** `map.get(k)`: the value stored under `k`, if any. */
  function Get<K(==), V(==)>(m: seq<Entry<K, V>>, k: K): (r: Option<V>)
    ensures r.Some? <==> Has(m, k)
    ensures r.Some? ==> Entry(k, r.value) in m
  {
    if |m| == 0 then None
    else if m[0].key == k then Some(m[0].value)
    else
      HasCons(m, k);
      Get(m[1..], k)
  }

  /** `map.set(k, v)`. */
  function Set<K(==), V(==)>(m: seq<Entry<K, V>>, k: K, v: V): (r: seq<Entry<K, V>>)
    ensures Has(m, k) ==> |r| == |m| && Keys(r) == Keys(m)
    ensures !Has(m, k) ==> r == m + [Entry(k, v)]
    // the entry under k now holds v (keys being distinct, this fixes the entry
    // at k's position); the entries under other keys stay where they were
    ensures Entry(k, v) in r
    ensures forall i | 0 <= i < |m| && m[i].key != k :: r[i] == m[i]
    ensures forall e | e in r :: e == Entry(k, v) || e in m
  {
    if |m| == 0 then [Entry(k, v)]
    else if m[0].key == k then
      [Entry(k, v)] + m[1..]
    else
      var t := Set(m[1..], k, v);
      HasCons(m, k);
      assert !Has(m, k) ==> [m[0]] + t == m + [Entry(k, v)] by {
        if !Has(m, k) {
          ConsAppend(m, Entry(k, v));
        }
      }
      [m[0]] + t
  }

  /** `map.delete(k)`. */
  function Delete<K(==), V(==)>(m: seq<Entry<K, V>>, k: K): (r: seq<Entry<K, V>>)
    ensures !Has(m, k) ==> r == m
    // exactly the entries under other keys survive ...
    ensures forall e | e in r :: e in m && e.key != k
    ensures forall e | e in m && e.key != k :: e in r
    // ... and, keys being distinct, the one entry under k is cut out with the others kept in order
    ensures Valid(m) && Has(m, k) ==> Cut(m, k, r)
  {
    if |m| == 0 then []
    else
      var t := Delete(m[1..], k);
      KeepCons(m, k, t);
      if m[0].key == k then
        CutHead(m, k);
        t
      else
        CutCons(m, k, t);
        [m[0]] + t
  }

  /** `r` is `m` with one entry under `k` cut out and the rest kept in order. */
  ghost predicate Cut<K, V>(m: seq<Entry<K, V>>, k: K, r: seq<Entry<K, V>>) {
    exists i | 0 <= i < |m| && m[i].key == k :: r == m[..i] + m[i + 1..]
  }

  /** Deleting from a map that starts with `k` keeps whatever the deletion
      from the rest keeps. */
  lemma KeepCons<K, V>(m: seq<Entry<K, V>>, k: K, t: seq<Entry<K, V>>)
    requires |m| > 0
    requires forall e | e in m[1..] && e.key != k :: e in t
    ensures forall e | e in m && e.key != k :: e in (if m[0].key == k then t else [m[0]] + t)
  {
    forall e | e in m && e.key != k
      ensures e in (if m[0].key == k then t else [m[0]] + t)
    {
      if e != m[0] {
        var i :| 0 <= i < |m| && m[i] == e;
        assert m[1..][i - 1] == e;
      }
    }
  }

  /** In a valid map whose first key is `k`, the rest no longer holds `k`,
      so deleting from it changes nothing and cuts out the first entry. */
  lemma CutHead<K, V>(m: seq<Entry<K, V>>, k: K)
    requires |m| > 0 && m[0].key == k
    ensures Valid(m) ==> !Has(m[1..], k) && Cut(m, k, m[1..])
  {
    if Valid(m) {
      forall j | 0 <= j < |m| - 1
        ensures m[1..][j].key != k
      {
        assert m[1..][j] == m[j + 1];
      }
      assert m[1..] == m[..0] + m[0 + 1..];
    }
  }

  /** A cut in the rest of the map is a cut in the whole map. */
  lemma CutCons<K, V>(m: seq<Entry<K, V>>, k: K, t: seq<Entry<K, V>>)
    requires |m| > 0 && m[0].key != k
    requires Valid(m[1..]) && Has(m[1..], k) ==> Cut(m[1..], k, t)
    ensures Valid(m) && Has(m, k) ==> Cut(m, k, [m[0]] + t)
  {
    if Valid(m) && Has(m, k) {
      HasCons(m, k);
      ValidTail(m);
      var j :| 0 <= j < |m| - 1 && m[1..][j].key == k && t == m[1..][..j] + m[1..][j + 1..];
      ShiftCut(m, j, t);
      assert m[j + 1].key == k;
    }
  }

  /** The rest of a valid map is valid. */
  lemma ValidTail<K, V>(m: seq<Entry<K, V>>)
    requires |m| > 0 && Valid(m)
    ensures Valid(m[1..])
  {
    forall i, j | 0 <= i < j < |m| - 1
      ensures m[1..][i].key != m[1..][j].key
    {
      assert m[1..][i] == m[i + 1] && m[1..][j] == m[j + 1];
    }
  }

  /** Cutting index `j` of the rest is cutting index `j + 1` of the whole. */
  lemma ShiftCut<T>(m: seq<T>, j: nat, t: seq<T>)
    requires j < |m| - 1 && t == m[1..][..j] + m[1..][j + 1..]
    ensures [m[0]] + t == m[..j + 1] + m[j + 2..]
  {
    assert m[1..][..j] == m[1..j + 1] && m[1..][j + 1..] == m[j + 2..];
    assert [m[0]] + m[1..j + 1] == m[..j + 1];
  }

  /** Membership of an entry in a valid map is decided by `Get`. */
  lemma EntryInIffGet<K, V>(m: seq<Entry<K, V>>, k: K, v: V)
    requires Valid(m)
    ensures Entry(k, v) in m <==> Get(m, k) == Some(v)
  {
    if Entry(k, v) in m {
      var i :| 0 <= i < |m| && m[i] == Entry(k, v);
      var w := Get(m, k).value;
      var j :| 0 <= j < |m| && m[j] == Entry(k, w);
      assert i == j;
    }
  }

  /** `set` keeps the keys distinct. */
  lemma SetValid<K, V>(m: seq<Entry<K, V>>, k: K, v: V)
    requires Valid(m)
    ensures Valid(Set(m, k, v))
  {
    var r := Set(m, k, v);
    if Has(m, k) {
      forall i, j | 0 <= i < j < |r| ensures r[i].key != r[j].key {
        assert Keys(r)[i] == Keys(m)[i] && Keys(r)[j] == Keys(m)[j];
      }
    }
  }

  /** In a valid map, `set(k, v)` puts `v` at the position `k` already had. */
  lemma SetReplaces<K, V>(m: seq<Entry<K, V>>, k: K, v: V, i: nat)
    requires Valid(m) && i < |m| && m[i].key == k
    ensures Set(m, k, v)[i] == Entry(k, v)
  {
    assert Has(m, k);
    var r := Set(m, k, v);
    var j :| 0 <= j < |r| && r[j] == Entry(k, v);
    assert m[j].key == k by {
      assert Keys(r) == Keys(m);
      assert Keys(r)[j] == r[j].key;
    }
    assert i == j;
  }

  /** `set(k, v)` then `get(k)` yields `v`; every other key reads as before. */
  lemma {:induction false} GetSet<K, V>(m: seq<Entry<K, V>>, k: K, v: V, k': K)
    ensures Get(Set(m, k, v), k') == if k' == k then Some(v) else Get(m, k')
  {
    if |m| > 0 && m[0].key != k {
      GetSet(m[1..], k, v, k');
      assert ([m[0]] + Set(m[1..], k, v))[1..] == Set(m[1..], k, v);
    }
  }

  /** `delete` keeps the keys distinct. */
  lemma {:induction false} DeleteValid<K, V>(m: seq<Entry<K, V>>, k: K)
    requires Valid(m)
    ensures Valid(Delete(m, k))
  {
    if |m| > 0 && m[0].key != k {
      DeleteValid(m[1..], k);
      var t := Delete(m[1..], k);
      forall e | e in t ensures e.key != m[0].key {
        var i :| 0 <= i < |m| - 1 && m[1..][i] == e;
        assert m[i + 1] == e;
      }
    } else if |m| > 0 {
      DeleteValid(m[1..], k);
    }
  }

  /** After `delete(k)`, `get(k)` is absent and every other key reads as before. */
  lemma {:induction false} GetDelete<K, V>(m: seq<Entry<K, V>>, k: K, k': K)
    ensures Get(Delete(m, k), k') == if k' == k then None else Get(m, k')
  {
    if |m| > 0 {
      GetDelete(m[1..], k, k');
      if m[0].key != k {
        assert ([m[0]] + Delete(m[1..], k))[1..] == Delete(m[1..], k);
      }
    }
  }

  /** `delete(k)` keeps every entry under another key. */
  lemma {:induction false} DeleteKeeps<K, V>(m: seq<Entry<K, V>>, k: K, e: Entry<K, V>)
    requires e in m && e.key != k
    ensures e in Delete(m, k)
  {
    if m[0] != e {
      DeleteKeeps(m[1..], k, e);
    }
  }
}
