/**
 * PHP arrays keep insertion order. An ordered map is a sequence of (key, value)
 * pairs; assignment `$m[$k] = $v` replaces the value in place when the key is
 * present and appends the pair otherwise, and `unset($m[$k])` drops the key.
 */
module OrderedMap {
  import opened Base

  type OMap<K, V> = seq<(K, V)>

  predicate HasKey<K(==), V>(m: OMap<K, V>, k: K) {
    exists i | 0 <= i < |m| :: m[i].0 == k
  }

  function Keys<K, V>(m: OMap<K, V>): (ks: seq<K>)
    ensures |ks| == |m|
    ensures forall i :: 0 <= i < |m| ==> ks[i] == m[i].0
  {
    seq(|m|, i requires 0 <= i < |m| => m[i].0)
  }

  /** No key occurs twice: what every PHP array satisfies. */
  predicate UniqueKeys<K(==), V>(m: OMap<K, V>) {
    forall i, j :: 0 <= i < j < |m| ==> m[i].0 != m[j].0
  }

  /** `$m[$k] ?? null`: the value of the first pair with key k. */
  function Get<K(==), V>(m: OMap<K, V>, k: K): (r: Option<V>)
    ensures r.None? <==> !HasKey(m, k)
    ensures r.Some? ==> exists i | 0 <= i < |m| :: m[i] == (k, r.value)
  {
    if m == [] then None
    else if m[0].0 == k then Some(m[0].1)
    else
      var r := Get(m[1..], k);
      assert r.Some? ==> exists i | 0 <= i < |m| - 1 :: m[1..][i] == (k, r.value);
      r
  }

  /** `$m[$k] = $v`. */
  function Put<K(==), V>(m: OMap<K, V>, k: K, v: V): (r: OMap<K, V>)
  {
    if m == [] then [(k, v)]
    else if m[0].0 == k then [(k, v)] + m[1..]
    else [m[0]] + Put(m[1..], k, v)
  }

  /** `unset($m[$k])`. */
  function Remove<K(==), V>(m: OMap<K, V>, k: K): (r: OMap<K, V>)
  {
    if m == [] then []
    else if m[0].0 == k then Remove(m[1..], k)
    else [m[0]] + Remove(m[1..], k)
  }

  lemma {:induction false} GetPut<K, V>(m: OMap<K, V>, k: K, v: V, k': K)
    ensures Get(Put(m, k, v), k') == if k' == k then Some(v) else Get(m, k')
  {
    if m != [] && m[0].0 != k {
      GetPut(m[1..], k, v, k');
    }
  }

  lemma {:induction false} GetRemove<K, V>(m: OMap<K, V>, k: K, k': K)
    ensures Get(Remove(m, k), k') == if k' == k then None else Get(m, k')
  {
    if m != [] {
      GetRemove(m[1..], k, k');
    }
  }

  /** Assignment keeps the position of an existing key and appends a new one. */
  lemma {:induction false} PutShape<K, V>(m: OMap<K, V>, k: K, v: V)
    ensures HasKey(m, k) ==> |Put(m, k, v)| == |m| && Keys(Put(m, k, v)) == Keys(m)
    ensures !HasKey(m, k) ==> Put(m, k, v) == m + [(k, v)]
  {
    if m != [] && m[0].0 != k {
      PutShape(m[1..], k, v);
      assert HasKey(m, k) ==> HasKey(m[1..], k) by {
        if HasKey(m, k) {
          var i :| 0 <= i < |m| && m[i].0 == k;
          assert m[1..][i - 1].0 == k;
        }
      }
      assert !HasKey(m, k) ==> !HasKey(m[1..], k) by {
        if HasKey(m[1..], k) {
          var i :| 0 <= i < |m[1..]| && m[1..][i].0 == k;
          assert m[i + 1].0 == k;
        }
      }
    }
  }

  lemma {:induction false} PutUnique<K, V>(m: OMap<K, V>, k: K, v: V)
    requires UniqueKeys(m)
    ensures UniqueKeys(Put(m, k, v))
  {
    PutShape(m, k, v);
    if HasKey(m, k) {
      var ks := Keys(Put(m, k, v));
      assert forall i :: 0 <= i < |m| ==> ks[i] == m[i].0;
    } else {
      assert forall i :: 0 <= i < |m| ==> m[i].0 != k;
    }
  }

  lemma {:induction false} RemoveUnique<K, V>(m: OMap<K, V>, k: K)
    requires UniqueKeys(m)
    ensures UniqueKeys(Remove(m, k)) && !HasKey(Remove(m, k), k)
  {
    if m != [] {
      RemoveUnique(m[1..], k);
      if m[0].0 != k {
        var r := Remove(m[1..], k);
        forall i | 0 <= i < |r| ensures r[i].0 != m[0].0 {
          GetRemove(m[1..], k, r[i].0);
          assert HasKey(r, r[i].0);
          assert Get(m[1..], r[i].0).Some?;
          var j :| 0 <= j < |m[1..]| && m[1..][j].0 == r[i].0;
          assert m[j + 1].0 == r[i].0;
        }
        GetRemove(m, k, k);
      }
    }
  }

  /** Two maps with the same key sequence have the same keys and are both duplicate-free or both not. */
  lemma SameKeys<K, V, W>(a: OMap<K, V>, b: OMap<K, W>)
    requires Keys(a) == Keys(b)
    ensures forall k :: HasKey(a, k) <==> HasKey(b, k)
    ensures UniqueKeys(a) <==> UniqueKeys(b)
  {
    assert forall i :: 0 <= i < |a| ==> a[i].0 == Keys(a)[i] == b[i].0;
  }
}
