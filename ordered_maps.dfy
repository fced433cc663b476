/**
 * PHP's ordered arrays with string (or other non-numeric) keys, as sequences
 * of key/value pairs. A PHP array never holds a key twice (`UniqueKeys`).
 */
module OrderedMaps {
  import opened Wrappers

  type OrderedMap<K, V> = seq<(K, V)>

  /** `array_keys($m)`. */
  function Keys<K, V>(m: OrderedMap<K, V>): (ks: seq<K>)
    ensures |ks| == |m| && forall i :: 0 <= i < |m| ==> ks[i] == m[i].0
  {
    seq(|m|, i requires 0 <= i < |m| => m[i].0)
  }

  ghost predicate UniqueKeys<K, V>(m: OrderedMap<K, V>)
  {
    forall i, j :: 0 <= i < j < |m| ==> m[i].0 != m[j].0
  }

  /** `$m[$k]` when `isset`, as an option. */
  function Get<K(==), V>(m: OrderedMap<K, V>, k: K): (r: Option<V>)
    ensures r.Some? <==> k in Keys(m)
    ensures r.Some? ==> (k, r.value) in m
  {
    if m == [] then None
    else if m[0].0 == k then Some(m[0].1)
    else
      assert k in Keys(m) <==> k in Keys(m[1..]) by {
        assert Keys(m) == [m[0].0] + Keys(m[1..]);
      }
      Get(m[1..], k)
  }

  /** `$m[$k] = $v`: replaces the value in place if `k` is a key, appends the pair otherwise. */
  function Put<K(==), V>(m: OrderedMap<K, V>, k: K, v: V): (r: OrderedMap<K, V>)
    ensures k !in Keys(m) ==> r == m + [(k, v)]
    ensures k in Keys(m) ==> |r| == |m| && Keys(r) == Keys(m)
    ensures k in Keys(m) ==> forall j :: 0 <= j < |m| ==> r[j] == if m[j].0 == k then (k, v) else m[j]
  {
    if k in Keys(m) then seq(|m|, j requires 0 <= j < |m| => if m[j].0 == k then (k, v) else m[j])
    else m + [(k, v)]
  }

  /** Writing to the key of the last pair replaces just that pair. */
  lemma PutLast<K, V>(m: OrderedMap<K, V>, k: K, old_v: V, v: V)
    requires k !in Keys(m)
    ensures Put(m + [(k, old_v)], k, v) == m + [(k, v)]
  {
    assert Keys(m + [(k, old_v)])[|m|] == k;
  }

  /** The value stored under the key of the last pair, when no earlier pair has that key. */
  lemma GetLast<K, V>(m: OrderedMap<K, V>, k: K, v: V)
    requires k !in Keys(m)
    ensures Get(m + [(k, v)], k) == Some(v)
  {
    if m != [] {
      assert (m + [(k, v)])[1..] == m[1..] + [(k, v)];
      assert k != m[0].0;
      assert k !in Keys(m[1..]) by {
        assert Keys(m) == [m[0].0] + Keys(m[1..]);
      }
      GetLast(m[1..], k, v);
    }
  }

  /** In an array without repeated keys, each key finds the value paired with it. */
  lemma {:induction false} GetAt<K, V>(m: OrderedMap<K, V>, i: nat)
    requires UniqueKeys(m) && i < |m|
    ensures Get(m, m[i].0) == Some(m[i].1)
  {
    if i > 0 {
      assert m[0].0 != m[i].0;
      assert m[1..][i - 1] == m[i];
      GetAt(m[1..], i - 1);
    }
  }

  /** A pair appended under another key does not change what `k` finds. */
  lemma {:induction false} GetAppendOther<K, V>(m: OrderedMap<K, V>, k: K, k': K, v: V)
    requires k != k'
    ensures Get(m + [(k', v)], k) == Get(m, k)
  {
    if m != [] {
      assert (m + [(k', v)])[1..] == m[1..] + [(k', v)];
      GetAppendOther(m[1..], k, k', v);
    }
  }

  /** `$m[$k1][$k2] = $v`: writes into the inner array at `k1`, starting from an empty one. */
  function PutIn<K(==), L(==), V>(m: OrderedMap<K, OrderedMap<L, V>>, k1: K, k2: L, v: V): OrderedMap<K, OrderedMap<L, V>>
  {
    var inner := match Get(m, k1) case Some(a) => a case None => [];
    Put(m, k1, Put(inner, k2, v))
  }

  /** Writing into a key not yet present appends it holding a one-pair array. */
  lemma PutInNew<K, L, V>(m: OrderedMap<K, OrderedMap<L, V>>, k1: K, k2: L, v: V)
    requires k1 !in Keys(m)
    ensures PutIn(m, k1, k2, v) == m + [(k1, [(k2, v)])]
  {
    assert Put([], k2, v) == [(k2, v)];
  }

  /** Writing a fresh inner key into the last pair appends to that pair's array only. */
  lemma PutInLast<K, L, V>(m: OrderedMap<K, OrderedMap<L, V>>, k1: K, inner: OrderedMap<L, V>, k2: L, v: V)
    requires k1 !in Keys(m) && k2 !in Keys(inner)
    ensures PutIn(m + [(k1, inner)], k1, k2, v) == m + [(k1, inner + [(k2, v)])]
  {
    GetLast(m, k1, inner);
    PutLast(m, k1, inner, inner + [(k2, v)]);
  }

  /**
   * `xs` is `ys` with some elements left out and the others in their order
   * in `ys`: the last element of `xs`, if any, is matched with the last
   * occurrence of it in `ys`, and the rest of `xs` within what precedes it.
   */
  predicate Embedded<T(==)>(xs: seq<T>, ys: seq<T>)
    decreases |ys|
  {
    if xs == [] then true
    else if ys == [] then false
    else if xs[|xs| - 1] == ys[|ys| - 1] then Embedded(xs[..|xs| - 1], ys[..|ys| - 1])
    else Embedded(xs, ys[..|ys| - 1])
  }

  /** An element appended to `ys` may be left out. */
  lemma {:induction false} EmbeddedExtend<T>(xs: seq<T>, ys: seq<T>, y: T)
    requires Embedded(xs, ys)
    ensures Embedded(xs, ys + [y])
    decreases |ys|, 1
  {
    var zs := ys + [y];
    assert zs[..|ys|] == ys;
    if xs != [] && xs[|xs| - 1] == y {
      EmbeddedShorten(xs, ys);
    }
  }

  /** Leaving out the last element of `xs` keeps it embedded. */
  lemma {:induction false} EmbeddedShorten<T>(xs: seq<T>, ys: seq<T>)
    requires xs != [] && Embedded(xs, ys)
    ensures Embedded(xs[..|xs| - 1], ys)
    decreases |ys|, 0
  {
    var init := ys[..|ys| - 1];
    assert ys == init + [ys[|ys| - 1]];
    if xs[|xs| - 1] == ys[|ys| - 1] {
      EmbeddedExtend(xs[..|xs| - 1], init, ys[|ys| - 1]);
    } else {
      EmbeddedShorten(xs, init);
      EmbeddedExtend(xs[..|xs| - 1], init, ys[|ys| - 1]);
    }
  }

  /** Keeping or leaving out one more element of `ys` keeps the result embedded. */
  lemma EmbeddedStep<T>(xs: seq<T>, ys: seq<T>, y: T, keep: bool)
    requires Embedded(xs, ys)
    ensures Embedded(xs + (if keep then [y] else []), ys + [y])
  {
    if keep {
      assert (xs + [y])[..|xs|] == xs && (ys + [y])[..|ys|] == ys;
    } else {
      assert xs + [] == xs;
      EmbeddedExtend(xs, ys, y);
    }
  }

  /** `unset($m[$k])`: the other pairs, in their order. */
  function Remove<K(==,!new), V(!new)>(m: OrderedMap<K, V>, k: K): (r: OrderedMap<K, V>)
    ensures forall p :: p in r <==> p in m && p.0 != k
  {
    if m == [] then []
    else
      var last := m[|m| - 1];
      Remove(m[..|m| - 1], k) + if last.0 != k then [last] else []
  }

  /** Unsetting keeps the other pairs in their order. */
  lemma {:induction false} RemoveOrder<K(!new), V(!new)>(m: OrderedMap<K, V>, k: K)
    ensures Embedded(Remove(m, k), m)
  {
    if m != [] {
      var init := m[..|m| - 1];
      var last := m[|m| - 1];
      RemoveOrder(init, k);
      assert m == init + [last];
      EmbeddedStep(Remove(init, k), init, last, last.0 != k);
    }
  }

  /** Writing a key keeps the keys distinct. */
  lemma PutUnique<K, V>(m: OrderedMap<K, V>, k: K, v: V)
    requires UniqueKeys(m)
    ensures UniqueKeys(Put(m, k, v))
  {
    var r := Put(m, k, v);
    if k !in Keys(m) {
      forall i | 0 <= i < |m| ensures m[i].0 != k {
        assert Keys(m)[i] == m[i].0;
      }
    }
  }

  /** After writing `v` under `k`, `k` finds `v`. */
  lemma PutGet<K, V>(m: OrderedMap<K, V>, k: K, v: V)
    requires UniqueKeys(m)
    ensures Get(Put(m, k, v), k) == Some(v)
  {
    PutUnique(m, k, v);
    if k in Keys(m) {
      var j :| 0 <= j < |m| && Keys(m)[j] == k;
      GetAt(Put(m, k, v), j);
    } else {
      GetAt(Put(m, k, v), |m|);
    }
  }

  /** Removing a key that is not there changes nothing. */
  lemma {:induction false} RemoveAbsent<K(!new), V(!new)>(m: OrderedMap<K, V>, k: K)
    requires k !in Keys(m)
    ensures Remove(m, k) == m
  {
    if m != [] {
      var init := m[..|m| - 1];
      assert Keys(m)[|m| - 1] == m[|m| - 1].0;
      assert k !in Keys(init) by {
        forall i | 0 <= i < |init| ensures Keys(init)[i] != k {
          assert Keys(m)[i] == init[i].0;
        }
      }
      RemoveAbsent(init, k);
      assert Remove(m, k) == init + [m[|m| - 1]];
      assert m == init + [m[|m| - 1]];
    }
  }

  /** Removing from two arrays joined removes from each. */
  lemma {:induction false} RemoveAppend<K(!new), V(!new)>(a: OrderedMap<K, V>, b: OrderedMap<K, V>, k: K)
    ensures Remove(a + b, k) == Remove(a, k) + Remove(b, k)
  {
    if b != [] {
      var init := b[..|b| - 1];
      assert (a + b)[..|a + b| - 1] == a + init;
      assert (a + b)[|a + b| - 1] == b[|b| - 1];
      var last := b[|b| - 1];
      var tail := if last.0 != k then [last] else [];
      RemoveAppend(a, init, k);
      assert Remove(a + b, k) == Remove(a + init, k) + tail;
      assert Remove(b, k) == Remove(init, k) + tail;
      assert Remove(a, k) + Remove(init, k) + tail == Remove(a, k) + (Remove(init, k) + tail);
    } else {
      assert a + b == a;
    }
  }

  /** Removing the key of the first pair, found nowhere after it, drops just that pair. */
  lemma RemoveFirst<K(!new), V(!new)>(m: OrderedMap<K, V>, k: K)
    requires m != [] && m[0].0 == k && k !in Keys(m[1..])
    ensures Remove(m, k) == m[1..]
  {
    assert m == [m[0]] + m[1..];
    RemoveAppend([m[0]], m[1..], k);
    assert Remove([m[0]], k) == [] by {
      assert [m[0]][..0] == [];
    }
    RemoveAbsent(m[1..], k);
    assert [] + m[1..] == m[1..];
  }

  /** `array_shift($m)` on an array without numeric keys: drops the first pair. */
  function Shift<K, V>(m: OrderedMap<K, V>): (r: OrderedMap<K, V>)
    ensures m != [] ==> m == [m[0]] + r
    ensures m == [] ==> r == []
  {
    if m == [] then [] else m[1..]
  }

  /** `array_intersect($m, $values)`: the pairs whose value is among `values`, keys kept. */
  function IntersectValues<K(!new), V(==,!new)>(m: OrderedMap<K, V>, values: seq<V>): (r: OrderedMap<K, V>)
    ensures forall p :: p in r <==> p in m && p.1 in values
    ensures |r| <= |m| && Embedded(r, m)
  {
    if m == [] then []
    else
      var prev := IntersectValues(m[..|m| - 1], values);
      var last := m[|m| - 1];
      assert m == m[..|m| - 1] + [last];
      EmbeddedStep(prev, m[..|m| - 1], last, last.1 in values);
      prev + (if last.1 in values then [last] else [])
  }

  /** `array_intersect_key($m, array_flip($keys))`: the pairs whose key is among `keys`. */
  function IntersectKeys<K(==,!new), V(!new)>(m: OrderedMap<K, V>, keys: seq<K>): (r: OrderedMap<K, V>)
    ensures forall p :: p in r <==> p in m && p.0 in keys
    ensures |r| <= |m| && Embedded(r, m)
  {
    if m == [] then []
    else
      var prev := IntersectKeys(m[..|m| - 1], keys);
      var last := m[|m| - 1];
      assert m == m[..|m| - 1] + [last];
      EmbeddedStep(prev, m[..|m| - 1], last, last.0 in keys);
      prev + (if last.0 in keys then [last] else [])
  }

  /** Keeping some of the pairs keeps the keys distinct. */
  lemma {:induction false} IntersectKeysUnique<K(!new), V(!new)>(m: OrderedMap<K, V>, keys: seq<K>)
    requires UniqueKeys(m)
    ensures UniqueKeys(IntersectKeys(m, keys))
  {
    if m != [] {
      var init := m[..|m| - 1];
      var last := m[|m| - 1];
      assert UniqueKeys(init) by {
        forall a, b | 0 <= a < b < |init| ensures init[a].0 != init[b].0 {
          assert init[a] == m[a] && init[b] == m[b];
        }
      }
      IntersectKeysUnique(init, keys);
      var prev := IntersectKeys(init, keys);
      var r := IntersectKeys(m, keys);
      if last.0 in keys {
        assert r == prev + [last];
        assert forall a :: 0 <= a < |prev| ==> prev[a].0 != last.0 by {
          forall a | 0 <= a < |prev| ensures prev[a].0 != last.0 {
            assert prev[a] in init;
            var j :| 0 <= j < |init| && init[j] == prev[a];
            assert m[j] == init[j];
          }
        }
        forall a, b | 0 <= a < b < |r| ensures r[a].0 != r[b].0 {
          assert r[a] == prev[a];
          if b < |prev| {
            assert r[b] == prev[b];
          }
        }
      }
    }
  }

  /** `array_merge($a, $b)` for non-numeric keys: the pairs of `b` written over `a` in order. */
  function Merge<K(==), V>(a: OrderedMap<K, V>, b: OrderedMap<K, V>): OrderedMap<K, V>
    decreases |b|
  {
    if b == [] then a else Merge(Put(a, b[0].0, b[0].1), b[1..])
  }

  /** The keys of two arrays joined are the keys of each, in turn. */
  lemma KeysAppend<K, V>(a: OrderedMap<K, V>, b: OrderedMap<K, V>)
    ensures Keys(a + b) == Keys(a) + Keys(b)
  {
    assert |Keys(a + b)| == |Keys(a) + Keys(b)|;
    forall i | 0 <= i < |a + b| ensures Keys(a + b)[i] == (Keys(a) + Keys(b))[i] {
      if i < |a| { assert (a + b)[i] == a[i]; } else { assert (a + b)[i] == b[i - |a|]; }
    }
  }

  /** Moving the first pair of `b` over to `a` keeps the two disjoint and `b`'s keys distinct. */
  lemma DisjointShift<K, V>(a: OrderedMap<K, V>, b: OrderedMap<K, V>)
    requires b != [] && UniqueKeys(b)
    requires forall k :: k in Keys(a) ==> k !in Keys(b)
    ensures UniqueKeys(b[1..])
    ensures forall k :: k in Keys(a + [b[0]]) ==> k !in Keys(b[1..])
  {
    KeysAppend(a, [b[0]]);
    KeysAppend([b[0]], b[1..]);
    assert b == [b[0]] + b[1..];
    assert Keys([b[0]]) == [b[0].0];
    forall j | 0 <= j < |b| - 1 ensures b[1..][j].0 != b[0].0 {
      assert b[1..][j] == b[j + 1];
    }
  }

  /** Merging arrays with no key in common and no repeated key appends the second to the first. */
  lemma {:induction false} MergeDisjoint<K, V>(a: OrderedMap<K, V>, b: OrderedMap<K, V>)
    requires UniqueKeys(b)
    requires forall k :: k in Keys(a) ==> k !in Keys(b)
    ensures Merge(a, b) == a + b
    decreases |b|
  {
    if b != [] {
      assert b[0].0 == Keys(b)[0];
      var a' := Put(a, b[0].0, b[0].1);
      assert a' == a + [b[0]];
      DisjointShift(a, b);
      MergeDisjoint(a', b[1..]);
      assert a' + b[1..] == a + b;
    }
  }

  /** The images under `f` of the elements that `keep` accepts, in order. */
  function FilterMap<T, U>(xs: seq<T>, keep: T -> bool, f: T -> U): (ys: seq<U>)
    ensures |ys| <= |xs|
  {
    if xs == [] then []
    else FilterMap(xs[..|xs| - 1], keep, f) + if keep(xs[|xs| - 1]) then [f(xs[|xs| - 1])] else []
  }

  /** `y` is kept exactly when it is the image of some accepted element. */
  lemma {:induction false} FilterMapExact<T, U>(xs: seq<T>, keep: T -> bool, f: T -> U, y: U)
    ensures y in FilterMap(xs, keep, f) <==> exists i :: 0 <= i < |xs| && keep(xs[i]) && y == f(xs[i])
  {
    if xs != [] {
      var n := |xs| - 1;
      var init := xs[..n];
      FilterMapExact(init, keep, f, y);
      if y in FilterMap(xs, keep, f) {
        if y in FilterMap(init, keep, f) {
          var i :| 0 <= i < n && keep(init[i]) && y == f(init[i]);
          assert init[i] == xs[i];
        } else {
          assert keep(xs[n]) && y == f(xs[n]);
        }
      }
      if exists i :: 0 <= i < |xs| && keep(xs[i]) && y == f(xs[i]) {
        var i :| 0 <= i < |xs| && keep(xs[i]) && y == f(xs[i]);
        if i < n {
          assert init[i] == xs[i];
        }
      }
    }
  }
}
