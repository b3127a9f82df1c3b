/** Finite sums over sequences and sets, and what leaves them unchanged. */
module Sums {

  function SumBy<T>(xs: seq<T>, weight: T -> int): int {
    if xs == [] then 0 else weight(xs[0]) + SumBy(xs[1..], weight)
  }

  lemma {:induction false} SumByAppend<T>(xs: seq<T>, ys: seq<T>, weight: T -> int)
    ensures SumBy(xs + ys, weight) == SumBy(xs, weight) + SumBy(ys, weight)
  {
    if xs == [] {
      assert xs + ys == ys;
    } else {
      assert (xs + ys)[1..] == xs[1..] + ys;
      SumByAppend(xs[1..], ys, weight);
    }
  }

  /** Taking the element at `i` out of a sum. */
  lemma SumByRemove<T>(xs: seq<T>, i: nat, weight: T -> int)
    requires i < |xs|
    ensures SumBy(xs, weight) == weight(xs[i]) + SumBy(xs[..i] + xs[i + 1..], weight)
  {
    assert xs == xs[..i] + ([xs[i]] + xs[i + 1..]);
    SumByAppend(xs[..i], [xs[i]] + xs[i + 1..], weight);
    SumByAppend(xs[..i], xs[i + 1..], weight);
    assert ([xs[i]] + xs[i + 1..])[1..] == xs[i + 1..];
  }

  /** Where an element sits in a permutation, and that removing it leaves a permutation. */
  lemma FindInPermutation<T>(xs: seq<T>, ys: seq<T>) returns (i: nat)
    requires xs != [] && multiset(xs) == multiset(ys)
    ensures i < |ys| && ys[i] == xs[0]
    ensures multiset(xs[1..]) == multiset(ys[..i] + ys[i + 1..])
  {
    assert xs[0] in multiset(ys);
    i :| 0 <= i < |ys| && ys[i] == xs[0];
    ghost var before, after, x := ys[..i], ys[i + 1..], xs[0];
    assert xs == [x] + xs[1..];
    assert ys == before + [x] + after;
    assert multiset(xs[1..]) == multiset(xs) - multiset{x};
    assert multiset(before + after) == multiset(before + [x] + after) - multiset{x};
  }

  lemma SameLength<T>(xs: seq<T>, ys: seq<T>)
    requires multiset(xs) == multiset(ys)
    ensures |xs| == |ys|
  {
    assert |multiset(xs)| == |xs| && |multiset(ys)| == |ys|;
  }

  lemma {:induction false} SumByPermutation<T>(xs: seq<T>, ys: seq<T>, weight: T -> int)
    requires multiset(xs) == multiset(ys)
    ensures SumBy(xs, weight) == SumBy(ys, weight)
  {
    if xs == [] {
      SameLength(xs, ys);
    } else {
      var i := FindInPermutation(xs, ys);
      SumByRemove(ys, i, weight);
      SumByPermutation(xs[1..], ys[..i] + ys[i + 1..], weight);
    }
  }

  function MapSeq<T, U>(xs: seq<T>, f: T -> U): (r: seq<U>)
    ensures |r| == |xs|
    ensures forall i :: 0 <= i < |xs| ==> r[i] == f(xs[i])
  {
    seq(|xs|, i requires 0 <= i < |xs| => f(xs[i]))
  }

  lemma {:induction false} MapPermutation<T, U>(xs: seq<T>, ys: seq<T>, f: T -> U)
    requires multiset(xs) == multiset(ys)
    ensures multiset(MapSeq(xs, f)) == multiset(MapSeq(ys, f))
  {
    if xs == [] {
      SameLength(xs, ys);
    } else {
      var i := FindInPermutation(xs, ys);
      MapPermutation(xs[1..], ys[..i] + ys[i + 1..], f);
      var before, after := MapSeq(ys[..i], f), MapSeq(ys[i + 1..], f);
      assert MapSeq(xs, f) == [f(xs[0])] + MapSeq(xs[1..], f);
      assert MapSeq(ys, f) == before + [f(ys[i])] + after;
      assert MapSeq(ys[..i] + ys[i + 1..], f) == before + after;
    }
  }

  /** A sum over the keys of a map. */
  ghost function SumMap<K>(m: map<K, int>): int {
    if m == map[] then 0
    else
      assert m.Keys != {};
      var k :| k in m;
      m[k] + SumMap(m - {k})
  }

  /** Any key may be taken out first. */
  lemma {:induction false} SumMapRemove<K>(m: map<K, int>, k: K)
    requires k in m
    ensures SumMap(m) == m[k] + SumMap(m - {k})
    decreases |m|
  {
    assert m.Keys != {};
    var j :| j in m && SumMap(m) == m[j] + SumMap(m - {j});
    if j != k {
      assert k in m - {j} && j in m - {k};
      assert |m - {j}| < |m| && |m - {k}| < |m| by {
        assert (m - {j}).Keys == m.Keys - {j} && (m - {k}).Keys == m.Keys - {k};
      }
      SumMapRemove(m - {j}, k);
      SumMapRemove(m - {k}, j);
      assert m - {j} - {k} == m - {k} - {j};
    }
  }

  lemma SumMapUpdate<K>(m: map<K, int>, k: K, v: int)
    ensures SumMap(m[k := v]) == SumMap(m) + v - (if k in m then m[k] else 0)
  {
    var n := m[k := v];
    SumMapRemove(n, k);
    assert n - {k} == m - {k};
    if k in m {
      SumMapRemove(m, k);
    } else {
      assert m - {k} == m;
    }
  }

  lemma {:induction false} SumMapZero<K>(m: map<K, int>)
    requires forall k :: k in m ==> m[k] == 0
    ensures SumMap(m) == 0
    decreases |m|
  {
    if m != map[] {
      assert m.Keys != {};
      var k :| k in m;
      SumMapRemove(m, k);
      assert (m - {k}).Keys == m.Keys - {k};
      SumMapZero(m - {k});
    }
  }

  /** Adding two maps with the same keys, key by key, adds their sums. */
  lemma {:induction false} SumMapAdd<K>(a: map<K, int>, b: map<K, int>, c: map<K, int>)
    requires a.Keys == b.Keys == c.Keys
    requires forall k :: k in c ==> c[k] == a[k] + b[k]
    ensures SumMap(c) == SumMap(a) + SumMap(b)
    decreases |c|
  {
    if c.Keys == {} {
      assert a == map[] && b == map[] && c == map[];
    } else {
      var k :| k in c.Keys;
      SumMapRemove(a, k);
      SumMapRemove(b, k);
      SumMapRemove(c, k);
      assert (c - {k}).Keys == c.Keys - {k};
      SumMapAdd(a - {k}, b - {k}, c - {k});
    }
  }

  /** A map with more keys and no smaller, non-negative values has no smaller sum. */
  lemma {:induction false} SumMapMonotone<K>(a: map<K, int>, b: map<K, int>)
    requires a.Keys <= b.Keys
    requires forall k :: k in b ==> 0 <= b[k] && (k in a ==> a[k] <= b[k])
    ensures SumMap(a) <= SumMap(b)
    decreases |b|
  {
    if b.Keys == {} {
      assert a == map[] && b == map[];
    } else {
      var k :| k in b.Keys;
      SumMapRemove(b, k);
      assert (b - {k}).Keys == b.Keys - {k};
      if k in a {
        SumMapRemove(a, k);
        SumMapMonotone(a - {k}, b - {k});
      } else {
        assert a - {k} == a;
        SumMapMonotone(a, b - {k});
      }
    }
  }

  /** A sum over a finite set. */
  ghost function SumOver<K>(keys: set<K>, f: K -> int): int {
    SumMap(map k | k in keys :: f(k))
  }

  lemma SumOverEqual<K>(keys: set<K>, f: K -> int, g: K -> int)
    requires forall k :: k in keys ==> f(k) == g(k)
    ensures SumOver(keys, f) == SumOver(keys, g)
  {
    assert (map k | k in keys :: f(k)) == (map k | k in keys :: g(k));
  }

  lemma SumOverZero<K>(keys: set<K>, f: K -> int)
    requires forall k :: k in keys ==> f(k) == 0
    ensures SumOver(keys, f) == 0
  {
    SumMapZero(map k | k in keys :: f(k));
  }

  lemma SumOverAdd<K>(keys: set<K>, f: K -> int, g: K -> int, h: K -> int)
    requires forall k :: k in keys ==> h(k) == f(k) + g(k)
    ensures SumOver(keys, h) == SumOver(keys, f) + SumOver(keys, g)
  {
    SumMapAdd(map k | k in keys :: f(k), map k | k in keys :: g(k), map k | k in keys :: h(k));
  }

  /** Two functions that differ at one key only. */
  lemma SumOverChange<K>(keys: set<K>, key: K, f: K -> int, g: K -> int)
    requires key in keys && forall k :: k in keys && k != key ==> f(k) == g(k)
    ensures SumOver(keys, g) == SumOver(keys, f) + g(key) - f(key)
  {
    var m, n := map k | k in keys :: f(k), map k | k in keys :: g(k);
    assert n == m[key := g(key)];
    SumMapUpdate(m, key, g(key));
  }

  lemma SumOverMonotone<K>(some: set<K>, keys: set<K>, f: K -> int, g: K -> int)
    requires some <= keys
    requires forall k :: k in keys ==> 0 <= g(k) && (k in some ==> f(k) <= g(k))
    ensures SumOver(some, f) <= SumOver(keys, g)
  {
    SumMapMonotone(map k | k in some :: f(k), map k | k in keys :: g(k));
  }

  lemma SumOverInsert<K>(keys: set<K>, key: K, f: K -> int)
    requires key !in keys
    ensures SumOver(keys + {key}, f) == SumOver(keys, f) + f(key)
  {
    var m, n := map k | k in keys :: f(k), map k | k in keys + {key} :: f(k);
    assert n == m[key := f(key)];
    SumMapUpdate(m, key, f(key));
  }

  lemma {:induction false} SumOverDropZeros<K>(keys: set<K>, zeros: set<K>, f: K -> int)
    requires keys !! zeros && forall k :: k in zeros ==> f(k) == 0
    ensures SumOver(keys + zeros, f) == SumOver(keys, f)
    decreases zeros
  {
    if zeros == {} {
      assert keys + zeros == keys;
    } else {
      var k :| k in zeros;
      SumOverDropZeros(keys, zeros - {k}, f);
      SumOverInsert(keys + (zeros - {k}), k, f);
      assert keys + zeros == keys + (zeros - {k}) + {k};
    }
  }
}
