/**
 The order JavaScript's `sort` puts strings in (by code unit), and the canonical list of a set
 of identifiers, `[...new Set(ids)].sort()`.
 */
module IdOrder {

  predicate Below(a: string, b: string) {
    b != [] && (a == [] || a[0] < b[0] || (a[0] == b[0] && Below(a[1..], b[1..])))
  }

  lemma {:induction false} BelowAsymmetric(a: string, b: string)
    ensures !(Below(a, b) && Below(b, a))
  {
    if a != [] && b != [] {
      BelowAsymmetric(a[1..], b[1..]);
    }
  }

  lemma {:induction false} BelowTransitive(a: string, b: string, c: string)
    requires Below(a, b) && Below(b, c)
    ensures Below(a, c)
  {
    if a != [] && a[0] == b[0] == c[0] {
      BelowTransitive(a[1..], b[1..], c[1..]);
    }
  }

  lemma {:induction false} BelowTotal(a: string, b: string)
    ensures a == b || Below(a, b) || Below(b, a)
  {
    if a != [] && b != [] && a[0] == b[0] {
      BelowTotal(a[1..], b[1..]);
      assert a == [a[0]] + a[1..] && b == [b[0]] + b[1..];
    }
  }

  /** `n` is where the two part: the shorter one ends there, or the smaller code unit stands there. */
  predicate PartAt(a: string, b: string, n: nat) {
    && n <= |a| && n < |b| && a[..n] == b[..n]
    && (n == |a| || a[n] < b[n])
  }

  /** By code unit, and a proper prefix first. */
  lemma {:induction false} BelowExactly(a: string, b: string)
    ensures Below(a, b) <==> exists n: nat :: PartAt(a, b, n)
  {
    if Below(a, b) {
      if a == [] || a[0] != b[0] {
        assert PartAt(a, b, 0);
      } else {
        BelowExactly(a[1..], b[1..]);
        var n: nat :| PartAt(a[1..], b[1..], n);
        assert a == [a[0]] + a[1..] && b == [b[0]] + b[1..];
        assert PartAt(a, b, n + 1);
      }
    }
    if n: nat :| PartAt(a, b, n) {
      if n > 0 {
        assert a[..n][0] == b[..n][0];
        assert a[1..][..n - 1] == a[..n][1..] == b[..n][1..] == b[1..][..n - 1];
        assert PartAt(a[1..], b[1..], n - 1);
        BelowExactly(a[1..], b[1..]);
      }
    }
  }

  predicate Least(m: string, s: set<string>) {
    m in s && forall x :: x in s ==> x == m || Below(m, x)
  }

  lemma {:induction false} LeastExists(s: set<string>)
    requires s != {}
    ensures exists m :: Least(m, s)
  {
    var m :| m in s;
    if s == {m} {
      assert Least(m, s);
    } else {
      var rest := s - {m};
      assert s == rest + {m};
      LeastExists(rest);
      var n :| Least(n, rest);
      BelowTotal(m, n);
      if Below(n, m) {
        assert Least(n, s);
      } else {
        forall x | x in s ensures x == m || Below(m, x) {
          if x != m && x != n { BelowTransitive(m, n, x); }
        }
        assert Least(m, s);
      }
    }
  }

  lemma LeastUnique(s: set<string>)
    ensures forall m, n :: Least(m, s) && Least(n, s) ==> m == n
  {
    forall m, n | Least(m, s) && Least(n, s) ensures m == n {
      BelowAsymmetric(m, n);
    }
  }

  ghost predicate Increasing(r: seq<string>) {
    forall i, j :: 0 <= i < j < |r| ==> Below(r[i], r[j])
  }

  /** The set's elements in increasing order, each once. */
  function SortedIds(s: set<string>): (r: seq<string>)
    ensures Increasing(r)
    ensures forall x :: x in r <==> x in s
    ensures |r| == |s|
  {
    if s == {} then []
    else
      LeastExists(s); LeastUnique(s);
      var m :| Least(m, s);
      [m] + SortedIds(s - {m})
  }

  lemma IncreasingDistinct(r: seq<string>)
    requires Increasing(r)
    ensures forall i, j :: 0 <= i < j < |r| ==> r[i] != r[j]
  {
    forall i, j | 0 <= i < j < |r| ensures r[i] != r[j] {
      BelowAsymmetric(r[i], r[j]);
    }
  }

  lemma FirstIn(s: seq<string>)
    requires s != []
    ensures s[0] in s
  {
  }

  /** Only one increasing list has a given set of elements. */
  lemma {:induction false} IncreasingUnique(p: seq<string>, q: seq<string>)
    requires Increasing(p) && Increasing(q)
    requires forall x :: x in p <==> x in q
    ensures p == q
  {
    IncreasingDistinct(p);
    IncreasingDistinct(q);
    if p == [] {
      if q != [] {
        FirstIn(q);
        assert false;
      }
    } else {
      assert p[0] in q && q[0] in p;
      if p[0] != q[0] {
        assert Below(p[0], q[0]) && Below(q[0], p[0]);
        BelowAsymmetric(p[0], q[0]);
      }
      forall x ensures x in p[1..] <==> x in q[1..] {
        assert x in p <==> x == p[0] || x in p[1..];
        assert x in q <==> x == q[0] || x in q[1..];
      }
      IncreasingUnique(p[1..], q[1..]);
    }
  }
}
