/** Sums over maps and sequences, independent of the order in which they are added up.
    Go leaves the iteration order of a map unspecified, so every "for k, v := range m"
    accumulation of the program is specified by the order-free sums below. */
module MapSums {

  /** Reading an absent key of a Go map yields the zero value. */
  function Get<K>(m: map<K, int>, k: K): int {
    if k in m then m[k] else 0
  }

  /** Maps are equal when their entries are. */
  lemma SameEntries<K, V>(m: map<K, V>, n: map<K, V>)
    requires forall k :: k in m <==> k in n
    requires forall k :: k in m ==> m[k] == n[k]
    ensures m == n
  {
  }

  /** The sum of all values of a map. */
  ghost function Total<K>(m: map<K, int>): int
    decreases |m|
  {
    if m == map[] then 0
    else
      var k :| k in m;
      m[k] + Total(m - {k})
  }

  /** Any key may be the one added first. */
  lemma {:induction false} TotalSplit<K>(m: map<K, int>, k: K)
    requires k in m
    ensures Total(m) == m[k] + Total(m - {k})
    decreases |m|
  {
    var k0 :| k0 in m && Total(m) == m[k0] + Total(m - {k0});
    if k != k0 {
      TotalSplit(m - {k0}, k);
      TotalSplit(m - {k}, k0);
      assert m - {k0} - {k} == m - {k} - {k0};
    }
  }

  lemma TotalPut<K>(m: map<K, int>, k: K, v: int)
    ensures Total(m[k := v]) == Total(m) - Get(m, k) + v
  {
    var m' := m[k := v];
    TotalSplit(m', k);
    if k in m {
      TotalSplit(m, k);
      assert m' - {k} == m - {k};
    } else {
      assert m' - {k} == m;
    }
  }

  ghost predicate SameLookups<K(!new)>(m: map<K, int>, n: map<K, int>) {
    forall k :: Get(m, k) == Get(n, k)
  }

  /** Entries holding zero do not matter: maps with equal lookups have equal totals. */
  lemma {:induction false} TotalByLookup<K(!new)>(m: map<K, int>, n: map<K, int>)
    requires SameLookups(m, n)
    ensures Total(m) == Total(n)
    decreases |m| + |n|
  {
    if m != map[] {
      DropKey(m, n);
    } else if n != map[] {
      DropKey(n, m);
    }
  }

  lemma {:induction false} DropKey<K(!new)>(m: map<K, int>, n: map<K, int>)
    requires SameLookups(m, n) && m != map[]
    ensures Total(m) == Total(n)
    decreases |m| + |n|, 0
  {
    var k :| k in m;
    var m', n' := m - {k}, n - {k};
    TotalSplit(m, k);
    assert Get(m, k) == Get(n, k);
    if k in n {
      TotalSplit(n, k);
    } else {
      assert n' == n;
    }
    assert |m'| < |m|;
    assert |n'| <= |n| by { KeysShrink(n, k); }
    assert SameLookups(m', n') by {
      forall j
        ensures Get(m', j) == Get(n', j)
      {
        assert Get(m, j) == Get(n, j);
      }
    }
    TotalByLookup(m', n');
  }

  lemma KeysShrink<K>(m: map<K, int>, k: K)
    ensures |m - {k}| <= |m|
  {
    assert (m - {k}).Keys == m.Keys - {k};
  }

  /** Larger entries have a larger total. */
  lemma {:induction false} TotalMonotone<K(!new)>(m: map<K, int>, n: map<K, int>)
    requires forall k :: 0 <= Get(m, k) <= Get(n, k)
    ensures Total(m) <= Total(n)
    decreases |m|
  {
    if m == map[] {
      assert forall k :: k in n ==> n[k] == Get(n, k);
      TotalNonNegative(n);
    } else {
      var k :| k in m;
      TotalSplit(m, k);
      TotalPut(n, k, 0);
      var m', n' := m - {k}, n[k := 0];
      assert Get(m, k) == m[k] <= Get(n, k);
      forall j
        ensures 0 <= Get(m', j) <= Get(n', j)
      {
        assert 0 <= Get(m, j) <= Get(n, j);
      }
      assert m'.Keys == m.Keys - {k};
      TotalMonotone(m', n');
    }
  }

  lemma {:induction false} TotalNonNegative<K>(m: map<K, int>)
    requires forall k :: k in m ==> m[k] >= 0
    ensures Total(m) >= 0
    ensures forall k :: k in m ==> m[k] <= Total(m)
    decreases |m|
  {
    if m != map[] {
      var k0 :| k0 in m && Total(m) == m[k0] + Total(m - {k0});
      TotalNonNegative(m - {k0});
      forall k | k in m
        ensures m[k] <= Total(m)
      {
        if k != k0 {
          assert k in m - {k0};
        }
      }
    }
  }

  /** The sum of all values of a map of reals. */
  ghost function RealTotal<K>(m: map<K, real>): real
    decreases |m|
  {
    if m == map[] then 0.0
    else
      var k :| k in m;
      m[k] + RealTotal(m - {k})
  }

  ghost predicate Additive(f: int -> real) {
    && f(0) == 0.0
    && forall a, b :: Adds(f, a, b)
  }

  ghost predicate Adds(f: int -> real, a: int, b: int) {
    f(a) + f(b) == f(a + b)
  }

  /** An additive function of every entry adds up to the function of the sum. */
  lemma {:induction false} RealTotalAdditive<K>(p: map<K, real>, m: map<K, int>, f: int -> real)
    requires Additive(f)
    requires forall k :: k in p <==> k in m
    requires forall k :: k in p ==> p[k] == f(m[k])
    ensures RealTotal(p) == f(Total(m))
    decreases |p|
  {
    if p != map[] {
      var k :| k in p && RealTotal(p) == p[k] + RealTotal(p - {k});
      TotalSplit(m, k);
      RealTotalAdditive(p - {k}, m - {k}, f);
      assert Adds(f, m[k], Total(m - {k}));
    } else {
      SameEntries(m, map[]);
    }
  }

  /** Division by a positive d. */
  function Over(d: real): int -> real
    requires d > 0.0
  {
    (a: int) => a as real / d
  }

  lemma OverIsAdditive(d: real)
    requires d > 0.0
    ensures Additive(Over(d))
  {
    forall a, b
      ensures Adds(Over(d), a, b)
    {
      AddFractions(a as real, b as real, d);
    }
  }

  lemma AddFractions(a: real, b: real, d: real)
    requires d > 0.0
    ensures a / d + b / d == (a + b) / d
  {
  }

  lemma Fraction(a: real, d: real)
    requires d > 0.0
    ensures a / d == 1.0 <==> a == d
    ensures a / d > 0.0 <==> a > 0.0
    ensures a / d >= 0.0 <==> a >= 0.0
    ensures a / d <= 1.0 <==> a <= d
  {
    var q := a / d;
    assert q * d == a;
    if q > 1.0 {
      assert (q - 1.0) * d > 0.0;
    }
    if q < 1.0 {
      assert (1.0 - q) * d > 0.0;
    }
  }

  /** Adding one to every entry adds the number of entries to the sum. */
  lemma {:induction false} TotalPlusOne<K>(m: map<K, int>, n: map<K, int>)
    requires forall k :: k in m <==> k in n
    requires forall k :: k in m ==> n[k] == m[k] + 1
    ensures Total(n) == Total(m) + |m|
    decreases |m|
  {
    if m != map[] {
      var k :| k in m;
      TotalSplit(m, k);
      TotalSplit(n, k);
      assert |m - {k}| == |m| - 1 by {
        assert (m - {k}).Keys == m.Keys - {k};
      }
      TotalPlusOne(m - {k}, n - {k});
    } else {
      SameEntries(n, map[]);
    }
  }

  /** The sum of f over a sequence. */
  function SumBy<T>(s: seq<T>, f: T -> nat): nat {
    if s == [] then 0 else SumBy(s[..|s| - 1], f) + f(s[|s| - 1])
  }

  lemma {:induction false} SumByMember<T>(s: seq<T>, x: T, f: T -> nat)
    requires x in s
    ensures f(x) <= SumBy(s, f)
  {
    var n := |s| - 1;
    if s[n] != x {
      assert s == s[..n] + [s[n]];
      SumByMember(s[..n], x, f);
    }
  }

  /** A positive sum has a positive term. */
  lemma {:induction false} SumByPositive<T>(s: seq<T>, f: T -> nat) returns (x: T)
    requires SumBy(s, f) > 0
    ensures x in s && f(x) > 0
    decreases |s|
  {
    var n := |s| - 1;
    assert s == s[..n] + [s[n]];
    if f(s[n]) > 0 {
      x := s[n];
    } else {
      x := SumByPositive(s[..n], f);
    }
  }

  lemma {:induction false} SumByAppend<T>(s: seq<T>, t: seq<T>, f: T -> nat)
    ensures SumBy(s + t, f) == SumBy(s, f) + SumBy(t, f)
  {
    if t == [] {
      assert s + t == s;
    } else {
      assert (s + t)[..|s + t| - 1] == s + t[..|t| - 1];
      SumByAppend(s, t[..|t| - 1], f);
    }
  }

  lemma SumByNext<T>(s: seq<T>, x: T, f: T -> nat)
    ensures SumBy(s + [x], f) == SumBy(s, f) + f(x)
  {
    assert (s + [x])[..|s|] == s;
  }

  lemma SumByInsert<T>(a: seq<T>, x: T, b: seq<T>, f: T -> nat)
    ensures SumBy(a + [x] + b, f) == SumBy(a + b, f) + f(x)
  {
    SumByNext(a, x, f);
    SumByAppend(a + [x], b, f);
    SumByAppend(a, b, f);
  }

  lemma SumByRemove<T>(s: seq<T>, k: nat, f: T -> nat)
    requires k < |s|
    ensures SumBy(s, f) == SumBy(Without(s, k), f) + f(s[k])
  {
    SumByInsert(s[..k], s[k], s[k + 1..], f);
    Reassemble(s, k);
  }

  lemma Reassemble<T>(s: seq<T>, k: nat)
    requires k < |s|
    ensures s == s[..k] + [s[k]] + s[k + 1..]
  {
  }

  /** Taking the k-th element out and appending others. */
  lemma SumByReplace<T>(s: seq<T>, k: nat, more: seq<T>, f: T -> nat)
    requires k < |s|
    ensures SumBy(Without(s, k) + more, f) + f(s[k]) == SumBy(s, f) + SumBy(more, f)
  {
    SumByRemove(s, k, f);
    SumByAppend(Without(s, k), more, f);
  }

  lemma SumBySingle<T>(x: T, f: T -> nat)
    ensures SumBy([x], f) == f(x)
  {
    assert [x][..0] == [];
  }

  /** The sum does not depend on the order of the elements. */
  lemma {:induction false} SumByPermutation<T>(s: seq<T>, t: seq<T>, f: T -> nat)
    requires multiset(s) == multiset(t)
    ensures SumBy(s, f) == SumBy(t, f)
  {
    if s == [] {
      assert |multiset(t)| == 0;
    } else {
      var n := |s| - 1;
      assert s == s[..n] + [s[n]];
      assert s[n] in multiset(t);
      var k :| 0 <= k < |t| && t[k] == s[n];
      WithoutMultiset(t, k);
      SumByRemove(t, k, f);
      assert multiset(s) == multiset(s[..n]) + multiset{s[n]};
      assert multiset(s[..n]) == multiset(s) - multiset{s[n]};
      assert multiset(Without(t, k)) == multiset(t) - multiset{t[k]};
      SumByPermutation(s[..n], Without(t, k), f);
    }
  }

  /** s with its k-th element taken out. */
  function Without<T>(s: seq<T>, k: nat): seq<T>
    requires k < |s|
  {
    s[..k] + s[k + 1..]
  }

  lemma WithoutMultiset<T>(s: seq<T>, k: nat)
    requires k < |s|
    ensures multiset(s) == multiset(Without(s, k)) + multiset{s[k]}
  {
    assert s == s[..k] + [s[k]] + s[k + 1..];
  }

  /** A sub-multiset of the same size is the whole multiset. */
  lemma {:induction false} SameSizeSubset<T>(a: multiset<T>, b: multiset<T>)
    requires a <= b && |a| == |b|
    ensures a == b
  {
    assert b == a + (b - a);
    assert |b - a| == 0;
  }
}
