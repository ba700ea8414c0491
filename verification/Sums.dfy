/** Sums over finite maps, and the double-counting law the table proofs rest on. */
module Sums {

  ghost function Pick<K, V>(m: map<K, V>): (k: K)
    requires m != map[]
    ensures k in m
  {
    var k :| k in m; k
  }

  ghost function Sum<K>(m: map<K, int>): int
  {
    if m == map[] then 0 else m[Pick(m)] + Sum(m - {Pick(m)})
  }

  lemma {:induction false} SumRemove<K>(m: map<K, int>, k: K)
    requires k in m
    ensures Sum(m) == m[k] + Sum(m - {k})
    decreases |m|
  {
    var p := Pick(m);
    if k != p {
      SumRemove(m - {p}, k);
      SumRemove(m - {k}, p);
      assert m - {p} - {k} == m - {k} - {p};
    }
  }

  lemma {:induction false} SumInsert<K>(m: map<K, int>, k: K, v: int)
    requires k !in m
    ensures Sum(m[k := v]) == v + Sum(m)
  {
    SumRemove(m[k := v], k);
    assert m[k := v] - {k} == m;
  }

  lemma {:induction false} SumConst<K>(m: map<K, int>, c: int)
    requires forall k :: k in m ==> m[k] == c
    ensures Sum(m) == |m| * c
    decreases |m|
  {
    if m != map[] {
      var p := Pick(m);
      SumConst(m - {p}, c);
      assert |m| == |m - {p}| + 1 by {
        assert m.Keys == (m - {p}).Keys + {p};
      }
    }
  }

  lemma {:induction false} SumMono<K>(m: map<K, int>, n: map<K, int>)
    requires m.Keys <= n.Keys
    requires forall k :: k in m ==> m[k] <= n[k]
    requires forall k :: k in n && k !in m ==> 0 <= n[k]
    ensures Sum(m) <= Sum(n)
    decreases |n|
  {
    if n != map[] {
      var p := Pick(n);
      if p in m {
        SumRemove(m, p);
        SumMono(m - {p}, n - {p});
      } else {
        SumMono(m, n - {p});
      }
    } else {
      assert m == map[];
    }
  }

  /** The entries of `m` that `g` sends to `x`. */
  ghost function Fiber<K, G>(m: map<K, int>, g: K -> G, x: G): map<K, int> {
    map k | k in m && g(k) == x :: m[k]
  }

  ghost function FiberSums<K, G>(m: map<K, int>, g: K -> G, s: set<G>): map<G, int> {
    map x | x in s :: Sum(Fiber(m, g, x))
  }

  lemma FiberOfGroup<K, G>(m: map<K, int>, g: K -> G, p: K)
    requires p in m
    ensures Sum(Fiber(m, g, g(p))) == m[p] + Sum(Fiber(m - {p}, g, g(p)))
  {
    assert Fiber(m - {p}, g, g(p)) == Fiber(m, g, g(p)) - {p};
    SumRemove(Fiber(m, g, g(p)), p);
  }

  lemma FibersElsewhere<K, G>(m: map<K, int>, g: K -> G, s: set<G>, p: K)
    requires p in m && g(p) in s
    ensures FiberSums(m, g, s) - {g(p)} == FiberSums(m - {p}, g, s) - {g(p)}
  {
    forall y | y in s && y != g(p) ensures FiberSums(m, g, s)[y] == FiberSums(m - {p}, g, s)[y] {
      assert Fiber(m - {p}, g, y) == Fiber(m, g, y);
    }
  }

  lemma FiberStep<K, G>(m: map<K, int>, g: K -> G, s: set<G>, p: K)
    requires p in m && g(p) in s
    ensures Sum(FiberSums(m, g, s)) == m[p] + Sum(FiberSums(m - {p}, g, s))
  {
    FiberOfGroup(m, g, p);
    FibersElsewhere(m, g, s, p);
    SumRemove(FiberSums(m, g, s), g(p));
    SumRemove(FiberSums(m - {p}, g, s), g(p));
  }

  /** Double counting: summing group by group is summing once. */
  lemma {:induction false} SumByFibers<K, G>(m: map<K, int>, g: K -> G, s: set<G>)
    requires forall k :: k in m ==> g(k) in s
    ensures Sum(FiberSums(m, g, s)) == Sum(m)
    decreases |m|
  {
    if m == map[] {
      forall x | x in s ensures FiberSums(m, g, s)[x] == 0 {
        assert Fiber(m, g, x) == map[];
      }
      SumConst(FiberSums(m, g, s), 0);
    } else {
      var p := Pick(m);
      FiberStep(m, g, s, p);
      SumByFibers(m - {p}, g, s);
    }
  }
}
