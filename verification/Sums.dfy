/** Sums over finite maps, and counting the pairs of a finite relation. */
module Sums {
  ghost function Sum<K>(m: map<K, nat>): nat
    decreases |m|
  {
    if m == map[] then 0
    else
      var k :| k in m;
      m[k] + Sum(m - {k})
  }

  lemma {:induction false} SumRemove<K>(m: map<K, nat>, k: K)
    requires k in m
    ensures Sum(m) == m[k] + Sum(m - {k})
    decreases |m|
  {
    var c :| c in m && Sum(m) == m[c] + Sum(m - {c});
    if c != k {
      SumRemove(m - {c}, k);
      SumRemove(m - {k}, c);
      assert m - {c} - {k} == m - {k} - {c};
    }
  }

  lemma SumUpdate<K>(m: map<K, nat>, k: K, v: nat)
    ensures Sum(m[k := v]) == Sum(m) + v - if k in m then m[k] else 0
  {
    SumRemove(m[k := v], k);
    assert m[k := v] - {k} == m - {k};
    if k in m {
      SumRemove(m, k);
    } else {
      assert m - {k} == m;
    }
  }

  /** Raising the entries of `chosen` by one raises the sum by their number. */
  lemma {:induction false} SumBump<K>(m: map<K, nat>, bumped: map<K, nat>, chosen: set<K>)
    requires chosen <= m.Keys == bumped.Keys
    requires forall k :: k in m ==> bumped[k] == m[k] + if k in chosen then 1 else 0
    ensures Sum(bumped) == Sum(m) + |chosen|
    decreases |chosen|
  {
    if chosen == {} {
      assert bumped == m;
    } else {
      var k :| k in chosen;
      var less := bumped[k := m[k]];
      SumBump(m, less, chosen - {k});
      SumUpdate(less, k, m[k] + 1);
      assert less[k := m[k] + 1] == bumped;
    }
  }

  lemma {:induction false} SumPlus<K>(a: map<K, nat>, b: map<K, nat>, c: map<K, nat>)
    requires a.Keys == b.Keys == c.Keys
    requires forall k :: k in c ==> c[k] == a[k] + b[k]
    ensures Sum(c) == Sum(a) + Sum(b)
    decreases |c|
  {
    if c == map[] {
      assert a == map[] && b == map[];
    } else {
      var k :| k in c;
      SumRemove(a, k);
      SumRemove(b, k);
      SumRemove(c, k);
      SumPlus(a - {k}, b - {k}, c - {k});
    }
  }

  /** The pairs `(k, v)` with `v` in the set stored under `k`. */
  ghost function Pairs<K, V>(m: map<K, set<V>>): set<(K, V)> {
    set k, v | k in m && v in m[k] :: (k, v)
  }

  ghost function Sizes<K, V>(m: map<K, set<V>>): map<K, nat> {
    map k | k in m :: |m[k]|
  }

  lemma {:induction false} CountRow<K, V>(k: K, s: set<V>, row: set<(K, V)>)
    requires row == set v | v in s :: (k, v)
    ensures |row| == |s|
    decreases |s|
  {
    if s != {} {
      var v :| v in s;
      var rest := row - {(k, v)};
      assert rest == set w | w in s - {v} :: (k, w);
      CountRow(k, s - {v}, rest);
    }
  }

  /** Adding up the sizes of the rows of a relation counts its pairs. */
  lemma {:induction false} SumOfSizes<K, V>(m: map<K, set<V>>)
    ensures Sum(Sizes(m)) == |Pairs(m)|
    decreases |m|
  {
    if m == map[] {
      assert Sizes(m) == map[];
    } else {
      var k :| k in m;
      var row := set v | v in m[k] :: (k, v);
      SumOfSizes(m - {k});
      CountRow(k, m[k], row);
      SumRemove(Sizes(m), k);
      assert Sizes(m) - {k} == Sizes(m - {k});
      assert Pairs(m) == Pairs(m - {k}) + row;
    }
  }

  lemma {:induction false} CountSwapped<A, B>(s: set<(A, B)>, t: set<(B, A)>)
    requires forall a, b :: (a, b) in s <==> (b, a) in t
    ensures |s| == |t|
    decreases |s|
  {
    forall p | p in t
      ensures (p.1, p.0) in s
    {
      assert p == (p.0, p.1);
    }
    if s != {} {
      var p :| p in s;
      assert (p.1, p.0) in t;
      CountSwapped(s - {p}, t - {(p.1, p.0)});
    }
  }

  /** Double counting: a relation and its converse have equal row totals. */
  lemma ConverseTotals<A, B>(m: map<A, set<B>>, n: map<B, set<A>>)
    requires forall a, b :: a in m && b in m[a] <==> b in n && a in n[b]
    ensures Sum(Sizes(m)) == Sum(Sizes(n))
  {
    SumOfSizes(m);
    SumOfSizes(n);
    CountSwapped(Pairs(m), Pairs(n));
  }
}
