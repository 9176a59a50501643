/** Sums over finite maps, for totals that the server computes with SUM or by walking a tree. */
module Sums {

  ghost function Sum<K(!new)>(m: map<K, nat>): nat
    decreases |m|
  {
    if m == map[] then 0
    else
      var k :| k in m;
      m[k] + Sum(m - {k})
  }

  function Get<K>(m: map<K, nat>, k: K): nat {
    if k in m then m[k] else 0
  }

  /** Any key may be taken out first. */
  lemma {:induction false} SumTake<K(!new)>(m: map<K, nat>, k: K)
    requires k in m
    ensures Sum(m) == m[k] + Sum(m - {k})
    decreases |m|
  {
    var first :| first in m && Sum(m) == m[first] + Sum(m - {first});
    if first != k {
      SumTake(m - {first}, k);
      assert (m - {first}) - {k} == (m - {k}) - {first};
      SumTake(m - {k}, first);
    }
  }

  lemma SumWithout<K(!new)>(m: map<K, nat>, k: K)
    ensures Sum(m) == Get(m, k) + Sum(m - {k})
  {
    if k in m {
      SumTake(m, k);
    } else {
      assert m - {k} == m;
    }
  }

  /** Two maps that agree outside one key differ in sum as they differ at that key. */
  lemma SumDiffersAt<K(!new)>(a: map<K, nat>, b: map<K, nat>, k: K)
    requires a - {k} == b - {k}
    ensures Sum(a) + Get(b, k) == Sum(b) + Get(a, k)
  {
    SumWithout(a, k);
    SumWithout(b, k);
  }

  lemma {:induction false} SumMonotone<K(!new)>(a: map<K, nat>, b: map<K, nat>)
    requires forall k :: k in a ==> k in b && a[k] <= b[k]
    ensures Sum(a) <= Sum(b)
    decreases |a|
  {
    if a != map[] {
      var k :| k in a;
      SumTake(a, k);
      SumTake(b, k);
      SumMonotone(a - {k}, b - {k});
    }
  }

  /** A sum of parts is the sum of the wholes. */
  lemma {:induction false} SumSplits<K(!new)>(whole: map<K, nat>, a: map<K, nat>, b: map<K, nat>)
    requires a.Keys == whole.Keys == b.Keys
    requires forall k :: k in whole ==> whole[k] == a[k] + b[k]
    ensures Sum(whole) == Sum(a) + Sum(b)
    decreases |whole|
  {
    if whole != map[] {
      var k :| k in whole;
      SumTake(whole, k);
      SumTake(a, k);
      SumTake(b, k);
      SumSplits(whole - {k}, a - {k}, b - {k});
    } else {
      assert a == map[] && b == map[];
    }
  }

  /** A map that consists of two parts over disjoint keys. */
  ghost predicate Parts<K(!new)>(whole: map<K, nat>, a: map<K, nat>, b: map<K, nat>) {
    && (forall k :: k in whole <==> k in a || k in b)
    && (forall k :: k in a ==> k !in b && whole[k] == a[k])
    && (forall k :: k in b ==> whole[k] == b[k])
  }

  /** Maps over disjoint keys add up. */
  lemma {:induction false} SumDisjoint<K(!new)>(whole: map<K, nat>, a: map<K, nat>, b: map<K, nat>)
    requires Parts(whole, a, b)
    ensures Sum(whole) == Sum(a) + Sum(b)
    decreases |a|
  {
    if a == map[] {
      assert whole == b;
    } else {
      var k :| k in a;
      SumTake(a, k);
      SumTake(whole, k);
      SumDisjoint(whole - {k}, a - {k}, b);
    }
  }

  /** Renaming keys one to one keeps the sum. */
  lemma {:induction false} SumRenamed<K(!new), L(!new)>(a: map<K, nat>, b: map<L, nat>, rename: K -> L)
    requires forall k :: k in a ==> rename(k) in b && b[rename(k)] == a[k]
    requires forall l :: l in b ==> exists k :: k in a && rename(k) == l
    requires forall k, k' :: k in a && k' in a && rename(k) == rename(k') ==> k == k'
    ensures Sum(a) == Sum(b)
    decreases |a|
  {
    if a == map[] {
      assert b == map[];
    } else {
      var k :| k in a;
      SumTake(a, k);
      SumTake(b, rename(k));
      SumRenamed(a - {k}, b - {rename(k)}, rename);
    }
  }

  /** A sum over some keys is bounded by a sum over others when each key has one of its own to stand for it. */
  lemma {:induction false} SumInjected<K(!new), L(!new)>(a: map<K, nat>, b: map<L, nat>, stand: K -> L)
    requires forall k :: k in a ==> stand(k) in b && a[k] <= b[stand(k)]
    requires forall k, k' :: k in a && k' in a && stand(k) == stand(k') ==> k == k'
    ensures Sum(a) <= Sum(b)
    decreases |a|
  {
    if a != map[] {
      var k :| k in a;
      SumTake(a, k);
      SumTake(b, stand(k));
      SumInjected(a - {k}, b - {stand(k)}, stand);
    }
  }
}
