/** How many entries of a finite map satisfy a test, and how that number moves when one entry changes. */
module Counting {

  ghost function Count<K, V>(m: map<K, V>, p: V -> bool): nat {
    |set k | k in m && p(m[k])|
  }

  function Bit(b: bool): nat {
    if b then 1 else 0
  }

  lemma CountAs<K, V>(m: map<K, V>, p: V -> bool, hits: set<K>)
    requires forall k :: k in hits <==> k in m && p(m[k])
    ensures Count(m, p) == |hits|
  {
    assert hits == set k | k in m && p(m[k]);
  }

  lemma CountSame<K, V>(m: map<K, V>, m': map<K, V>, p: V -> bool)
    requires forall k :: k in m && p(m[k]) <==> k in m' && p(m'[k])
    ensures Count(m, p) == Count(m', p)
  {
    assert (set k | k in m && p(m[k])) == set k | k in m' && p(m'[k]);
  }

  /** A test that splits into two exclusive ones is counted by their sum. */
  lemma CountSplit<K, V>(m: map<K, V>, whole: V -> bool, p: V -> bool, q: V -> bool)
    requires forall k :: k in m ==> (whole(m[k]) <==> p(m[k]) || q(m[k])) && !(p(m[k]) && q(m[k]))
    ensures Count(m, whole) == Count(m, p) + Count(m, q)
  {
    var left := set k | k in m && p(m[k]);
    var right := set k | k in m && q(m[k]);
    CountAs(m, whole, left + right);
  }

  lemma CountUpdate<K, V>(m: map<K, V>, k: K, v: V, p: V -> bool)
    ensures Count(m[k := v], p) == Count(m, p) - Bit(k in m && p(m[k])) + Bit(p(v))
  {
    var before := set x | x in m && p(m[x]);
    var m' := m[k := v];
    var after := set x | x in m' && p(m'[x]);
    if p(v) {
      assert after == before + {k};
    } else {
      assert after == before - {k};
    }
  }

  lemma CountRemove<K, V>(m: map<K, V>, k: K, p: V -> bool)
    requires k in m
    ensures Count(m - {k}, p) == Count(m, p) - Bit(p(m[k]))
  {
    var before := set x | x in m && p(m[x]);
    var m' := m - {k};
    var after := set x | x in m' && p(m'[x]);
    assert after == before - {k};
  }

  lemma CountPositive<K, V>(m: map<K, V>, k: K, p: V -> bool)
    requires k in m && p(m[k])
    ensures Count(m, p) > 0
  {
    var hits := set x | x in m && p(m[x]);
    assert k in hits;
  }

  lemma CountZero<K, V>(m: map<K, V>, p: V -> bool)
    requires forall k :: k in m ==> !p(m[k])
    ensures Count(m, p) == 0
  {
    assert (set x | x in m && p(m[x])) == {};
  }

  lemma CountWitness<K, V>(m: map<K, V>, p: V -> bool) returns (k: K)
    requires Count(m, p) > 0
    ensures k in m && p(m[k])
  {
    k :| k in set x | x in m && p(m[x]);
  }
}
