/** Facts about finite maps, stated once for every key type. */
module Maps {
  import opened Basics

  ghost function Any<K, V>(m: map<K, V>): (k: K)
    requires |m| != 0
    ensures k in m
  {
    assert m.Keys != {};
    var k :| k in m; k
  }

  lemma RemoveTwice<K, V>(m: map<K, V>, j: K, k: K)
    ensures m - {j} - {k} == m - {k} - {j}
  {}

  lemma RemoveAdded<K, V>(m: map<K, V>, k: K, v: V)
    requires k !in m
    ensures m[k := v] - {k} == m
  {}

  lemma RemoveAbsent<K, V>(m: map<K, V>, k: K)
    requires k !in m
    ensures m - {k} == m
  {}

  lemma OneLess<K, V>(m: map<K, V>, k: K)
    requires k in m
    ensures |m - {k}| == |m| - 1
  {
    assert (m - {k}).Keys == m.Keys - {k};
  }

  /** The entry of k, and the map with that entry set or removed. */
  function GetAt<K, V>(m: map<K, V>, k: K): Option<V> {
    if k in m then Some(m[k]) else None
  }

  function SetAt<K, V>(m: map<K, V>, k: K, v: Option<V>): map<K, V> {
    if v.Some? then m[k := v.value] else m - {k}
  }

  lemma GetSet<K, V>(m: map<K, V>, k: K, v: Option<V>, x: K)
    ensures GetAt(SetAt(m, k, v), x) == if x == k then v else GetAt(m, x)
  {}

  lemma SetSet<K, V>(m: map<K, V>, k: K, v: Option<V>, w: Option<V>)
    ensures SetAt(SetAt(m, k, v), k, w) == SetAt(m, k, w)
  {}

  lemma SetSame<K, V>(m: map<K, V>, k: K)
    ensures SetAt(m, k, GetAt(m, k)) == m
  {}

  /** The map of what f makes of the values it selects. */
  ghost function Select<K, V, W>(m: map<K, V>, f: V -> Option<W>): map<K, W> {
    map k | k in m && f(m[k]).Some? :: f(m[k]).value
  }

  lemma SelectSet<K, V, W>(m: map<K, V>, f: V -> Option<W>, k: K, v: Option<V>)
    ensures Select(SetAt(m, k, v), f) == SetAt(Select(m, f), k, if v.Some? then f(v.value) else None)
  {}

  lemma SelectGet<K, V, W>(m: map<K, V>, f: V -> Option<W>, k: K)
    ensures GetAt(Select(m, f), k) == if k in m then f(m[k]) else None
  {}

  lemma Extensional<K, V>(a: map<K, V>, b: map<K, V>)
    requires forall k :: k in a <==> k in b
    requires forall k | k in a && k in b :: a[k] == b[k]
    ensures a == b
  {}

  lemma SameGets<K, V>(a: map<K, V>, b: map<K, V>)
    requires forall k :: GetAt(a, k) == GetAt(b, k)
    ensures a == b
  {
    forall k ensures k in a <==> k in b ensures k in a && k in b ==> a[k] == b[k] {
      assert GetAt(a, k) == GetAt(b, k);
    }
    Extensional(a, b);
  }

  lemma SameKeys<K, V, W>(a: map<K, V>, b: map<K, W>)
    requires forall k :: k in a <==> k in b
    ensures |a| == |b|
  {
    assert a.Keys == b.Keys;
  }

  /** The sum of the weights of a map's values. */
  ghost function Sum<K, V>(c: map<K, V>, w: V -> int): int
    decreases |c|
  {
    if |c| == 0 then 0
    else var k := Any(c); w(c[k]) + Sum(c - {k}, w)
  }

  lemma {:induction false} SumRemove<K, V>(c: map<K, V>, k: K, w: V -> int)
    requires k in c
    ensures Sum(c, w) == w(c[k]) + Sum(c - {k}, w)
    decreases |c|
  {
    var j := Any(c);
    if j != k {
      SumRemove(c - {j}, k, w);
      SumRemove(c - {k}, j, w);
      RemoveTwice(c, j, k);
    }
  }

  lemma SumAdd<K, V>(c: map<K, V>, k: K, v: V, w: V -> int)
    requires k !in c
    ensures Sum(c[k := v], w) == w(v) + Sum(c, w)
  {
    SumRemove(c[k := v], k, w);
    RemoveAdded(c, k, v);
  }

  /** Every value weighs something non-negative; so does the map, and a part weighs no more. */
  lemma {:induction false} SumNonNegative<K, V>(c: map<K, V>, w: V -> int)
    requires forall k | k in c :: w(c[k]) >= 0
    ensures Sum(c, w) >= 0
    decreases |c|
  {
    if |c| != 0 {
      SumNonNegative(c - {Any(c)}, w);
    }
  }

  lemma {:induction false} SumMonotone<K, V>(part: map<K, V>, c: map<K, V>, w: V -> int)
    requires part.Keys <= c.Keys && forall k | k in part :: part[k] == c[k]
    requires forall k | k in c :: w(c[k]) >= 0
    ensures Sum(part, w) <= Sum(c, w)
    decreases |part|
  {
    if |part| == 0 {
      SumNonNegative(c, w);
    } else {
      var k := Any(part);
      SumRemove(c, k, w);
      SumMonotone(part - {k}, c - {k}, w);
    }
  }

  lemma {:induction false} SumAtLeast<K, V>(c: map<K, V>, v: V -> int, w: V -> int)
    requires forall k | k in c :: v(c[k]) <= w(c[k])
    ensures Sum(c, v) <= Sum(c, w)
    decreases |c|
  {
    if |c| != 0 {
      SumAtLeast(c - {Any(c)}, v, w);
    }
  }

  lemma {:induction false} SumPositiveIff<K, V>(c: map<K, V>, w: V -> int)
    requires forall k | k in c :: w(c[k]) >= 0
    ensures Sum(c, w) > 0 <==> exists k :: k in c && w(c[k]) > 0
    decreases |c|
  {
    if |c| != 0 {
      var k := Any(c);
      var rest := c - {k};
      SumPositiveIff(rest, w);
      SumNonNegative(rest, w);
      if j :| j in c && w(c[j]) > 0 {
        assert j == k || (j in rest && w(rest[j]) > 0);
      }
      if j :| j in rest && w(rest[j]) > 0 {
        assert j in c && w(c[j]) > 0;
      }
    }
  }

  function Weight<V>(v: Option<V>, w: V -> int): int {
    if v.Some? then w(v.value) else 0
  }

  /** Changing one entry changes the sum by the difference of its weights. */
  lemma SumSet<K, V>(c: map<K, V>, k: K, v: Option<V>, w: V -> int)
    ensures Sum(SetAt(c, k, v), w) == Sum(c, w) - Weight(GetAt(c, k), w) + Weight(v, w)
  {
    var bare := c - {k};
    if k in c {
      SumRemove(c, k, w);
    } else {
      RemoveAbsent(c, k);
    }
    if v.Some? {
      SumAdd(bare, k, v.value, w);
      SetSet(c, k, None, v);
    }
  }

  lemma SizeWithout<K, V>(m: map<K, V>, k: K)
    ensures |SetAt(m, k, None)| == |m| - if k in m then 1 else 0
  {
    if k in m {
      assert |m - {k}| == |m| - 1;
    } else {
      RemoveAbsent(m, k);
    }
  }

  /** What one key weighs in two maps together. */
  ghost function PairWeight<K, V>(a: map<K, V>, b: map<K, V>, k: K, w: V -> int): int {
    Weight(GetAt(a, k), w) + Weight(GetAt(b, k), w)
  }

  lemma PairWithout<K, V>(a: map<K, V>, b: map<K, V>, k: K, x: K, w: V -> int)
    ensures PairWeight(SetAt(a, k, None), SetAt(b, k, None), x, w) == if x == k then 0 else PairWeight(a, b, x, w)
  {
    GetSet(a, k, None, x);
    GetSet(b, k, None, x);
  }

  /** Two pairs of maps in which every key weighs the same weigh the same. */
  lemma {:induction false} SamePairsSameSum<K, V>(a: map<K, V>, b: map<K, V>, c: map<K, V>, d: map<K, V>, w: V -> int)
    requires forall k :: PairWeight(a, b, k, w) == PairWeight(c, d, k, w)
    ensures Sum(a, w) + Sum(b, w) == Sum(c, w) + Sum(d, w)
    decreases |a| + |b| + |c| + |d|
  {
    if |a| + |b| + |c| + |d| != 0 {
      var k := if |a| != 0 then Any(a) else if |b| != 0 then Any(b) else if |c| != 0 then Any(c) else Any(d);
      SumSet(a, k, None, w);
      SumSet(b, k, None, w);
      SumSet(c, k, None, w);
      SumSet(d, k, None, w);
      forall x
        ensures PairWeight(SetAt(a, k, None), SetAt(b, k, None), x, w)
                == PairWeight(SetAt(c, k, None), SetAt(d, k, None), x, w)
      {
        PairWithout(a, b, k, x, w);
        PairWithout(c, d, k, x, w);
        assert PairWeight(a, b, x, w) == PairWeight(c, d, x, w);
      }
      assert PairWeight(a, b, k, w) == PairWeight(c, d, k, w);
      SizeWithout(a, k);
      SizeWithout(b, k);
      SizeWithout(c, k);
      SizeWithout(d, k);
      SamePairsSameSum(SetAt(a, k, None), SetAt(b, k, None), SetAt(c, k, None), SetAt(d, k, None), w);
    }
  }
}
