/** Sums over the values of a finite map: the form in which byte totals, bucket
    counts and credit balances are added up across database rows. */
module MapSums {

  ghost function Sum<K(!new)>(m: map<K, int>): int
    decreases |m|
  {
    if |m| == 0 then 0
    else
      var k :| k in m;
      assert |m - {k}| < |m| by { Smaller(m, k); }
      m[k] + Sum(m - {k})
  }

  lemma Smaller<K, V>(m: map<K, V>, k: K)
    requires k in m
    ensures |m - {k}| == |m| - 1
  {
    assert (m - {k}).Keys == m.Keys - {k};
    assert |m.Keys - {k}| == |m.Keys| - 1;
  }

  /** Some key is taken out first. */
  lemma SumTakesSome<K(!new)>(m: map<K, int>) returns (j: K)
    requires |m| != 0
    ensures j in m && Sum(m) == m[j] + Sum(m - {j})
  {
    j :| j in m && Sum(m) == m[j] + Sum(m - {j});
  }

  /** Any key may be taken out first. */
  lemma {:induction false} SumTake<K(!new)>(m: map<K, int>, k: K)
    requires k in m
    ensures Sum(m) == m[k] + Sum(m - {k})
    decreases |m|, 1
  {
    hide Sum;
    Smaller(m, k);
    var j := SumTakesSome(m);
    if j != k { TakingCommutes(m, j, k); }
  }

  lemma {:induction false} TakingCommutes<K(!new)>(m: map<K, int>, j: K, k: K)
    requires j in m && k in m && j != k
    ensures m[j] + Sum(m - {j}) == m[k] + Sum(m - {k})
    decreases |m|, 0
  {
    hide Sum;
    Smaller(m, j);
    Smaller(m, k);
    SumTake(m - {j}, k);
    SumTake(m - {k}, j);
    assert m - {j} - {k} == m - {k} - {j};
  }

  lemma SumPut<K(!new)>(m: map<K, int>, k: K, v: int)
    ensures Sum(m[k := v]) == Sum(m) + v - (if k in m then m[k] else 0)
  {
    hide Sum;
    SumTake(m[k := v], k);
    if k in m {
      SumTake(m, k);
      assert m[k := v] - {k} == m - {k};
    } else {
      assert m[k := v] - {k} == m;
    }
  }

  lemma JoinPut<K(!new)>(a: map<K, int>, b: map<K, int>, k: K)
    requires k in b && k !in a
    ensures k !in a + (b - {k})
    ensures (a + (b - {k}))[k := b[k]] == a + b
  {
    var ab := (a + (b - {k}))[k := b[k]];
    assert ab.Keys == (a + b).Keys;
    forall j | j in ab ensures ab[j] == (a + b)[j] {}
  }

  lemma {:induction false} SumJoin<K(!new)>(a: map<K, int>, b: map<K, int>)
    requires a.Keys !! b.Keys
    ensures Sum(a + b) == Sum(a) + Sum(b)
    decreases |b|
  {
    hide Sum;
    if |b| == 0 {
      assert a + b == a;
      SumOfZeros(b);
    } else {
      var k :| k in b;
      var rest := b - {k};
      Smaller(b, k);
      assert a.Keys !! rest.Keys;
      SumJoin(a, rest);
      SumTake(b, k);
      JoinPut(a, b, k);
      SumPut(a + rest, k, b[k]);
    }
  }

  lemma JoinIs<K(!new)>(m: map<K, int>, kept: map<K, int>, lost: map<K, int>)
    requires kept.Keys !! lost.Keys && kept.Keys + lost.Keys == m.Keys
    requires forall k :: k in kept ==> kept[k] == m[k]
    requires forall k :: k in lost ==> lost[k] == m[k]
    ensures kept + lost == m
  {
    assert (kept + lost).Keys == m.Keys;
    forall k | k in m ensures (kept + lost)[k] == m[k] {}
  }

  /** Deleting rows moves exactly their values out of the total. */
  lemma SumSplit<K(!new)>(m: map<K, int>, kept: map<K, int>, lost: map<K, int>)
    requires kept.Keys !! lost.Keys && kept.Keys + lost.Keys == m.Keys
    requires forall k :: k in kept ==> kept[k] == m[k]
    requires forall k :: k in lost ==> lost[k] == m[k]
    ensures Sum(m) == Sum(kept) + Sum(lost)
  {
    SumJoin(kept, lost);
    JoinIs(m, kept, lost);
  }

  lemma {:induction false} SumOfZeros<K(!new)>(m: map<K, int>)
    requires forall k :: k in m ==> m[k] == 0
    ensures Sum(m) == 0
    decreases |m|
  {
    if |m| != 0 {
      var k :| k in m;
      Smaller(m, k);
      SumTake(m, k);
      SumOfZeros(m - {k});
    }
  }

  lemma {:induction false} SubsetIsSmaller<T>(a: set<T>, b: set<T>)
    requires a <= b
    ensures |a| <= |b|
  {
    if a != {} {
      var x :| x in a;
      SubsetIsSmaller(a - {x}, b - {x});
    }
  }
}
