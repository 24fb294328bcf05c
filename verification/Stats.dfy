/** Running statistics and their merge. `Stat` is the value stored inside rollups;
    `StatCell` is the same record updated in place. Sums are exact reals. */
module Stats {

  datatype Stat = Stat(count: nat, sum: real, min: real, max: real, average: real)

  const ZERO := Stat(0, 0.0, 0.0, 0.0, 0.0)

  function Add(s: Stat, v: real): Stat {
    Stat(s.count + 1, s.sum + v,
         if s.count == 0 || v < s.min then v else s.min,
         if s.count == 0 || s.max < v then v else s.max,
         (s.sum + v) / (s.count + 1) as real)
  }

  function Merge(s: Stat, v: Stat): Stat {
    if v.count == 0 then s
    else Stat(s.count + v.count, s.sum + v.sum,
              if s.count == 0 || v.min < s.min then v.min else s.min,
              if s.count == 0 || s.max < v.max then v.max else s.max,
              (s.sum + v.sum) / (s.count + v.count) as real)
  }

  /** A statistic that some readings can produce. */
  predicate Sound(s: Stat) {
    if s.count == 0 then s == ZERO else s.average == s.sum / s.count as real
  }

  lemma MergeLaws(a: Stat, b: Stat, c: Stat)
    requires Sound(a) && Sound(b) && Sound(c)
    ensures Sound(Merge(a, b)) && Merge(a, b) == Merge(b, a)
    ensures Merge(Merge(a, b), c) == Merge(a, Merge(b, c))
    ensures Merge(ZERO, a) == a == Merge(a, ZERO)
  {}

  lemma AddIsMerge(s: Stat, v: real)
    requires Sound(s)
    ensures Sound(Add(ZERO, v)) && Add(s, v) == Merge(s, Add(ZERO, v))
  {
    assert 0.0 + v == v;
  }

  // ---- what a statistic means ----

  function Describe(readings: seq<real>): Stat {
    if |readings| == 0 then ZERO
    else Add(Describe(readings[..|readings| - 1]), readings[|readings| - 1])
  }

  function Total(readings: seq<real>): real {
    if |readings| == 0 then 0.0
    else Total(readings[..|readings| - 1]) + readings[|readings| - 1]
  }

  lemma {:induction false} DescribeCounts(readings: seq<real>)
    ensures var s := Describe(readings);
      Sound(s) && s.count == |readings| && s.sum == Total(readings)
  {
    if |readings| > 0 { DescribeCounts(readings[..|readings| - 1]); }
  }

  lemma {:induction false} DescribeExtremes(readings: seq<real>)
    ensures var s := Describe(readings);
      && (forall v :: v in readings ==> s.min <= v <= s.max)
      && (|readings| > 0 ==> s.min in readings && s.max in readings)
  {
    if |readings| > 0 {
      var most := readings[..|readings| - 1];
      DescribeCounts(most);
      DescribeExtremes(most);
      assert readings == most + [readings[|readings| - 1]];
    }
  }

  lemma OneMoreBelow(lo: real, n: nat, total: real, v: real)
    requires lo * n as real <= total && lo <= v
    ensures lo * (n + 1) as real <= total + v
  {
    assert lo * (n + 1) as real == lo * n as real + lo;
  }

  lemma OneMoreAbove(hi: real, n: nat, total: real, v: real)
    requires total <= hi * n as real && v <= hi
    ensures total + v <= hi * (n + 1) as real
  {
    assert hi * (n + 1) as real == hi * n as real + hi;
  }

  lemma {:induction false} TotalBounds(readings: seq<real>, lo: real, hi: real)
    requires forall v :: v in readings ==> lo <= v <= hi
    ensures lo * |readings| as real <= Total(readings) <= hi * |readings| as real
  {
    if |readings| > 0 {
      var most, v := readings[..|readings| - 1], readings[|readings| - 1];
      assert v in readings && forall w :: w in most ==> w in readings;
      TotalBounds(most, lo, hi);
      OneMoreBelow(lo, |most|, Total(most), v);
      OneMoreAbove(hi, |most|, Total(most), v);
    }
  }

  lemma Scale(a: real, b: real, n: real)
    requires a < b && n > 0.0
    ensures a * n < b * n
  {}

  lemma AverageBetween(lo: real, hi: real, sum: real, n: real)
    requires n > 0.0 && lo * n <= sum <= hi * n
    ensures lo <= sum / n <= hi
  {
    var q := sum / n;
    assert q * n == sum;
    if q < lo { Scale(q, lo, n); assert false; }
    if hi < q { Scale(hi, q, n); assert false; }
  }

  lemma AverageOf(s: Stat)
    requires Sound(s) && s.count > 0 && s.min * s.count as real <= s.sum <= s.max * s.count as real
    ensures s.min <= s.average <= s.max
  {
    AverageBetween(s.min, s.max, s.sum, s.count as real);
  }

  lemma AverageIsMean(readings: seq<real>)
    ensures Describe(readings).average * |readings| as real == Total(readings)
  {
    DescribeCounts(readings);
    hide Describe, Total;
  }

  lemma AverageIsBetween(readings: seq<real>)
    requires |readings| > 0
    ensures var s := Describe(readings); s.min <= s.average <= s.max
  {
    hide Describe, Total, Sound;
    var s := Describe(readings);
    DescribeCounts(readings);
    DescribeExtremes(readings);
    TotalBounds(readings, s.min, s.max);
    AverageOf(s);
  }

  /** Count, sum, average and extremes are those of the readings, and the average lies
      between the extremes. */
  lemma {:induction false} DescribeMeans(readings: seq<real>)
    ensures var s := Describe(readings);
      && Sound(s) && s.count == |readings| && s.sum == Total(readings)
      && s.average * |readings| as real == Total(readings)
      && (forall v :: v in readings ==> s.min <= v <= s.max)
      && (|readings| > 0 ==> s.min in readings && s.max in readings && s.min <= s.average <= s.max)
  {
    hide Describe, Total, Sound;
    DescribeCounts(readings);
    DescribeExtremes(readings);
    AverageIsMean(readings);
    if |readings| > 0 { AverageIsBetween(readings); }
  }

  /** Adding readings one by one over a split and merging gives the same record as
      adding them all. */
  lemma {:induction false} MergeIsConcatenation(a: seq<real>, b: seq<real>)
    ensures Merge(Describe(a), Describe(b)) == Describe(a + b)
  {
    DescribeCounts(a);
    if |b| == 0 {
      assert a + b == a;
    } else {
      var most, v := b[..|b| - 1], b[|b| - 1];
      MergeIsConcatenation(a, most);
      assert (a + b)[..|a + b| - 1] == a + most;
      DescribeCounts(most);
      DescribeCounts(a + most);
      AddIsMerge(Describe(most), v);
      AddIsMerge(Describe(a + most), v);
      MergeLaws(Describe(a), Describe(most), Add(ZERO, v));
    }
  }

  class StatCell {
    var count: nat
    var sum: real
    var min: real
    var max: real
    var average: real
    ghost var readings: seq<real>

    function Value(): Stat
      reads this
    {
      Stat(count, sum, min, max, average)
    }

    ghost predicate Valid()
      reads this
    {
      Value() == Describe(readings)
    }

    constructor ()
      ensures Valid() && readings == []
    {
      count, sum, min, max, average := 0, 0.0, 0.0, 0.0, 0.0;
      readings := [];
    }

    method Add(v: real)
      requires Valid()
      modifies this
      ensures Valid() && readings == old(readings) + [v]
    {
      DescribeCounts(readings);
      if count == 0 || v < min { min := v; }
      if count == 0 || v > max { max := v; }
      sum := sum + v;
      count := count + 1;
      average := sum / count as real;
      readings := readings + [v];
    }

    method Merge(other: StatCell)
      requires Valid() && other.Valid()
      modifies this
      ensures Valid() && readings == old(readings + other.readings)
    {
      DescribeCounts(readings);
      DescribeCounts(other.readings);
      MergeIsConcatenation(readings, other.readings);
      var v := other.Value();
      if v.count == 0 {
        assert other.readings == [];
        return;
      }
      if count == 0 || v.min < min { min := v.min; }
      if count == 0 || v.max > max { max := v.max; }
      sum := sum + v.sum;
      count := count + v.count;
      average := sum / count as real;
      readings := readings + other.readings;
    }
  }
}
