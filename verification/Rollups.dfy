/** Rollups of 10, 60 and 3600 seconds, kept in step by every report. */
module Rollups {
  import opened Traffic
  import Stats

  // ---- maps combined entry by entry, an absent entry counting as zero ----

  function Combine<V>(op: (V, V) -> V, zero: V, a: map<string, V>, b: map<string, V>): map<string, V> {
    map k | k in a.Keys + b.Keys :: if k in b then op(if k in a then a[k] else zero, b[k]) else a[k]
  }

  ghost predicate Laws<V(!new)>(op: (V, V) -> V, zero: V, ok: V -> bool) {
    && (forall x :: ok(x) ==> op(zero, x) == x)
    && (forall x, y :: ok(x) && ok(y) ==> ok(op(x, y)) && op(x, y) == op(y, x))
    && (forall x, y, z :: ok(x) && ok(y) && ok(z) ==> op(op(x, y), z) == op(x, op(y, z)))
  }

  ghost predicate AllOf<V(!new)>(m: map<string, V>, ok: V -> bool) {
    forall k :: k in m ==> ok(m[k])
  }

  lemma CombineCloses<V(!new)>(op: (V, V) -> V, zero: V, ok: V -> bool, a: map<string, V>, b: map<string, V>)
    requires Laws(op, zero, ok) && AllOf(a, ok) && AllOf(b, ok)
    ensures AllOf(Combine(op, zero, a, b), ok) && Combine(op, zero, map[], a) == a == Combine(op, zero, a, map[])
  {}

  lemma CombineCommutes<V(!new)>(op: (V, V) -> V, zero: V, ok: V -> bool, a: map<string, V>, b: map<string, V>)
    requires Laws(op, zero, ok) && AllOf(a, ok) && AllOf(b, ok)
    ensures Combine(op, zero, a, b) == Combine(op, zero, b, a)
  {
    var l, r := Combine(op, zero, a, b), Combine(op, zero, b, a);
    forall k | k in l ensures l[k] == r[k] {}
  }

  lemma CombineAssociates<V(!new)>(op: (V, V) -> V, zero: V, ok: V -> bool,
                                     a: map<string, V>, b: map<string, V>, c: map<string, V>)
    requires Laws(op, zero, ok) && AllOf(a, ok) && AllOf(b, ok) && AllOf(c, ok)
    ensures Combine(op, zero, Combine(op, zero, a, b), c) == Combine(op, zero, a, Combine(op, zero, b, c))
  {
    var l, r := Combine(op, zero, Combine(op, zero, a, b), c), Combine(op, zero, a, Combine(op, zero, b, c));
    assert l.Keys == r.Keys;
    forall k | k in l ensures l[k] == r[k] {}
  }

  // ---- the three parts of a rollup ----

  datatype CheckTotals = CheckTotals(success: nat, failure: nat, unavailable: nat, latency: Stats.Stat)

  const NO_CHECKS := CheckTotals(0, 0, 0, Stats.ZERO)

  function AddChecks(a: CheckTotals, b: CheckTotals): CheckTotals {
    CheckTotals(a.success + b.success, a.failure + b.failure, a.unavailable + b.unavailable,
                Stats.Merge(a.latency, b.latency))
  }

  predicate SoundStat(s: Stats.Stat) { Stats.Sound(s) }
  predicate SoundChecks(c: CheckTotals) { Stats.Sound(c.latency) }
  predicate SoundTraffic(t: Traffic) { t.rxPeak >= 0.0 && t.txPeak >= 0.0 }

  lemma StatLaw(x: Stats.Stat, y: Stats.Stat, z: Stats.Stat)
    requires SoundStat(x) && SoundStat(y) && SoundStat(z)
    ensures Stats.Merge(Stats.ZERO, x) == x
    ensures SoundStat(Stats.Merge(x, y)) && Stats.Merge(x, y) == Stats.Merge(y, x)
    ensures Stats.Merge(Stats.Merge(x, y), z) == Stats.Merge(x, Stats.Merge(y, z))
  {
    Stats.MergeLaws(x, y, z);
  }

  lemma StatLaws()
    ensures Laws(Stats.Merge, Stats.ZERO, SoundStat)
  {
    hide Stats.Merge, SoundStat;
    forall x | SoundStat(x) ensures Stats.Merge(Stats.ZERO, x) == x {
      StatLaw(x, x, x);
    }
    forall x, y | SoundStat(x) && SoundStat(y)
      ensures SoundStat(Stats.Merge(x, y)) && Stats.Merge(x, y) == Stats.Merge(y, x)
    {
      StatLaw(x, y, y);
    }
    forall x, y, z | SoundStat(x) && SoundStat(y) && SoundStat(z)
      ensures Stats.Merge(Stats.Merge(x, y), z) == Stats.Merge(x, Stats.Merge(y, z))
    {
      StatLaw(x, y, z);
    }
  }

  lemma CheckLaw(x: CheckTotals, y: CheckTotals, z: CheckTotals)
    requires SoundChecks(x) && SoundChecks(y) && SoundChecks(z)
    ensures AddChecks(NO_CHECKS, x) == x
    ensures SoundChecks(AddChecks(x, y)) && AddChecks(x, y) == AddChecks(y, x)
    ensures AddChecks(AddChecks(x, y), z) == AddChecks(x, AddChecks(y, z))
  {
    hide Stats.Merge;
    Stats.MergeLaws(x.latency, y.latency, z.latency);
  }

  lemma CheckLaws()
    ensures Laws(AddChecks, NO_CHECKS, SoundChecks)
  {
    hide AddChecks, SoundChecks;
    forall x | SoundChecks(x) ensures AddChecks(NO_CHECKS, x) == x {
      CheckLaw(x, x, x);
    }
    forall x, y | SoundChecks(x) && SoundChecks(y)
      ensures SoundChecks(AddChecks(x, y)) && AddChecks(x, y) == AddChecks(y, x)
    {
      CheckLaw(x, y, y);
    }
    forall x, y, z | SoundChecks(x) && SoundChecks(y) && SoundChecks(z)
      ensures AddChecks(AddChecks(x, y), z) == AddChecks(x, AddChecks(y, z))
    {
      CheckLaw(x, y, z);
    }
  }

  lemma TrafficLaw(x: Traffic, y: Traffic, z: Traffic)
    requires SoundTraffic(x) && SoundTraffic(y) && SoundTraffic(z)
    ensures Plus(NONE, x) == x
    ensures SoundTraffic(Plus(x, y)) && Plus(x, y) == Plus(y, x)
    ensures Plus(Plus(x, y), z) == Plus(x, Plus(y, z))
  {}

  lemma TrafficLaws()
    ensures Laws(Plus, NONE, SoundTraffic)
  {
    hide Plus, SoundTraffic;
    forall x | SoundTraffic(x) ensures Plus(NONE, x) == x {
      TrafficLaw(x, x, x);
    }
    forall x, y | SoundTraffic(x) && SoundTraffic(y) ensures SoundTraffic(Plus(x, y)) && Plus(x, y) == Plus(y, x) {
      TrafficLaw(x, y, y);
    }
    forall x, y, z | SoundTraffic(x) && SoundTraffic(y) && SoundTraffic(z)
      ensures Plus(Plus(x, y), z) == Plus(x, Plus(y, z))
    {
      TrafficLaw(x, y, z);
    }
  }

  lemma JoinedIsCombine(a: Totals, b: Totals)
    ensures Joined(a, b) == Combine(Plus, NONE, a, b)
  {}

  datatype Rollup = Rollup(count: nat, gap: bool, metrics: map<string, Stats.Stat>, traffic: Totals,
                           checks: map<string, CheckTotals>)

  const EMPTY := Rollup(0, false, map[], map[], map[])

  function MergeRollups(a: Rollup, b: Rollup): Rollup {
    Rollup(a.count + b.count, a.gap || b.gap,
           Combine(Stats.Merge, Stats.ZERO, a.metrics, b.metrics),
           Joined(a.traffic, b.traffic),
           Combine(AddChecks, NO_CHECKS, a.checks, b.checks))
  }

  ghost predicate Sound(r: Rollup) {
    AllOf(r.metrics, SoundStat) && AllOf(r.traffic, SoundTraffic) && AllOf(r.checks, SoundChecks)
  }

  lemma MergeCloses(a: Rollup, b: Rollup)
    requires Sound(a) && Sound(b)
    ensures Sound(MergeRollups(a, b)) && MergeRollups(EMPTY, a) == a == MergeRollups(a, EMPTY)
  {
    hide Combine, Joined, Laws, AllOf;
    StatLaws(); TrafficLaws(); CheckLaws();
    CombineCloses(Stats.Merge, Stats.ZERO, SoundStat, a.metrics, b.metrics);
    CombineCloses(Plus, NONE, SoundTraffic, a.traffic, b.traffic);
    CombineCloses(AddChecks, NO_CHECKS, SoundChecks, a.checks, b.checks);
    JoinedIsCombine(a.traffic, b.traffic);
    JoinedIsCombine(map[], a.traffic);
    JoinedIsCombine(a.traffic, map[]);
  }

  lemma MergeCommutes(a: Rollup, b: Rollup)
    requires Sound(a) && Sound(b)
    ensures MergeRollups(a, b) == MergeRollups(b, a)
  {
    hide Combine, Joined, Laws, AllOf;
    StatLaws(); TrafficLaws(); CheckLaws();
    CombineCommutes(Stats.Merge, Stats.ZERO, SoundStat, a.metrics, b.metrics);
    CombineCommutes(Plus, NONE, SoundTraffic, a.traffic, b.traffic);
    CombineCommutes(AddChecks, NO_CHECKS, SoundChecks, a.checks, b.checks);
    JoinedIsCombine(a.traffic, b.traffic);
    JoinedIsCombine(b.traffic, a.traffic);
  }

  /** Merging rollups is associative: buckets may be grouped in any way. */
  lemma MergeAssociates(a: Rollup, b: Rollup, c: Rollup)
    requires Sound(a) && Sound(b) && Sound(c)
    ensures MergeRollups(MergeRollups(a, b), c) == MergeRollups(a, MergeRollups(b, c))
  {
    hide Combine, Joined, Laws, AllOf;
    StatLaws(); TrafficLaws(); CheckLaws();
    CombineAssociates(Stats.Merge, Stats.ZERO, SoundStat, a.metrics, b.metrics, c.metrics);
    CombineAssociates(Plus, NONE, SoundTraffic, a.traffic, b.traffic, c.traffic);
    CombineAssociates(AddChecks, NO_CHECKS, SoundChecks, a.checks, b.checks, c.checks);
    JoinedIsCombine(a.traffic, b.traffic);
    JoinedIsCombine(b.traffic, c.traffic);
    JoinedIsCombine(Joined(a.traffic, b.traffic), c.traffic);
    JoinedIsCombine(a.traffic, Joined(b.traffic, c.traffic));
  }
}
